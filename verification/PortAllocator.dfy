/** Choosing host ports: which ports are in use (`getUsedPorts`) and the first free block on a grid
    that starts at a cursor kept across calls (`portAllocate`). */
module PortAllocator {
  import opened Strings

  const ALLOCATE_END: nat := 60999
  const FIRST_PORT: nat := 49153
  const TWO_64: nat := 0x1_0000_0000_0000_0000

  // ----- ports in use -----

  /** A line of `/proc/net/<protocol>`. */
  datatype Detail = Detail(localIP: string, localPort: nat, state: nat)

  const TIME_WAIT: nat := 6
  const CLOSE_WAIT: nat := 8

  predicate Matches(d: Detail, ip: string) { ip == "" || d.localIP == "::" || d.localIP == ip }

  predicate Lingers(d: Detail, protocol: string) {
    protocol == "tcp" && (d.state == TIME_WAIT || d.state == CLOSE_WAIT)
  }

  /** `getUsedPorts`, given what the kernel and the NAT table list. */
  method GetUsedPorts(ip: string, protocol: string, details: seq<Detail>, natPorts: seq<nat>) returns (used: set<nat>)
    ensures forall p :: p in used <==>
      p in natPorts || exists d ::
        && d in details && d.localPort == p && (ip == "" || d.localIP == "::" || d.localIP == ip)
        && !(protocol == "tcp" && (d.state == 6 || d.state == 8))
  {
    used := {};
    for i := 0 to |details|
      invariant forall p :: p in used <==>
        exists d :: d in details[..i] && Matches(d, ip) && !Lingers(d, protocol) && d.localPort == p
    {
      var d := details[i];
      assert details[..i + 1] == details[..i] + [d];
      if Matches(d, ip) && !Lingers(d, protocol) {
        used := used + {d.localPort};
      }
    }
    assert details[..|details|] == details;
    ghost var fromKernel := used;
    for i := 0 to |natPorts|
      invariant forall p :: p in used <==> p in fromKernel || p in natPorts[..i]
    {
      assert natPorts[..i + 1] == natPorts[..i] + [natPorts[i]];
      used := used + {natPorts[i]};
    }
    assert natPorts[..|natPorts|] == natPorts;
  }

  // ----- specification -----

  predicate FreeBlock(used: set<nat>, start: nat, count: nat) {
    forall i :: start <= i < start + count ==> i !in used
  }

  /** The guard on the size of a block; the subtraction wraps once the cursor has passed the end. */
  predicate TooMany(cursor: nat, count: nat) {
    count > (ALLOCATE_END - cursor + 1) % TWO_64
  }

  /** The first free block on the grid. */
  function FirstFit(used: set<nat>, start: nat, count: nat): Option<nat>
    requires count >= 1
    decreases if start < ALLOCATE_END then ALLOCATE_END - start else 0
  {
    if start >= ALLOCATE_END then None
    else if FreeBlock(used, start, count) then Some(start)
    else FirstFit(used, start + count, count)
  }

  function Allocate(cursor: nat, used: set<nat>, count: nat): Option<nat>
    requires count >= 1
  {
    if TooMany(cursor, count) then None else FirstFit(used, cursor, count)
  }

  /** At most the ports that are left from the cursor to 60999 can be asked for at once. */
  lemma TooManyMeans(cursor: nat, count: nat)
    requires cursor <= 61000
    ensures TooMany(cursor, count) <==> count > 61000 - cursor
  {
  }

  function Grid(start: nat, count: nat, k: nat): nat { start + k * count }

  predicate Taken(used: set<nat>, start: nat, count: nat, k: nat) {
    !FreeBlock(used, Grid(start, count, k), count)
  }

  /** A block on the grid, below the end, free, and with every earlier one taken. */
  ghost predicate IsFirst(used: set<nat>, start: nat, count: nat, k: nat) {
    && Grid(start, count, k) < ALLOCATE_END
    && FreeBlock(used, Grid(start, count, k), count)
    && forall j: nat :: j < k ==> Taken(used, start, count, j)
  }

  lemma TakenShift(used: set<nat>, start: nat, count: nat, k: nat)
    ensures Taken(used, start + count, count, k) <==> Taken(used, start, count, k + 1)
    ensures Grid(start + count, count, k) == Grid(start, count, k + 1)
  {
    GridShift(start, count, k);
  }

  lemma IsFirstShift(used: set<nat>, start: nat, count: nat, k: nat)
    requires IsFirst(used, start + count, count, k) && Taken(used, start, count, 0)
    ensures IsFirst(used, start, count, k + 1)
  {
    TakenShift(used, start, count, k);
    forall j: nat | j < k + 1 ensures Taken(used, start, count, j) {
      if j > 0 {
        TakenShift(used, start, count, j - 1);
        assert Taken(used, start + count, count, j - 1);
      }
    }
  }

  /** First fit, said without the search: the block found is the first free one on the grid below the
      end; nothing is found only when all of them are taken. */
  lemma {:induction false} FirstFitIsFirst(used: set<nat>, start: nat, count: nat)
    requires count >= 1
    ensures match FirstFit(used, start, count)
      case Some(s) => s >= start && exists k: nat :: s == Grid(start, count, k) && IsFirst(used, start, count, k)
      case None => forall k: nat :: Grid(start, count, k) < ALLOCATE_END ==> Taken(used, start, count, k)
    decreases if start < ALLOCATE_END then ALLOCATE_END - start else 0
  {
    assert Grid(start, count, 0) == start;
    if start >= ALLOCATE_END {
    } else if FreeBlock(used, start, count) {
      assert IsFirst(used, start, count, 0);
    } else {
      FirstFitIsFirst(used, start + count, count);
      match FirstFit(used, start + count, count)
      case Some(s) =>
        var k: nat :| s == Grid(start + count, count, k) && IsFirst(used, start + count, count, k);
        IsFirstShift(used, start, count, k);
        GridShift(start, count, k);
      case None =>
        forall k: nat | Grid(start, count, k) < ALLOCATE_END ensures Taken(used, start, count, k) {
          if k > 0 {
            TakenShift(used, start, count, k - 1);
            assert Grid(start + count, count, k - 1) < ALLOCATE_END;
          }
        }
    }
  }

  lemma GridShift(start: nat, count: nat, k: nat)
    ensures Grid(start + count, count, k) == Grid(start, count, k + 1)
  {
  }

  /** The calls of a fresh process: the first free block starts at 49153 if nothing there is in use. */
  lemma FirstBlock(used: set<nat>, count: nat)
    requires 1 <= count <= 11847 && forall p :: p in used ==> p < 49153 || p >= 49153 + count
    ensures Allocate(FIRST_PORT, used, count) == Some(49153)
    ensures Allocate(FIRST_PORT, used, 11848) == None
  {
    TooManyMeans(FIRST_PORT, count);
    TooManyMeans(FIRST_PORT, 11848);
  }

  // ----- successive allocations -----

  /** The blocks that a sequence of calls in one process hands out, each call with the ports in use at
      its time. */
  function HandOut(cursor: nat, calls: seq<(set<nat>, nat)>): seq<(nat, nat)>
    requires forall c :: c in calls ==> c.1 >= 1
    decreases |calls|
  {
    if calls == [] then []
    else
      match Allocate(cursor, calls[0].0, calls[0].1)
      case None => HandOut(cursor, calls[1..])
      case Some(s) => [(s, s + calls[0].1 - 1)] + HandOut(s + calls[0].1, calls[1..])
  }

  /** Each block ends before any later one starts. */
  predicate Increasing(bs: seq<(nat, nat)>) {
    forall i, j :: 0 <= i < j < |bs| ==> bs[i].1 < bs[j].0
  }

  /** Blocks never overlap and only ever go up. */
  lemma {:induction false} BlocksIncrease(cursor: nat, calls: seq<(set<nat>, nat)>)
    requires forall c :: c in calls ==> c.1 >= 1
    ensures forall b :: b in HandOut(cursor, calls) ==> cursor <= b.0 <= b.1
    ensures Increasing(HandOut(cursor, calls))
    decreases |calls|
  {
    if calls != [] {
      match Allocate(cursor, calls[0].0, calls[0].1)
      case None =>
        BlocksIncrease(cursor, calls[1..]);
        assert HandOut(cursor, calls) == HandOut(cursor, calls[1..]);
      case Some(s) =>
        FirstFitIsFirst(calls[0].0, cursor, calls[0].1);
        BlocksIncrease(s + calls[0].1, calls[1..]);
        var rest := HandOut(s + calls[0].1, calls[1..]);
        forall j | 0 <= j < |rest| ensures rest[j].0 >= s + calls[0].1 { assert rest[j] in rest; }
        assert HandOut(cursor, calls) == [(s, s + calls[0].1 - 1)] + rest;
    }
  }

  // ----- where blocks end -----

  /** Only a block's start is bounded by the end of the range. */
  lemma LastPortBound(cursor: nat, used: set<nat>, count: nat)
    requires count >= 1
    ensures match Allocate(cursor, used, count)
      case None => true
      case Some(s) => cursor <= s && s + count - 1 <= ALLOCATE_END + count - 2
  {
    FirstFitIsFirst(used, cursor, count);
  }

  /** The last grid point below the end. */
  function LastStart(cursor: nat, count: nat): nat
    requires count >= 1 && cursor < ALLOCATE_END
  {
    Grid(cursor, count, (ALLOCATE_END - cursor - 1) / count)
  }

  lemma LastStartIsLast(cursor: nat, count: nat)
    requires count >= 1 && cursor < ALLOCATE_END
    ensures cursor <= LastStart(cursor, count) < ALLOCATE_END <= LastStart(cursor, count) + count
    ensures LastStart(cursor, count) + count - 1 <= ALLOCATE_END <==>
      (ALLOCATE_END - cursor) % count == 0 || (ALLOCATE_END - cursor + 1) % count == 0
  {
    var gap := ALLOCATE_END - cursor;
    var k := (gap - 1) / count;
    var r := (gap - 1) % count;
    assert gap - 1 == k * count + r;
    // gap == k * count + (r + 1) with 1 <= r + 1 <= count
    if r + 1 == count {
      assert gap == (k + 1) * count;
      ModOf(gap, count, k + 1, 0);
    } else {
      ModOf(gap, count, k, r + 1);
      if r + 2 == count {
        assert gap + 1 == (k + 1) * count;
        ModOf(gap + 1, count, k + 1, 0);
      } else {
        ModOf(gap + 1, count, k, r + 2);
      }
    }
  }

  lemma MulSign(x: int, n: int)
    requires n >= 0
    ensures x >= 1 ==> x * n >= n
    ensures x <= -1 ==> x * n <= -n
  {
  }

  lemma ModOf(a: nat, n: nat, q: nat, r: nat)
    requires n >= 1 && r < n && a == q * n + r
    ensures a % n == r
  {
    var d := a / n;
    assert a == d * n + a % n;
    assert (d - q) * n == r - a % n;
    MulSign(d - q, n);
  }

  function UpTo(n: nat): (s: set<nat>)
    ensures forall p: nat :: p in s <==> p < n
  {
    if n == 0 then {} else UpTo(n - 1) + {n - 1}
  }

  /** With every port below a grid point taken and none from there on, that point is found. */
  lemma {:induction false} FillTo(start: nat, count: nat, k: nat, used: set<nat>)
    requires count >= 1 && Grid(start, count, k) < ALLOCATE_END
    requires forall p :: start <= p < Grid(start, count, k) ==> p in used
    requires forall p :: p in used ==> p < Grid(start, count, k)
    ensures FirstFit(used, start, count) == Some(Grid(start, count, k))
    decreases k
  {
    if k > 0 {
      GridShift(start, count, k - 1);
      assert start + count <= Grid(start, count, k) by {
        assert (k - 1) * count >= 0;
        assert k * count == (k - 1) * count + count;
      }
      assert start in used;
      FillTo(start + count, count, k - 1, used);
    }
  }

  /** No block that can be handed out, whatever ports are in use, ends past a limit. */
  ghost predicate AllWithin(cursor: nat, count: nat, limit: int)
    requires count >= 1
  {
    forall used: set<nat> :: Allocate(cursor, used, count).Some? ==>
      Allocate(cursor, used, count).value + count - 1 <= limit
  }

  /** Whether every block ends within a limit depends on the cursor and the size alone: on where the
      block at the last grid point ends, if the call can succeed at all. */
  lemma BlocksWithinExactlyWhen(cursor: nat, count: nat, limit: int)
    requires count >= 1
    ensures AllWithin(cursor, count, limit)
      <==> cursor >= ALLOCATE_END || TooMany(cursor, count) || LastStart(cursor, count) + count - 1 <= limit
  {
    if cursor < ALLOCATE_END && !TooMany(cursor, count) {
      LastStartIsLast(cursor, count);
      var k := (ALLOCATE_END - cursor - 1) / count;
      var last := Grid(cursor, count, k);
      FillTo(cursor, count, k, UpTo(last));
      assert Allocate(cursor, UpTo(last), count) == Some(last);
      forall used: set<nat> | Allocate(cursor, used, count).Some?
        ensures Allocate(cursor, used, count).value <= last
      {
        NoLaterStart(cursor, used, count);
      }
    }
  }

  /** For the end of the range this is a matter of divisibility. */
  lemma BlocksFitExactlyWhen(cursor: nat, count: nat)
    requires count >= 1 && cursor < ALLOCATE_END && !TooMany(cursor, count)
    ensures AllWithin(cursor, count, ALLOCATE_END)
      <==> (ALLOCATE_END - cursor) % count == 0 || (ALLOCATE_END - cursor + 1) % count == 0
  {
    BlocksWithinExactlyWhen(cursor, count, ALLOCATE_END);
    LastStartIsLast(cursor, count);
  }

  /** The ports handed out exist, whatever is in use, exactly when the block at the last grid point does. */
  lemma PortsExistExactlyWhen(cursor: nat, count: nat)
    requires count >= 1
    ensures AllWithin(cursor, count, 65535)
      <==> cursor >= ALLOCATE_END || TooMany(cursor, count) || LastStart(cursor, count) <= 65535 + 1 - count
  {
    BlocksWithinExactlyWhen(cursor, count, 65535);
  }

  /** A multiple within a bound is at most the bound's quotient times. */
  lemma MultiplesWithin(j: nat, n: nat, g: nat)
    requires n >= 1 && j * n <= g
    ensures j * n <= (g / n) * n
  {
    var k := g / n;
    assert g == k * n + g % n;
    assert (j - k) * n == j * n - k * n;
    MulSign(j - k, n);
  }

  lemma NoLaterStart(cursor: nat, used: set<nat>, count: nat)
    requires count >= 1 && cursor < ALLOCATE_END && FirstFit(used, cursor, count).Some?
    ensures FirstFit(used, cursor, count).value <= LastStart(cursor, count)
  {
    FirstFitIsFirst(used, cursor, count);
    var s := FirstFit(used, cursor, count).value;
    var j: nat :| s == Grid(cursor, count, j) && IsFirst(used, cursor, count, j);
    MultiplesWithin(j, count, ALLOCATE_END - cursor - 1);
  }

  /** An instance where they do not: 11845 ports, in a fresh process with every
      port below 60998 in use. */
  lemma PortsBeyondTheLast(taken: nat)
    requires taken == Grid(FIRST_PORT, 11845, 1)
    ensures Allocate(FIRST_PORT, UpTo(taken), 11845) == Some(taken)
    ensures taken + 11845 - 1 > 65535
  {
    FillTo(FIRST_PORT, 11845, 1, UpTo(taken));
  }

  // ----- the allocator -----

  class Allocator {
    var allocateStart: nat

    constructor ()
      ensures allocateStart == FIRST_PORT == 49153
    {
      allocateStart := FIRST_PORT;
    }

    /** `portAllocate`: the first and last port of a block. A range of ports holds at least one. */
    method PortAllocate(used: set<nat>, count: nat) returns (r: Option<(nat, nat)>)
      requires count >= 1
      modifies this
      ensures r == match Allocate(old(allocateStart), used, count)
        case None => None
        case Some(s) => Some((s, s + count - 1))
      ensures allocateStart == if r.Some? then r.value.1 + 1 else old(allocateStart)
    {
      var start := allocateStart;
      if count > (ALLOCATE_END - allocateStart + 1) % TWO_64 { return None; }
      while start < ALLOCATE_END
        invariant FirstFit(used, start, count) == FirstFit(used, allocateStart, count)
        invariant allocateStart == old(allocateStart)
        decreases ALLOCATE_END - start
      {
        var needReturn := true;
        var i := start;
        while i < start + count
          invariant start <= i <= start + count
          invariant needReturn && forall p :: start <= p < i ==> p !in used
        {
          if i in used {
            needReturn := false;
            break;
          }
          i := i + 1;
        }
        if needReturn {
          allocateStart := start + count;
          return Some((start, start + count - 1));
        }
        start := start + count;
      }
      r := None;
    }
  }
}

/** The few operations of Go's `strings` package that the modelled code relies on, restricted to
    one-character separators, together with the laws relating them. A string is a sequence of
    characters; every separator in the modelled code is ASCII, so this agrees with Go's bytes. */
module Strings {

  datatype Option<+T> = None | Some(value: T) {
    function GetOr(default: T): T { if Some? then value else default }
  }

  /** `strings.Index` for a single character; -1 when absent. */
  function IndexOf(s: string, c: char): (i: int)
    ensures -1 <= i < |s|
  {
    if s == "" then -1
    else if s[0] == c then 0
    else
      var i := IndexOf(s[1..], c);
      if i < 0 then -1 else i + 1
  }

  lemma {:induction false} IndexOfFirst(s: string, c: char)
    ensures IndexOf(s, c) < 0 <==> c !in s
    ensures IndexOf(s, c) >= 0 ==> s[IndexOf(s, c)] == c && c !in s[..IndexOf(s, c)]
  {
    if s != "" && s[0] != c {
      IndexOfFirst(s[1..], c);
      var i := IndexOf(s[1..], c);
      assert s == [s[0]] + s[1..];
      if i >= 0 { assert s[..i + 1] == [s[0]] + s[1..][..i]; }
    }
  }

  /** `strings.LastIndex` for a single character; -1 when absent. */
  function LastIndexOf(s: string, c: char): (i: int)
    ensures -1 <= i < |s|
  {
    if s == "" then -1
    else if s[|s| - 1] == c then |s| - 1
    else LastIndexOf(s[..|s| - 1], c)
  }

  lemma {:induction false} LastIndexOfLast(s: string, c: char)
    ensures LastIndexOf(s, c) < 0 <==> c !in s
    ensures LastIndexOf(s, c) >= 0 ==> s[LastIndexOf(s, c)] == c && c !in s[LastIndexOf(s, c) + 1..]
  {
    if s != "" && s[|s| - 1] != c {
      var t, last := s[..|s| - 1], s[|s| - 1];
      LastIndexOfLast(t, c);
      var i := LastIndexOf(t, c);
      assert s == t + [last];
      assert s[i + 1..] == t[i + 1..] + [last];
    }
  }

  /** `strings.Split` with a one-character separator: always at least one piece. */
  function Split(s: string, c: char): (parts: seq<string>)
    ensures |parts| >= 1
    decreases |s|
  {
    var i := IndexOf(s, c);
    if i < 0 then [s] else [s[..i]] + Split(s[i + 1..], c)
  }

  lemma {:induction false} SplitPieces(s: string, c: char)
    ensures forall p :: p in Split(s, c) ==> c !in p
    decreases |s|
  {
    IndexOfFirst(s, c);
    var i := IndexOf(s, c);
    if i >= 0 { SplitPieces(s[i + 1..], c); }
  }

  /** `strings.Join` with a one-character separator. */
  function Join(parts: seq<string>, c: char): string {
    if |parts| == 0 then ""
    else if |parts| == 1 then parts[0]
    else parts[0] + [c] + Join(parts[1..], c)
  }

  /** The first occurrence of a separator is where a separator-free prefix ends. */
  lemma {:induction false} IndexAfterPrefix(a: string, c: char, b: string)
    requires c !in a
    ensures IndexOf(a + [c] + b, c) == |a|
  {
    if a != "" {
      assert (a + [c] + b)[1..] == a[1..] + [c] + b;
      IndexAfterPrefix(a[1..], c, b);
    }
  }

  /** The last occurrence of a separator is where a separator-free suffix begins. */
  lemma {:induction false} LastIndexBeforeSuffix(a: string, c: char, b: string)
    requires c !in b
    ensures LastIndexOf(a + [c] + b, c) == |a|
  {
    var s := a + [c] + b;
    if b != "" {
      assert s[..|s| - 1] == a + [c] + b[..|b| - 1];
      LastIndexBeforeSuffix(a, c, b[..|b| - 1]);
    }
  }

  /** A separator with none after it is the last one. */
  lemma LastIsUnique(a: string, c: char, b: string, r: nat)
    requires c !in b && r < |a + [c] + b|
    requires (a + [c] + b)[r] == c && c !in (a + [c] + b)[r + 1..]
    ensures r == |a|
  {
    var s := a + [c] + b;
    assert s[|a|] == c;
    assert forall i :: r < i < |s| ==> s[i] == s[r + 1..][i - r - 1];
    assert forall i :: |a| < i < |s| ==> s[i] == b[i - |a| - 1];
  }

  lemma SplitHead(a: string, c: char, b: string)
    requires c !in a
    ensures Split(a + [c] + b, c) == [a] + Split(b, c)
  {
    IndexAfterPrefix(a, c, b);
    var s := a + [c] + b;
    assert s[..|a|] == a;
    assert s[|a| + 1..] == b;
  }

  lemma SplitOne(a: string, c: char)
    requires c !in a
    ensures Split(a, c) == [a]
  {
    IndexOfFirst(a, c);
  }

  lemma Assoc<T>(a: seq<T>, b: seq<T>, c: seq<T>)
    ensures a + b + c == a + (b + c)
  {
  }

  lemma Regroup<T>(h: seq<T>, x: seq<T>, t: seq<T>, b: seq<T>)
    ensures h + x + t + x + b == h + x + (t + x + b)
  {
  }

  /** Splitting at the first separator. */
  lemma SplitFirst(s: string, c: char) returns (h: string, t: string)
    requires c in s
    ensures s == h + [c] + t && c !in h && Split(s, c) == [h] + Split(t, c)
  {
    IndexOfFirst(s, c);
    var i := IndexOf(s, c);
    h, t := s[..i], s[i + 1..];
  }

  /** Splitting a concatenation at a separator splits both sides. */
  lemma {:induction false} SplitAppend(a: string, c: char, b: string)
    ensures Split(a + [c] + b, c) == Split(a, c) + Split(b, c)
    decreases |a|
  {
    if c !in a {
      SplitHead(a, c, b);
      SplitOne(a, c);
    } else {
      var h, t := SplitFirst(a, c);
      var tb := t + [c] + b;
      SplitAppend(t, c, b);
      SplitHead(h, c, tb);
      Regroup(h, [c], t, b);
      Assoc([h], Split(t, c), Split(b, c));
    }
  }

  /** Splitting undoes joining when no piece holds the separator. */
  lemma {:induction false} SplitJoin(parts: seq<string>, c: char)
    requires |parts| >= 1
    requires forall p :: p in parts ==> c !in p
    ensures Split(Join(parts, c), c) == parts
  {
    if |parts| == 1 {
      SplitOne(parts[0], c);
    } else {
      SplitHead(parts[0], c, Join(parts[1..], c));
      SplitJoin(parts[1..], c);
    }
  }

  lemma JoinCons(head: string, parts: seq<string>, c: char)
    requires |parts| >= 1
    ensures Join([head] + parts, c) == head + [c] + Join(parts, c)
  {
    assert ([head] + parts)[1..] == parts;
  }

  /** Joining undoes splitting. */
  lemma {:induction false} JoinSplit(s: string, c: char)
    ensures Join(Split(s, c), c) == s
    decreases |s|
  {
    if c in s {
      var h, t := SplitFirst(s, c);
      JoinSplit(t, c);
      JoinCons(h, Split(t, c), c);
    } else {
      SplitOne(s, c);
    }
  }

  lemma {:induction false} JoinSnoc(parts: seq<string>, c: char, last: string)
    requires |parts| >= 1
    ensures Join(parts + [last], c) == Join(parts, c) + [c] + last
  {
    if |parts| == 1 {
      assert (parts + [last])[1..] == [last];
    } else {
      assert (parts + [last])[1..] == parts[1..] + [last];
      JoinSnoc(parts[1..], c, last);
    }
  }

  /** `strings.Cut`-style halves around the first separator. */
  function Before(s: string, c: char): string {
    var i := IndexOf(s, c);
    if i < 0 then s else s[..i]
  }

  function After(s: string, c: char): string {
    var i := IndexOf(s, c);
    if i < 0 then "" else s[i + 1..]
  }

  predicate HasPrefix(s: string, p: string) { p <= s }

  predicate HasSuffix(s: string, p: string) {
    |p| <= |s| && s[|s| - |p|..] == p
  }

  function TrimSuffix(s: string, p: string): string {
    if HasSuffix(s, p) then s[..|s| - |p|] else s
  }

  /** `strings.TrimRight` for a one-character cutset. */
  function TrimRight(s: string, c: char): string {
    if s != "" && s[|s| - 1] == c then TrimRight(s[..|s| - 1], c) else s
  }

  lemma {:induction false} TrimRightStops(s: string, c: char)
    ensures TrimRight(s, c) <= s
    ensures TrimRight(s, c) != "" ==> TrimRight(s, c)[|TrimRight(s, c)| - 1] != c
  {
    if s != "" && s[|s| - 1] == c { TrimRightStops(s[..|s| - 1], c); }
  }

  /** `strings.TrimLeft` for a one-character cutset. */
  function TrimLeft(s: string, c: char): string {
    if s != "" && s[0] == c then TrimLeft(s[1..], c) else s
  }

  predicate Digit(c: char) { '0' <= c <= '9' }

  /** `strings.ToLower`, for ASCII. */
  function Lower(s: string): string {
    seq(|s|, i requires 0 <= i < |s| => if 'A' <= s[i] <= 'Z' then s[i] - 'A' + 'a' else s[i])
  }

  /** Capitals become small letters, from the first to the last, and nothing else changes. */
  lemma LowerText()
    ensures Lower("AZ@[az") == "az@[az"
  {
    assert 'A' as int - 1 == '@' as int && 'Z' as int + 1 == '[' as int;
  }

  /** The halves around the first separator are recovered. */
  lemma CutAt(a: string, c: char, b: string)
    requires c !in a
    ensures c in a + [c] + b && Before(a + [c] + b, c) == a && After(a + [c] + b, c) == b
  {
    IndexAfterPrefix(a, c, b);
    assert (a + [c] + b)[|a|] == c;
    assert (a + [c] + b)[|a| + 1..] == b;
  }

  /** The elements that are not empty, in order. */
  function NonEmpty(parts: seq<string>): seq<string> {
    if parts == [] then []
    else (if parts[0] == "" then [] else [parts[0]]) + NonEmpty(parts[1..])
  }

  lemma {:induction false} NonEmptyPieces(parts: seq<string>)
    ensures forall p :: p in NonEmpty(parts) ==> p in parts && p != ""
  {
    if parts != [] { NonEmptyPieces(parts[1..]); }
  }

  lemma {:induction false} NonEmptyAppend(a: seq<string>, b: seq<string>)
    ensures NonEmpty(a + b) == NonEmpty(a) + NonEmpty(b)
  {
    if a == [] {
      assert a + b == b;
    } else {
      assert (a + b)[1..] == a[1..] + b;
      NonEmptyAppend(a[1..], b);
    }
  }

  lemma {:induction false} NonEmptyId(a: seq<string>)
    requires "" !in a
    ensures NonEmpty(a) == a
  {
    if a != [] {
      assert a == [a[0]] + a[1..];
      NonEmptyId(a[1..]);
    }
  }
}

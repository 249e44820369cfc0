/** Delivery of a finished task's callback: bounded attempts, a wait between them that grows with the
    square of their number, and retries asked for by clients, which may overlap with a running chain. */
module Callback {
  import opened Strings

  /** `attempts` and `success` of the source's callback status. */
  datatype Status = Status(attempts: nat, success: bool)

  /** The configured maximum; three when none is given. */
  function Limit(configured: int): (m: nat) {
    if configured <= 0 then 3 else configured
  }

  /** Seconds until the next attempt, after `attempts` of them. */
  function Delay(configured: int, attempts: nat): (d: nat) {
    if configured <= 0 then attempts * attempts else configured
  }

  /** A call is refused once the attempts are used up without success. */
  predicate Exhausted(s: Status, m: nat) { s.attempts >= m && !s.success }

  // ----- one chain on its own -----

  /** The number of the last attempt of a chain that starts after `a` attempts; `result(k)` is whether
      attempt `k` succeeds. */
  ghost function LastAttempt(result: nat -> bool, a: nat, m: nat): (last: nat)
    requires a < m
    ensures a < last <= m
    decreases m - a
  {
    if result(a + 1) || a + 1 == m then a + 1 else LastAttempt(result, a + 1, m)
  }

  /** Seconds waited between the attempts numbered `a + 1` to `b`. */
  ghost function Waits(configured: int, a: nat, b: nat): nat
    requires a < b
    decreases b - a
  {
    if a + 1 == b then 0 else Delay(configured, a + 1) + Waits(configured, a + 1, b)
  }

  /** A chain ends with the first success, or else exactly at the maximum. */
  lemma {:induction false} LastIsFirstSuccess(result: nat -> bool, a: nat, m: nat)
    requires a < m
    ensures var last := LastAttempt(result, a, m);
      && (forall k: nat :: a < k < last ==> !result(k))
      && (last < m ==> result(last))
    decreases m - a
  {
    if !(result(a + 1) || a + 1 == m) {
      LastIsFirstSuccess(result, a + 1, m);
    }
  }

  ghost function Squares(n: nat): nat { if n == 0 then 0 else Squares(n - 1) + n * n }

  lemma {:induction false} SquaresClosed(n: nat)
    ensures 6 * Squares(n) == n * (n + 1) * (2 * n + 1)
  {
    if n > 0 {
      SquaresClosed(n - 1);
      SquaresStep(n, n * n);
    }
  }

  lemma SquaresStep(n: int, square: int)
    requires square == n * n
    ensures n * (n + 1) * (2 * n + 1) == (n - 1) * n * (2 * n - 1) + 6 * square
  {
    assert n * (n + 1) == square + n && (n - 1) * n == square - n;
    Expand(square, n);
    Expand(square, -n);
  }

  lemma Expand(square: int, n: int)
    ensures (square + n) * (2 * n + 1) == 2 * square * n + square + 2 * (n * n) + n
  {
  }

  lemma {:induction false} SquaresGrow(n: nat, k: nat)
    requires n <= k
    ensures Squares(n) <= Squares(k)
  {
    if n < k { SquaresGrow(n, k - 1); }
  }

  /** Without a configured delay the waits between the attempts numbered `a + 1` to `b` add up to the
      squares of `a + 1` to `b - 1`; with one, each wait is that delay. */
  lemma {:induction false} WaitsSum(configured: int, a: nat, b: nat)
    requires a < b
    ensures configured <= 0 ==> Waits(configured, a, b) == Squares(b - 1) - Squares(a)
    ensures configured > 0 ==> Waits(configured, a, b) == configured * (b - 1 - a)
    decreases b - a
  {
    if a + 1 < b {
      WaitsSum(configured, a + 1, b);
      if configured > 0 { assert configured * (b - 1 - a) == configured + configured * (b - 2 - a); }
    }
  }

  /** What a chain started after `a` attempts below the maximum `m` costs at most: `m - a` sends, and
      in backoff mode a total wait of the squares of `a + 1` to `m - 1`, here in closed form. */
  lemma ChainBounds(result: nat -> bool, configured: int, a: nat, m: nat)
    requires a < m
    ensures var last := LastAttempt(result, a, m); last - a <= m - a && a < last
    ensures var last := LastAttempt(result, a, m);
      configured <= 0 ==> 6 * Waits(configured, a, last) <= (m - 1) * m * (2 * m - 1) - a * (a + 1) * (2 * a + 1)
    ensures var last := LastAttempt(result, a, m);
      configured > 0 ==> Waits(configured, a, last) <= configured * (m - 1 - a)
  {
    LastIsFirstSuccess(result, a, m);
    var last := LastAttempt(result, a, m);
    WaitsSum(configured, a, last);
    SquaresGrow(last - 1, m - 1);
    SquaresClosed(m - 1);
    SquaresClosed(a);
    if configured > 0 { Scaled(configured, last - 1 - a, m - 1 - a); }
  }

  lemma Scaled(c: nat, x: nat, y: nat)
    requires x <= y
    ensures c * x <= c * y
  {
  }

  /** The policy that is used when none is given: at most three sends, and at most five seconds of waiting,
      one and then four. */
  lemma DefaultPolicy(result: nat -> bool, maxAttempts: int, delaySeconds: int)
    requires maxAttempts <= 0 && delaySeconds <= 0
    ensures var last := LastAttempt(result, 0, Limit(maxAttempts));
      && last <= 3 && Waits(delaySeconds, 0, last) <= 5
      && (last == 3 <==> !result(1) && !result(2))
      && (last == 3 ==> Waits(delaySeconds, 0, last) == 5)
      && (last == 2 ==> Waits(delaySeconds, 0, last) == 1)
  {
    var m := Limit(maxAttempts);
    var last := LastAttempt(result, 0, m);
    LastIsFirstSuccess(result, 0, m);
    WaitsSum(delaySeconds, 0, last);
    assert Squares(0) == 0 && Squares(1) == 1 && Squares(2) == 5;
  }

  // ----- several chains at once -----

  /** Calls of `sendCallback` that have yet to start, those whose request is under way, and the sends
      made so far. The request is not atomic: others may start and end while it runs. */
  datatype Traffic = Traffic(status: Status, waiting: nat, sending: nat, sends: nat)

  /** A client's retry launches a call; a forced one first resets the count and the result. */
  datatype Event = Launch | Force | Start | Done(ok: bool)

  predicate Enabled(t: Traffic, e: Event) {
    match e
    case Launch => true
    case Force => true
    case Start => t.waiting > 0
    case Done(_) => t.sending > 0
  }

  function Step(t: Traffic, m: nat, e: Event): Traffic
    requires Enabled(t, e)
  {
    match e
    case Launch => t.(waiting := t.waiting + 1)
    case Force => t.(status := Status(0, false), waiting := t.waiting + 1)
    case Start =>
      if Exhausted(t.status, m) then t.(waiting := t.waiting - 1)
      else Traffic(t.status.(attempts := t.status.attempts + 1), t.waiting - 1, t.sending + 1, t.sends + 1)
    case Done(ok) =>
      Traffic(t.status.(success := ok),
              if !ok && t.status.attempts < m then t.waiting + 1 else t.waiting,
              t.sending - 1, t.sends)
  }

  predicate Feasible(t: Traffic, m: nat, events: seq<Event>)
    decreases |events|
  {
    events == [] || (Enabled(t, events[0]) && Feasible(Step(t, m, events[0]), m, events[1..]))
  }

  function Run(t: Traffic, m: nat, events: seq<Event>): Traffic
    requires Feasible(t, m, events)
    decreases |events|
  {
    if events == [] then t else Run(Step(t, m, events[0]), m, events[1..])
  }

  /** The sends that calls already made can still lead to. */
  function Budget(t: Traffic, m: nat): nat {
    if t.status.attempts >= m then t.waiting
    else if t.waiting + t.sending == 0 then 0
    else m - t.status.attempts + t.waiting + t.sending - 1
  }

  /** What an event of the clients adds. A launch adds itself alone, except that the first call below the
      maximum opens all the attempts that are left; a forced one gives back those already made. */
  function Opens(t: Traffic, m: nat, e: Event): nat {
    match e
    case Launch => if t.status.attempts < m && t.waiting + t.sending == 0 then m - t.status.attempts else 1
    case Force =>
      if m == 0 then 1
      else if t.waiting + t.sending == 0 then m
      else if t.status.attempts >= m then m + t.sending
      else t.status.attempts + 1
    case _ => 0
  }

  /** What the clients' events of a run add in all. */
  function Grants(t: Traffic, m: nat, events: seq<Event>): nat
    requires Feasible(t, m, events)
    decreases |events|
  {
    if events == [] then 0 else Opens(t, m, events[0]) + Grants(Step(t, m, events[0]), m, events[1..])
  }

  lemma StepBudget(t: Traffic, m: nat, e: Event)
    requires Enabled(t, e)
    ensures var u := Step(t, m, e); u.sends + Budget(u, m) <= t.sends + Budget(t, m) + Opens(t, m, e)
  {
  }

  /** However the requests of several chains interleave, and whenever clients ask for more, they make no
      more sends than the budget: for one chain below the maximum the attempts that are left, and one
      more for every further chain. */
  lemma {:induction false} SendsWithinBudget(t: Traffic, m: nat, events: seq<Event>)
    requires Feasible(t, m, events)
    ensures var u := Run(t, m, events); u.sends + Budget(u, m) <= t.sends + Budget(t, m) + Grants(t, m, events)
    decreases |events|
  {
    if events != [] {
      StepBudget(t, m, events[0]);
      SendsWithinBudget(Step(t, m, events[0]), m, events[1..]);
    }
  }

  /** A call that is still due, a success, or all the attempts used. */
  predicate Settling(t: Traffic, m: nat) {
    t.waiting + t.sending > 0 || t.status.success || t.status.attempts >= m
  }

  /** Once every call has ended, the last send succeeded or the attempts are used up, in any
      interleaving; and as long as nobody forces a retry `attempts` counts the sends. */
  lemma {:induction false} EndsDeliveredOrExhausted(t: Traffic, m: nat, events: seq<Event>)
    requires Feasible(t, m, events) && Settling(t, m)
    ensures var u := Run(t, m, events);
      && Settling(u, m)
      && (Force !in events ==> u.status.attempts - t.status.attempts == u.sends - t.sends)
    decreases |events|
  {
    if events != [] {
      EndsDeliveredOrExhausted(Step(t, m, events[0]), m, events[1..]);
    }
  }

  /** The bound is met, and overlapping chains can pass the maximum: of two calls at the last attempt
      both send when the first succeeds before the second starts. */
  lemma OverlapOvershoots(m: nat)
    requires m > 0
    ensures var t := Traffic(Status(m - 1, false), 2, 0, 0);
      && Feasible(t, m, [Start, Done(true), Start])
      && Run(t, m, [Start, Done(true), Start]).status.attempts == m + 1
      && Budget(t, m) == 2
  {
    var t := Traffic(Status(m - 1, false), 2, 0, 0);
    var t1 := Step(t, m, Start);
    var t2 := Step(t1, m, Done(true));
    var t3 := Step(t2, m, Start);
    assert Feasible(t3, m, []) && Run(t3, m, []) == t3;
    assert [Start][1..] == [] && [Done(true), Start][1..] == [Start];
    assert [Start, Done(true), Start][1..] == [Done(true), Start];
    assert Feasible(t2, m, [Start]) && Run(t2, m, [Start]) == t3;
    assert Feasible(t1, m, [Done(true), Start]) && Run(t1, m, [Done(true), Start]) == t3;
  }

  /** A single call with no success can use up exactly the attempts that are left. */
  lemma {:induction false} AllAttemptsUsed(t: Traffic, m: nat) returns (events: seq<Event>)
    requires t.waiting == 1 && t.sending == 0 && !t.status.success && t.status.attempts <= m
    ensures Feasible(t, m, events) && Run(t, m, events).sends == t.sends + m - t.status.attempts
    decreases m - t.status.attempts
  {
    if t.status.attempts == m { return []; }
    var t1 := Step(t, m, Start);
    if t.status.attempts + 1 == m {
      events := [Start];
      assert Feasible(t1, m, []) && events[1..] == [];
    } else {
      var rest := AllAttemptsUsed(Step(t1, m, Done(false)), m);
      events := [Start] + ([Done(false)] + rest);
      assert ([Done(false)] + rest)[1..] == rest && events[1..] == [Done(false)] + rest;
      assert Feasible(t1, m, [Done(false)] + rest);
    }
  }

  /** A forced retry starts over: with no other call open as many sends as the maximum are possible after
      it, and no more, whatever was sent before. */
  lemma ForcedStartsOver(t: Traffic, m: nat)
    requires t.waiting == 0 && t.sending == 0
    ensures Opens(t, m, Force) == (if m == 0 then 1 else m) && Budget(t, m) == 0
    ensures var u := Step(t, m, Force);
      exists events :: Feasible(u, m, events) && Run(u, m, events).sends == t.sends + m
  {
    var events := AllAttemptsUsed(Step(t, m, Force), m);
    assert Feasible(Step(t, m, Force), m, events);
  }

  /** A call launched with none other open can still use up the attempts that are left. */
  lemma LaunchedCanFinish(t: Traffic, m: nat)
    requires t.waiting == 0 && t.sending == 0 && !t.status.success && t.status.attempts <= m
    ensures var u := Step(t, m, Launch);
      exists events :: Feasible(u, m, events) && Run(u, m, events).sends == t.sends + m - t.status.attempts
  {
    var events := AllAttemptsUsed(Step(t, m, Launch), m);
    assert Feasible(Step(t, m, Launch), m, events);
  }

  // ----- when the maximum is passed -----

  /** No client asks for anything more. */
  predicate Undisturbed(events: seq<Event>) { Launch !in events && Force !in events }

  /** The attempts are past the maximum, or calls already made can bring them there. */
  predicate CanPass(t: Traffic, m: nat) {
    || t.status.attempts > m
    || (t.status.attempts == m && t.waiting > 0 && (t.status.success || t.sending > 0))
    || (t.status.attempts < m && t.waiting + t.sending >= 2)
  }

  /** How many events the calls already made can lead to at most. */
  function Horizon(t: Traffic, m: nat): nat {
    if t.status.attempts >= m then 2 * t.waiting + t.sending
    else 2 * t.waiting + 3 * t.sending + 2 * (m - t.status.attempts)
  }

  /** Without further requests every interleaving ends: there are at most so many events, and while a call
      is open another one can follow. */
  lemma {:induction false} ChainsEnd(t: Traffic, m: nat, events: seq<Event>)
    requires Feasible(t, m, events) && Undisturbed(events)
    ensures var u := Run(t, m, events);
      |events| + Horizon(u, m) <= Horizon(t, m)
    ensures var u := Run(t, m, events);
      u.waiting + u.sending > 0 ==> Enabled(u, Start) || Enabled(u, Done(true))
    decreases |events|
  {
    if events != [] {
      assert events == [events[0]] + events[1..];
      ChainsEnd(Step(t, m, events[0]), m, events[1..]);
    }
  }

  lemma {:induction false} OnlyIfCanPass(t: Traffic, m: nat, events: seq<Event>)
    requires Feasible(t, m, events) && Undisturbed(events) && Run(t, m, events).status.attempts > m
    ensures CanPass(t, m)
    decreases |events|
  {
    if events != [] {
      assert events == [events[0]] + events[1..];
      OnlyIfCanPass(Step(t, m, events[0]), m, events[1..]);
    }
  }

  lemma RunCons(t: Traffic, m: nat, e: Event, rest: seq<Event>)
    requires Enabled(t, e) && Feasible(Step(t, m, e), m, rest)
    ensures Feasible(t, m, [e] + rest) && Run(t, m, [e] + rest) == Run(Step(t, m, e), m, rest)
    ensures Undisturbed(rest) && !e.Launch? && !e.Force? ==> Undisturbed([e] + rest)
  {
    assert ([e] + rest)[1..] == rest;
  }

  /** The next event on the way past the maximum: with one call waiting another one is waited for. */
  function Passing(t: Traffic, m: nat): Event {
    if t.status.attempts == m then if t.status.success then Start else Done(true)
    else if t.waiting >= 2 then Start
    else Done(false)
  }

  lemma {:induction false} Passes(t: Traffic, m: nat) returns (events: seq<Event>)
    requires CanPass(t, m)
    ensures Feasible(t, m, events) && Undisturbed(events) && Run(t, m, events).status.attempts > m
    decreases if t.status.attempts <= m then m + 1 - t.status.attempts else 0, t.sending
  {
    if t.status.attempts > m { return []; }
    var e := Passing(t, m);
    var rest := Passes(Step(t, m, e), m);
    RunCons(t, m, e, rest);
    events := [e] + rest;
  }

  /** Without further requests from clients the attempts can pass the maximum exactly when two calls are
      open below it, or one waits at it beside a success or a request under way: a single chain never
      does. */
  lemma PassesExactlyWhen(t: Traffic, m: nat)
    ensures (exists events ::
              Feasible(t, m, events) && Undisturbed(events) && Run(t, m, events).status.attempts > m)
      <==> CanPass(t, m)
  {
    if events :| Feasible(t, m, events) && Undisturbed(events) && Run(t, m, events).status.attempts > m {
      OnlyIfCanPass(t, m, events);
    }
    if CanPass(t, m) {
      var events := Passes(t, m);
      assert Feasible(t, m, events) && Undisturbed(events) && Run(t, m, events).status.attempts > m;
    }
  }

  // ----- a finished job -----

  datatype Config = Config(url: string, maxAttempts: int, delaySeconds: int)

  datatype Reply = NoSuchTask | NotCompleted | Initiated(retryCount: nat)

  class Task {
    const callback: Option<Config>
    var status: Option<Status>
    /** Sends made and seconds waited over its life. */
    ghost var sends: nat
    ghost var waited: nat

    constructor (callback: Option<Config>)
      ensures this.callback == callback && status == None && sends == 0 && waited == 0
    {
      this.callback, status, sends, waited := callback, None, 0, 0;
    }

    predicate Configured() { callback.Some? && callback.value.url != "" }

    /** A missing status counts as no attempts and no success. */
    function Current(): Status
      reads this
    {
      if status.Some? then status.value else Status(0, false)
    }

    /** The beginning of `sendCallback`: whether a request is to be sent. */
    method Open() returns (send: bool)
      modifies this`status, this`sends
      ensures send <==>
        && callback.Some? && callback.value.url != ""
        && (old(Current()).success
            || old(Current()).attempts < if callback.value.maxAttempts <= 0 then 3 else callback.value.maxAttempts)
      ensures !Configured() ==> status == old(status)
      ensures Configured() ==> status == Some(if send then Status(old(Current()).attempts + 1, old(Current()).success)
                                              else old(Current()))
      ensures sends == old(sends) + if send then 1 else 0
    {
      if callback.None? || callback.value.url == "" { return false; }
      if status.None? { status := Some(Status(0, false)); }
      var max := callback.value.maxAttempts;
      if max <= 0 { max := 3; }
      if status.value.attempts >= max && !status.value.success { return false; }
      status := Some(status.value.(attempts := status.value.attempts + 1));
      sends := sends + 1;
      send := true;
    }

    /** The rest of it, once the request has come back: the delay after which it calls itself again. */
    method Close(ok: bool) returns (retry: Option<nat>)
      requires Configured() && status.Some?
      modifies this`status
      ensures status == Some(Status(old(Current()).attempts, ok))
      ensures retry.Some? <==>
        !ok && Current().attempts < if callback.value.maxAttempts <= 0 then 3 else callback.value.maxAttempts
      ensures retry.Some? && callback.value.delaySeconds <= 0 ==> retry.value == Current().attempts * Current().attempts
      ensures retry.Some? && callback.value.delaySeconds > 0 ==> retry.value == callback.value.delaySeconds
    {
      var max := callback.value.maxAttempts;
      if max <= 0 { max := 3; }
      status := Some(status.value.(success := ok));
      if !ok && status.value.attempts < max {
        var delay := callback.value.delaySeconds;
        if delay <= 0 { delay := status.value.attempts * status.value.attempts; }
        retry := Some(delay);
      } else {
        retry := None;
      }
    }

    /** One call of `sendCallback` that sends. */
    method Attempt(result: nat -> bool) returns (retry: Option<nat>)
      requires Configured() && !Exhausted(Current(), Limit(callback.value.maxAttempts))
      modifies this`status, this`sends
      ensures var k := old(Current()).attempts + 1;
        && status == Some(Status(k, result(k))) && sends == old(sends) + 1
        && retry == Due(callback.value, k, result(k))
    {
      var send := Open();
      retry := Close(result(status.value.attempts));
    }

    /** The retries of a chain after its attempt `start`. */
    method Retries(result: nat -> bool, ghost a: nat, start: nat, first: Option<nat>)
      requires Configured() && status == Some(Status(start, result(start)))
      requires first == Due(callback.value, start, result(start))
      requires Reached(result, callback.value, a, start, 0)
      modifies this
      ensures status.Some? && status.value.success == result(status.value.attempts) && waited >= old(waited)
      ensures sends - old(sends) == status.value.attempts - start
      ensures Ended(result, callback.value, a, status.value.attempts, waited - old(waited))
    {
      var retry, k := first, start;
      while retry.Some?
        invariant status == Some(Status(k, result(k))) && sends - old(sends) == k - start
        invariant retry == Due(callback.value, k, result(k)) && waited >= old(waited)
        invariant Reached(result, callback.value, a, k, waited - old(waited))
        decreases if k < Limit(callback.value.maxAttempts) then Limit(callback.value.maxAttempts) - k else 0
      {
        ReachedNext(result, callback.value, a, k, waited - old(waited));
        waited := waited + retry.value;
        retry := Attempt(result);
        k := k + 1;
      }
      ReachedEnd(result, callback.value, a, k, waited - old(waited));
    }

    /** A whole chain, not disturbed by others: below the maximum it makes the attempts up to the first
        success or the maximum; at the maximum it sends nothing, or exactly once if the attempt before
        it had succeeded. */
    method Chain(result: nat -> bool)
      requires Configured()
      modifies this
      ensures var a, m := old(Current()).attempts, Limit(callback.value.maxAttempts);
        a < m ==> var last := LastAttempt(result, a, m);
          && status == Some(Status(last, result(last))) && sends == old(sends) + last - a
          && waited == old(waited) + Waits(callback.value.delaySeconds, a, last)
      ensures var a, m := old(Current()).attempts, Limit(callback.value.maxAttempts);
        a >= m ==>
          && waited == old(waited)
          && (old(Current()).success ==> status == Some(Status(a + 1, result(a + 1))) && sends == old(sends) + 1)
          && (!old(Current()).success ==> status == Some(old(Current())) && sends == old(sends))
    {
      ghost var a := Current().attempts;
      if Exhausted(Current(), Limit(callback.value.maxAttempts)) {
        var send := Open();
        return;
      }
      var retry := Attempt(result);
      Retries(result, a, status.value.attempts, retry);
    }

    /** What `RetryCallback` does to a stored task: `None` is the crash on a status that was never set. */
    method Retry(completed: bool, force: bool) returns (r: Option<Reply>)
      modifies this`status
      ensures !completed ==> r == Some(NotCompleted) && status == old(status)
      ensures completed ==> (r.None? <==> old(status).None?)
      ensures r.None? ==> status == old(status)
      ensures completed && r.Some? ==>
        && status == Some(if force then Status(0, false) else old(Current()))
        && r == Some(Initiated(Current().attempts))
    {
      if !completed { return Some(NotCompleted); }
      if status.None? { return None; }
      if force { status := Some(Status(0, false)); }
      r := Some(Initiated(status.value.attempts));
    }
  }

  /** `RetryCallback`: an unknown task, one that has not ended, one whose status was never set (the crash),
      or the retry. */
  method RetryCallback(tasks: map<string, Task>, id: string, completed: bool, force: bool) returns (r: Option<Reply>)
    modifies if id in tasks then {tasks[id]} else {}
    ensures r == Some(NoSuchTask) <==> id !in tasks
    ensures r == Some(NotCompleted) <==> id in tasks && !completed
    ensures r == None <==> id in tasks && completed && old(tasks[id].status).None?
    ensures r.Some? && r.value.Initiated? ==>
      && tasks[id].status == Some(if force then Status(0, false) else old(tasks[id].Current()))
      && r.value.retryCount == tasks[id].Current().attempts
    ensures id in tasks && !(r.Some? && r.value.Initiated?) ==> tasks[id].status == old(tasks[id].status)
    ensures id in tasks ==> tasks[id].sends == old(tasks[id].sends) && tasks[id].waited == old(tasks[id].waited)
  {
    if id !in tasks { return Some(NoSuchTask); }
    r := tasks[id].Retry(completed, force);
  }

  /** The delay after attempt `k`, if there is to be another one. */
  function Due(c: Config, k: nat, ok: bool): Option<nat> {
    if !ok && k < Limit(c.maxAttempts) then Some(Delay(c.delaySeconds, k)) else None
  }

  /** Attempt `k` has been made, none before it has ended the chain, and so many seconds have been spent
      waiting; at the maximum only one attempt is made. */
  ghost predicate Reached(result: nat -> bool, c: Config, a: nat, k: nat, spent: nat) {
    var m := Limit(c.maxAttempts);
    if a < m then
      && a < k <= m && LastAttempt(result, a, m) == LastAttempt(result, k - 1, m)
      && spent == Waits(c.delaySeconds, a, k)
    else k == a + 1 && spent == 0
  }

  ghost predicate Ended(result: nat -> bool, c: Config, a: nat, k: nat, spent: nat) {
    var m := Limit(c.maxAttempts);
    if a < m then k == LastAttempt(result, a, m) && spent == Waits(c.delaySeconds, a, k) else k == a + 1 && spent == 0
  }

  lemma ReachedNext(result: nat -> bool, c: Config, a: nat, k: nat, spent: nat)
    requires Reached(result, c, a, k, spent) && !result(k) && k < Limit(c.maxAttempts)
    ensures Reached(result, c, a, k + 1, spent + Delay(c.delaySeconds, k))
  {
    WaitsSnoc(c.delaySeconds, a, k);
  }

  lemma ReachedEnd(result: nat -> bool, c: Config, a: nat, k: nat, spent: nat)
    requires Reached(result, c, a, k, spent) && Due(c, k, result(k)).None?
    ensures Ended(result, c, a, k, spent)
  {
  }

  lemma {:induction false} WaitsSnoc(configured: int, a: nat, k: nat)
    requires a < k
    ensures Waits(configured, a, k + 1) == Waits(configured, a, k) + Delay(configured, k)
    decreases k - a
  {
    if a + 1 < k { WaitsSnoc(configured, a + 1, k); }
  }
}

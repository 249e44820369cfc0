/** The asynchronous commit service: tasks are stored, queued in a bounded channel and executed by a
    fixed number of workers, while clients cancel them. Submissions are serialised, and each step
    below is atomic; the channel receive and the write of the running status are separate steps. */
module TaskPool {
  import S = Strings

  const WORKERS: nat := 5
  const QUEUE_SIZE: nat := 100

  datatype Status = Pending | Running | Success | Failed | Cancelled

  datatype Worker = Idle | Holding(id: string) | Executing(id: string)

  /** The service's state, with the history of what was dropped, finished, accepted and taken. */
  datatype Pool = Pool(
    tasks: map<string, Status>,
    queue: seq<string>,
    workers: seq<Worker>,
    started: bool,
    dropped: set<string>,
    finished: set<string>,
    accepted: seq<string>,
    taken: seq<string>)

  datatype Event =
    | Submit(id: string, container: string, target: string)
    | Receive(worker: nat)
    | Begin(worker: nat)
    | Finish(worker: nat, ok: bool)
    | Cancel(id: string)

  function Empty(): Pool {
    Pool(map[], [], seq(WORKERS, _ => Idle), false, {}, {}, [], [])
  }

  /** Generated task IDs are new; a worker takes part in a step only in the right state. */
  predicate Enabled(p: Pool, e: Event) {
    match e
    case Submit(id, _, _) => id !in p.tasks
    case Receive(w) => p.started && w < |p.workers| && p.workers[w].Idle? && p.queue != []
    case Begin(w) => w < |p.workers| && p.workers[w].Holding?
    case Finish(w, _) => w < |p.workers| && p.workers[w].Executing?
    case Cancel(_) => true
  }

  predicate Cancellable(p: Pool, id: string) {
    id in p.tasks && (p.tasks[id] == Pending || p.tasks[id] == Running)
  }

  function Step(p: Pool, e: Event): Pool
    requires Enabled(p, e)
  {
    match e
    case Submit(id, container, target) =>
      if container == "" || target == "" then p
      else if |p.queue| < QUEUE_SIZE then
        p.(tasks := p.tasks[id := Pending], started := true, queue := p.queue + [id], accepted := p.accepted + [id])
      else p.(tasks := p.tasks[id := Pending], started := true, dropped := p.dropped + {id})
    case Receive(w) =>
      p.(queue := p.queue[1..], workers := p.workers[w := Holding(p.queue[0])], taken := p.taken + [p.queue[0]])
    case Begin(w) =>
      var id := p.workers[w].id;
      p.(tasks := p.tasks[id := Running], workers := p.workers[w := Executing(id)])
    case Finish(w, ok) =>
      var id := p.workers[w].id;
      p.(tasks := p.tasks[id := if ok then Success else Failed], workers := p.workers[w := Idle],
         finished := p.finished + {id})
    case Cancel(id) =>
      if Cancellable(p, id) then p.(tasks := p.tasks[id := Cancelled]) else p
  }

  predicate Feasible(p: Pool, events: seq<Event>)
    decreases |events|, 0
  {
    events == []
    || (Feasible(p, events[..|events| - 1]) && Enabled(Run(p, events[..|events| - 1]), events[|events| - 1]))
  }

  function Run(p: Pool, events: seq<Event>): Pool
    requires Feasible(p, events)
    decreases |events|, 1
  {
    if events == [] then p else Step(Run(p, events[..|events| - 1]), events[|events| - 1])
  }

  // ----- the invariant -----

  predicate Distinct<T(==)>(s: seq<T>) { forall i, j :: 0 <= i < j < |s| ==> s[i] != s[j] }

  predicate Holds(p: Pool, w: nat, id: string) {
    w < |p.workers| && !p.workers[w].Idle? && p.workers[w].id == id
  }

  predicate Queued(p: Pool, id: string) { id in p.queue }

  ghost predicate InHand(p: Pool, id: string) { exists w: nat :: Holds(p, w, id) }

  /** Bounds, and first in, first out. */
  predicate Shaped(p: Pool) {
    && |p.workers| == WORKERS && |p.queue| <= QUEUE_SIZE
    && (p.tasks != map[] ==> p.started)
    && p.accepted == p.taken + p.queue
    && Distinct(p.accepted)
  }

  /** A task has been taken exactly when a worker has it in hand or has finished it. */
  ghost predicate Placed(p: Pool) {
    && (forall id :: id in p.tasks <==> id in p.accepted || id in p.dropped)
    && (forall id :: id in p.accepted ==> id !in p.dropped)
    && (forall id :: id in p.taken <==> InHand(p, id) || id in p.finished)
    && (forall id :: InHand(p, id) ==> id !in p.finished)
    && (forall v: nat, w: nat, id :: Holds(p, v, id) && Holds(p, w, id) ==> v == w)
  }

  predicate HeldStatus(p: Pool, w: nat, id: string)
    requires Holds(p, w, id)
  {
    && id in p.tasks
    && (p.tasks[id] == Cancelled || p.tasks[id] == if p.workers[w].Holding? then Pending else Running)
  }

  /** What a task's place says about its status. */
  ghost predicate Statused(p: Pool) {
    && (forall id :: id in p.finished ==> id in p.tasks && (p.tasks[id] == Success || p.tasks[id] == Failed))
    && (forall id :: id in p.queue || id in p.dropped ==>
          id in p.tasks && (p.tasks[id] == Pending || p.tasks[id] == Cancelled))
    && (forall w: nat, id :: Holds(p, w, id) ==> HeldStatus(p, w, id))
  }

  ghost predicate Inv(p: Pool) { Shaped(p) && Placed(p) && Statused(p) }

  lemma EmptyInv()
    ensures Inv(Empty())
  {
  }

  lemma DistinctAppend(s: seq<string>, id: string)
    requires Distinct(s) && id !in s
    ensures Distinct(s + [id])
  {
  }

  lemma SubmitShaped(p: Pool, id: string, container: string, target: string)
    requires Inv(p) && id !in p.tasks
    ensures Shaped(Step(p, Submit(id, container, target)))
  {
    assert id !in p.accepted;
    DistinctAppend(p.accepted, id);
    S.Assoc(p.taken, p.queue, [id]);
  }

  lemma SubmitPlaced(p: Pool, id: string, container: string, target: string)
    requires Placed(p) && id !in p.tasks
    ensures Placed(Step(p, Submit(id, container, target)))
  {
    var q := Step(p, Submit(id, container, target));
    forall w: nat, i ensures Holds(q, w, i) <==> Holds(p, w, i) { }
    forall i ensures InHand(q, i) <==> InHand(p, i) { SameHands(p, q, i); }
  }

  lemma SubmitStatused(p: Pool, id: string, container: string, target: string)
    requires Statused(p) && id !in p.tasks
    ensures Statused(Step(p, Submit(id, container, target)))
  {
    var q := Step(p, Submit(id, container, target));
    forall w: nat, i | Holds(q, w, i) ensures HeldStatus(q, w, i) { assert Holds(p, w, i); }
  }

  lemma SameHands(p: Pool, q: Pool, id: string)
    requires p.workers == q.workers
    ensures InHand(q, id) <==> InHand(p, id)
  {
    if w: nat :| Holds(p, w, id) { assert Holds(q, w, id); }
    if w: nat :| Holds(q, w, id) { assert Holds(p, w, id); }
  }

  lemma ReceiveInv(p: Pool, w: nat)
    requires Inv(p) && Enabled(p, Receive(w))
    ensures Inv(Step(p, Receive(w)))
  {
    var q, id := Step(p, Receive(w)), p.queue[0];
    assert p.queue == [id] + q.queue;
    S.Assoc(p.taken, [id], q.queue);
    assert p.accepted[|p.taken|] == id;
    assert id !in p.taken by {
      forall i | 0 <= i < |p.taken| ensures p.taken[i] != id { assert p.accepted[i] == p.taken[i]; }
    }
    forall v: nat, i ensures Holds(q, v, i) <==> if v == w then i == id else Holds(p, v, i) { }
    forall i ensures InHand(q, i) <==> InHand(p, i) || i == id {
      if v: nat :| Holds(p, v, i) { assert Holds(q, v, i); }
      if v: nat :| Holds(q, v, i) { assert v != w ==> Holds(p, v, i); }
      assert Holds(q, w, id);
    }
    assert !InHand(p, id) && id !in p.finished;
    assert id in p.accepted;
  }

  lemma BeginInv(p: Pool, w: nat)
    requires Inv(p) && Enabled(p, Begin(w))
    ensures Inv(Step(p, Begin(w)))
  {
    var q, id := Step(p, Begin(w)), p.workers[w].id;
    assert Holds(p, w, id) && InHand(p, id);
    TakenNotWaiting(p, id);
    forall v: nat, i ensures Holds(q, v, i) <==> Holds(p, v, i) { }
    forall i ensures InHand(q, i) <==> InHand(p, i) {
      if v: nat :| Holds(p, v, i) { assert Holds(q, v, i); }
      if v: nat :| Holds(q, v, i) { assert Holds(p, v, i); }
    }
  }

  /** A taken task is neither in the queue any more nor was it dropped. */
  lemma TakenNotWaiting(p: Pool, id: string)
    requires Inv(p) && id in p.taken
    ensures id !in p.queue && id !in p.dropped && id in p.tasks
  {
    var i :| 0 <= i < |p.taken| && p.taken[i] == id;
    assert p.accepted[i] == id;
    forall j | 0 <= j < |p.queue| ensures p.queue[j] != id {
      assert p.accepted[|p.taken| + j] == p.queue[j];
    }
  }

  lemma FinishInv(p: Pool, w: nat, ok: bool)
    requires Inv(p) && Enabled(p, Finish(w, ok))
    ensures Inv(Step(p, Finish(w, ok)))
  {
    var q, id := Step(p, Finish(w, ok)), p.workers[w].id;
    assert Holds(p, w, id) && InHand(p, id);
    TakenNotWaiting(p, id);
    forall v: nat, i ensures Holds(q, v, i) <==> Holds(p, v, i) && v != w { }
    forall i ensures InHand(q, i) <==> InHand(p, i) && i != id {
      if v: nat :| Holds(p, v, i) { assert v != w ==> Holds(q, v, i); }
      if v: nat :| Holds(q, v, i) { assert Holds(p, v, i); }
    }
  }

  lemma CancelPlaced(p: Pool, id: string)
    requires Placed(p)
    ensures Placed(Step(p, Cancel(id)))
  {
    var q := Step(p, Cancel(id));
    forall w: nat, i ensures Holds(q, w, i) <==> Holds(p, w, i) { }
    forall i ensures InHand(q, i) <==> InHand(p, i) { SameHands(p, q, i); }
  }

  lemma CancelStatused(p: Pool, id: string)
    requires Statused(p)
    ensures Statused(Step(p, Cancel(id)))
  {
    var q := Step(p, Cancel(id));
    forall w: nat, i | Holds(q, w, i) ensures HeldStatus(q, w, i) { assert Holds(p, w, i); }
  }

  lemma StepInv(p: Pool, e: Event)
    requires Inv(p) && Enabled(p, e)
    ensures Inv(Step(p, e))
  {
    match e
    case Submit(id, container, target) =>
      SubmitShaped(p, id, container, target);
      SubmitPlaced(p, id, container, target);
      SubmitStatused(p, id, container, target);
    case Receive(w) => ReceiveInv(p, w);
    case Begin(w) => BeginInv(p, w);
    case Finish(w, ok) => FinishInv(p, w, ok);
    case Cancel(id) =>
      CancelPlaced(p, id);
      CancelStatused(p, id);
  }

  /** Every reachable state satisfies the invariant. */
  lemma {:induction false} RunInv(p: Pool, events: seq<Event>)
    requires Inv(p) && Feasible(p, events)
    ensures Inv(Run(p, events))
    decreases |events|
  {
    if events != [] {
      RunInv(p, events[..|events| - 1]);
      StepInv(Run(p, events[..|events| - 1]), events[|events| - 1]);
    }
  }

  // ----- what it means -----

  function Count(b: bool): nat { if b then 1 else 0 }

  /** In every reachable state each stored task is in exactly one place: queued, dropped, in a worker's
      hands or finished. */
  lemma ExactlyOnePlace(events: seq<Event>, id: string)
    requires Feasible(Empty(), events)
    ensures var p := Run(Empty(), events);
      Count(Queued(p, id)) + Count(id in p.dropped) + Count(InHand(p, id)) + Count(id in p.finished)
        == Count(id in p.tasks)
  {
    EmptyInv();
    RunInv(Empty(), events);
    var p := Run(Empty(), events);
    if id in p.taken { TakenNotWaiting(p, id); }
    assert id in p.accepted <==> id in p.taken || id in p.queue;
  }

  /** At most a hundred tasks wait, and tasks are taken up at most once each, in the order in which they
      were accepted. The service never cancels a task without having a pool. */
  lemma BoundedInOrderOnce(events: seq<Event>)
    requires Feasible(Empty(), events)
    ensures var p := Run(Empty(), events);
      && |p.queue| <= 100 && |p.workers| == 5
      && p.taken <= p.accepted && Distinct(p.taken)
      && (forall id :: id in p.tasks ==> p.started)
  {
    EmptyInv();
    RunInv(Empty(), events);
    var p := Run(Empty(), events);
    forall i, j | 0 <= i < j < |p.taken| ensures p.taken[i] != p.taken[j] {
      assert p.accepted[i] == p.taken[i] && p.accepted[j] == p.taken[j];
    }
  }

  /** Success and failure are final: no step changes either. */
  lemma OutcomeIsFinal(p: Pool, e: Event, id: string)
    requires Inv(p) && Enabled(p, e) && id in p.tasks && (p.tasks[id] == Success || p.tasks[id] == Failed)
    ensures id in Step(p, e).tasks && Step(p, e).tasks[id] == p.tasks[id]
  {
    if e.Begin? || e.Finish? { assert Holds(p, e.worker, p.workers[e.worker].id); }
  }

  /** A dropped task is never executed: it stays dropped, pending or cancelled for ever. */
  lemma {:induction false} DroppedForEver(p: Pool, events: seq<Event>, id: string)
    requires Inv(p) && Feasible(p, events) && id in p.dropped
    ensures var q := Run(p, events);
      id in q.dropped && id !in q.taken && id in q.tasks && (q.tasks[id] == Pending || q.tasks[id] == Cancelled)
    decreases |events|
  {
    RunInv(p, events);
    if events != [] {
      DroppedForEver(p, events[..|events| - 1], id);
    }
    DroppedNotTaken(Run(p, events), id);
  }

  lemma DroppedNotTaken(p: Pool, id: string)
    requires Inv(p) && id in p.dropped
    ensures id !in p.taken
  {
    assert id !in p.accepted;
    forall i | 0 <= i < |p.taken| ensures p.taken[i] != id { assert p.accepted[i] == p.taken[i]; }
  }

  /** A cancelled task is not safe from being run: one cancelled while it waits in the queue runs and
      ends as if it had not been cancelled. */
  lemma CancelledCanRun(id: string, ok: bool)
    ensures var run := [Submit(id, "c", "t"), Cancel(id), Receive(0), Begin(0), Finish(0, ok)];
      && Feasible(Empty(), run) && Feasible(Empty(), run[..2])
      && id in Run(Empty(), run[..2]).tasks && Run(Empty(), run[..2]).tasks[id] == Cancelled
      && id in Run(Empty(), run).tasks && Run(Empty(), run).tasks[id] == if ok then Success else Failed
  {
    var e1, e2, e3, e4, e5 := Submit(id, "c", "t"), Cancel(id), Receive(0), Begin(0), Finish(0, ok);
    var p0 := Empty();
    var p1 := Step(p0, e1);
    var p2 := Step(p1, e2);
    var p3 := Step(p2, e3);
    var p4 := Step(p3, e4);
    assert [] + [e1] == [e1] && [e1] + [e2] == [e1, e2] && [e1, e2] + [e3] == [e1, e2, e3];
    assert [e1, e2, e3] + [e4] == [e1, e2, e3, e4] && [e1, e2, e3, e4] + [e5] == [e1, e2, e3, e4, e5];
    RunOne(p0, [], e1);
    RunOne(p0, [e1], e2);
    RunOne(p0, [e1, e2], e3);
    RunOne(p0, [e1, e2, e3], e4);
    RunOne(p0, [e1, e2, e3, e4], e5);
    assert [e1, e2, e3, e4, e5][..2] == [e1, e2];
  }

  lemma RunOne(p: Pool, before: seq<Event>, e: Event)
    requires Feasible(p, before) && Enabled(Run(p, before), e)
    ensures Feasible(p, before + [e]) && Run(p, before + [e]) == Step(Run(p, before), e)
  {
    assert (before + [e])[..|before + [e]| - 1] == before;
  }

  // ----- when a cancelled task stays cancelled -----

  predicate IsCancelled(p: Pool, id: string) { id in p.tasks && p.tasks[id] == Cancelled }

  /** The worker that has the task in hand starts or ends it. */
  predicate Overwrites(p: Pool, e: Event, id: string) {
    (e.Begin? || e.Finish?) && Holds(p, e.worker, id)
  }

  /** One step takes a cancellation back exactly when a worker writes the task's status. */
  lemma CancelledUntilWritten(p: Pool, e: Event, id: string)
    requires Inv(p) && Enabled(p, e) && IsCancelled(p, id)
    ensures !IsCancelled(Step(p, e), id) <==> Overwrites(p, e, id)
  {
  }

  lemma {:induction false} RunCons(p: Pool, e: Event, rest: seq<Event>)
    requires Enabled(p, e) && Feasible(Step(p, e), rest)
    ensures Feasible(p, [e] + rest) && Run(p, [e] + rest) == Run(Step(p, e), rest)
    decreases |rest|
  {
    if rest == [] {
      RunOne(p, [], e);
      assert [] + [e] == [e] + rest;
    } else {
      var front, last := rest[..|rest| - 1], rest[|rest| - 1];
      RunCons(p, e, front);
      RunOne(p, [e] + front, last);
      assert [e] + front + [last] == [e] + rest;
    }
  }

  /** What the first worker does next, with a task waiting. */
  function FirstWorker(p: Pool): Event
    requires |p.workers| == WORKERS
  {
    match p.workers[0]
    case Idle => Receive(0)
    case Holding(_) => Begin(0)
    case Executing(_) => Finish(0, true)
  }

  function Rank(w: Worker): nat { if w.Idle? then 0 else if w.Executing? then 1 else 2 }

  /** A task that was not dropped can always be brought to a worker, which writes its status. */
  lemma {:induction false} CanBeWritten(p: Pool, id: string) returns (events: seq<Event>)
    requires Inv(p) && id in p.tasks && id !in p.dropped
    ensures Feasible(p, events) && !IsCancelled(Run(p, events), id)
    decreases |p.queue|, Rank(p.workers[0])
  {
    if !IsCancelled(p, id) { return []; }
    if InHand(p, id) {
      var w: nat :| Holds(p, w, id);
      var e := if p.workers[w].Holding? then Begin(w) else Finish(w, true);
      CancelledUntilWritten(p, e, id);
      RunCons(p, e, []);
      return [e] + [];
    }
    assert id in p.queue;
    var e := FirstWorker(p);
    StepInv(p, e);
    var rest := CanBeWritten(Step(p, e), id);
    RunCons(p, e, rest);
    events := [e] + rest;
  }

  lemma {:induction false} DroppedStaysCancelled(p: Pool, events: seq<Event>, id: string)
    requires Inv(p) && Feasible(p, events) && id in p.dropped && IsCancelled(p, id)
    ensures IsCancelled(Run(p, events), id)
    decreases |events|
  {
    if events != [] {
      var front, e := events[..|events| - 1], events[|events| - 1];
      DroppedStaysCancelled(p, front, id);
      RunInv(p, front);
      DroppedForEver(p, front, id);
      var q := Run(p, front);
      CancelledUntilWritten(q, e, id);
      DroppedNotTaken(q, id);
      assert Overwrites(q, e, id) ==> InHand(q, id);
    }
  }

  /** A cancellation holds in every continuation exactly for a task that the full queue had dropped:
      any other cancelled task can still run. */
  lemma CancelledForEverIffDropped(p: Pool, id: string)
    requires Inv(p) && IsCancelled(p, id)
    ensures (forall events :: Feasible(p, events) ==> IsCancelled(Run(p, events), id)) <==> id in p.dropped
  {
    if id in p.dropped {
      forall events | Feasible(p, events) ensures IsCancelled(Run(p, events), id) {
        DroppedStaysCancelled(p, events, id);
      }
    } else {
      var events := CanBeWritten(p, id);
      assert Feasible(p, events) && !IsCancelled(Run(p, events), id);
    }
  }

  // ----- what clients ask for -----

  /** A task that was not dropped and has not ended can always be brought to succeed. */
  lemma {:induction false} CanSucceed(p: Pool, id: string) returns (events: seq<Event>)
    requires Inv(p) && id in p.tasks && id !in p.dropped && id !in p.finished
    ensures Feasible(p, events) && HasStatus(Run(p, events), id, Success)
    decreases |p.queue|, Rank(p.workers[0])
  {
    if InHand(p, id) {
      var w: nat :| Holds(p, w, id);
      if p.workers[w].Executing? {
        RunCons(p, Finish(w, true), []);
        return [Finish(w, true)] + [];
      }
      var q := Step(p, Begin(w));
      RunCons(q, Finish(w, true), []);
      RunCons(p, Begin(w), [Finish(w, true)] + []);
      return [Begin(w)] + ([Finish(w, true)] + []);
    }
    assert id in p.queue;
    assert !Holds(p, 0, id);
    var e := FirstWorker(p);
    StepInv(p, e);
    var rest := CanSucceed(Step(p, e), id);
    RunCons(p, e, rest);
    events := [e] + rest;
  }

  predicate HasStatus(p: Pool, id: string, s: Status) { id in p.tasks && p.tasks[id] == s }

  /** Some continuation brings the task to a status. */
  ghost predicate CanEnd(p: Pool, id: string, s: Status) {
    exists events :: Feasible(p, events) && HasStatus(Run(p, events), id, s)
  }

  /** Whether a request is stored. */
  lemma StoredExactlyWhen(p: Pool, id: string, container: string, target: string)
    requires id !in p.tasks
    ensures HasStatus(Step(p, Submit(id, container, target)), id, Pending) <==> container != "" && target != ""
  {
  }

  /** A stored job has a continuation in which it succeeds exactly when fewer than a hundred were waiting:
      the others are told that it was submitted, and it never runs. */
  lemma SucceedsIffRoom(p: Pool, id: string, container: string, target: string)
    requires Inv(p) && id !in p.tasks && container != "" && target != ""
    ensures CanEnd(Step(p, Submit(id, container, target)), id, Success) <==> |p.queue| < 100
  {
    var q := Step(p, Submit(id, container, target));
    StepInv(p, Submit(id, container, target));
    if |p.queue| < 100 {
      assert q.queue[|q.queue| - 1] == id;
      var events := CanSucceed(q, id);
      assert Feasible(q, events) && HasStatus(Run(q, events), id, Success);
    } else {
      if events :| Feasible(q, events) && HasStatus(Run(q, events), id, Success) { DroppedForEver(q, events, id); }
    }
  }

  /** Cancelling works exactly for a stored job that has not ended, wherever it is, and touches no other. */
  lemma CancelledUnlessEnded(p: Pool, id: string, other: string)
    requires Inv(p)
    ensures IsCancelled(Step(p, Cancel(id)), id) <==> id in p.tasks && id !in p.finished
    ensures other != id && other in p.tasks ==> HasStatus(Step(p, Cancel(id)), other, p.tasks[other])
    ensures Step(p, Cancel(id)).queue == p.queue && Step(p, Cancel(id)).workers == p.workers
  {
    if id in p.tasks && id !in p.finished {
      if InHand(p, id) {
        var w: nat :| Holds(p, w, id);
        assert HeldStatus(p, w, id);
      } else {
        assert id in p.queue || id in p.dropped;
      }
    }
  }

  // ----- the service -----

  datatype CancelReply = NoSuchTask | NotNow(status: Status) | CancelDone

  class Service {
    var tasks: map<string, Status>
    var queue: seq<string>
    var workers: seq<Worker>
    var started: bool
    ghost var dropped: set<string>
    ghost var finished: set<string>
    ghost var accepted: seq<string>
    ghost var taken: seq<string>

    ghost function State(): Pool
      reads this
    {
      Pool(tasks, queue, workers, started, dropped, finished, accepted, taken)
    }

    ghost predicate Valid()
      reads this
    {
      Inv(State())
    }

    constructor ()
      ensures Valid() && State() == Empty()
      ensures tasks == map[] && queue == [] && !started
    {
      tasks, queue, workers, started := map[], [], seq(WORKERS, _ => Idle), false;
      dropped, finished, accepted, taken := {}, {}, [], [];
      new;
      EmptyInv();
    }

    /** `SubmitCommitTask`: false when the request is refused; a task that finds the queue full is
        stored all the same, and reported as submitted. */
    method SubmitCommitTask(id: string, container: string, target: string) returns (stored: bool)
      requires Valid() && id !in tasks
      modifies this
      ensures Valid() && State() == Step(old(State()), Submit(id, container, target))
      ensures stored <==> container != "" && target != ""
      ensures tasks == if stored then old(tasks)[id := Pending] else old(tasks)
      ensures queue == if stored && |old(queue)| < 100 then old(queue) + [id] else old(queue)
    {
      StepInv(State(), Submit(id, container, target));
      if container == "" { return false; }
      if target == "" { return false; }
      tasks := tasks[id := Pending];
      if !started { started := true; }
      if |queue| < QUEUE_SIZE {
        queue := queue + [id];
        accepted := accepted + [id];
      } else {
        dropped := dropped + {id};
      }
      stored := true;
    }

    /** A worker's receive from the channel. */
    method TakeTask(w: nat) returns (id: string)
      requires Valid() && Enabled(State(), Receive(w))
      modifies this
      ensures Valid() && State() == Step(old(State()), Receive(w))
      ensures id == old(queue)[0] && queue == old(queue)[1..] && tasks == old(tasks)
    {
      StepInv(State(), Receive(w));
      id := queue[0];
      queue := queue[1..];
      workers := workers[w := Holding(id)];
      taken := taken + [id];
    }

    /** The start of `processTask`. */
    method BeginTask(w: nat)
      requires Valid() && Enabled(State(), Begin(w))
      modifies this
      ensures Valid() && State() == Step(old(State()), Begin(w))
      ensures tasks == old(tasks)[old(workers[w]).id := Running] && queue == old(queue)
    {
      StepInv(State(), Begin(w));
      var id := workers[w].id;
      tasks := tasks[id := Running];
      workers := workers[w := Executing(id)];
    }

    /** The end of `processTask`, once the command has succeeded or failed. */
    method FinishTask(w: nat, ok: bool)
      requires Valid() && Enabled(State(), Finish(w, ok))
      modifies this
      ensures Valid() && State() == Step(old(State()), Finish(w, ok))
      ensures tasks == old(tasks)[old(workers[w]).id := if ok then Success else Failed] && queue == old(queue)
    {
      StepInv(State(), Finish(w, ok));
      var id := workers[w].id;
      if ok { tasks := tasks[id := Success]; } else { tasks := tasks[id := Failed]; }
      workers := workers[w := Idle];
      finished := finished + {id};
    }

    /** `CancelTask`. */
    method CancelTask(id: string) returns (r: CancelReply)
      requires Valid()
      modifies this
      ensures Valid() && State() == Step(old(State()), Cancel(id))
      ensures r == NoSuchTask <==> id !in old(tasks)
      ensures r == CancelDone <==> id in old(tasks) && (old(tasks)[id] == Pending || old(tasks)[id] == Running)
      ensures r.NotNow? ==> id in old(tasks) && r.status == old(tasks)[id]
      ensures tasks == if r == CancelDone then old(tasks)[id := Cancelled] else old(tasks)
      ensures queue == old(queue) && workers == old(workers)
      ensures r == CancelDone ==> started
    {
      StepInv(State(), Cancel(id));
      if id !in tasks { return NoSuchTask; }
      if tasks[id] != Pending && tasks[id] != Running { return NotNow(tasks[id]); }
      tasks := tasks[id := Cancelled];
      r := CancelDone;
    }
  }
}

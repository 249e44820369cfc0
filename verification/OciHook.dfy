/** The OCI hooks `createRuntime` and `postStop`, which drive a container's name, hosts entry and CNI
    allocation through its life, including restarts of containerd (a second `createRuntime` with no
    `postStop` between) and failed creations (a `postStop` for a container that stays). CNI,
    RootlessKit and bypass4netns are foreign: each call's success is a parameter of the event. */
module OciHook {
  import opened Strings
  import opened FileStore
  import opened NameStore

  /** What the annotations say about a container. */
  datatype Container = Container(id: string, name: string, hasCni: bool)

  /** How the foreign calls of one `createRuntime` turn out: writing the name's file, preparing the
      options, the pre-emptive removal, the setup (which may leave an allocation behind even when it
      fails), recording the hosts entry, exposing the ports, and the removal on failure. */
  datatype CreateEnv = CreateEnv(named: bool, prepared: bool, cleared: bool, setUp: bool, leftover: bool,
                                 recorded: bool, exposed: bool, cleanedUp: bool)

  /** The same for one `postStop`: stopping the bypass and the ports, and the CNI removal. */
  datatype StopEnv = StopEnv(unexposed: bool, removed: bool)

  datatype System = System(owners: Owners, hosts: set<string>, cni: set<string>, createError: set<string>)

  // ----- specification: one event -----

  function Hold(s: System, id: string, held: bool): System {
    s.(cni := if held then s.cni + {id} else s.cni - {id})
  }

  /** Setup, hosts entry, ports. The plugin refuses a container that still holds an allocation. */
  function NetworkSetUp(s: System, id: string, env: CreateEnv): (System, bool) {
    if !env.setUp || id in s.cni then (if env.leftover then Hold(s, id, true) else s, false)
    else
      var s2 := Hold(s, id, true);
      if !env.recorded then (s2, false)
      else (s2.(hosts := s2.hosts + {id}), env.exposed)
  }

  /** `applyNetworkSettings`, which removes what the failed setup allocated. */
  function NetworkUp(s: System, id: string, env: CreateEnv): (System, bool) {
    if !env.prepared then (s, false)
    else
      var (t, ok) := NetworkSetUp(if env.cleared then Hold(s, id, false) else s, id, env);
      (if !ok && env.cleanedUp then Hold(t, id, false) else t, ok)
  }

  /** The attempt to acquire the name again. */
  function Renamed(s: System, c: Container, env: CreateEnv): System {
    if env.named then s.(owners := Next(s.owners, Acquire(c.name, c.id))) else s
  }

  function AfterCreate(s: System, c: Container, env: CreateEnv): (System, bool) {
    var s1 := Renamed(s, c, env);
    var (s2, ok) := if c.hasCni then NetworkUp(s1, c.id, env) else (s1, true);
    (s2.(createError := if ok then s2.createError - {c.id} else s2.createError + {c.id}), ok)
  }

  /** Releasing a name that is not there any more is fine. */
  predicate Releases(o: Owners, c: Container) {
    Storable(c.name) && (c.name in o ==> o[c.name] == c.id)
  }

  function AfterStop(s: System, c: Container, env: StopEnv): (System, bool) {
    var s1 := s.(createError := s.createError - {c.id});
    if c.id in s.createError then (s1, true)
    else if c.hasCni && !(env.unexposed && env.removed) then (s1, false)
    else
      var s2 := if c.hasCni then Hold(s1, c.id, false) else s1;
      if c.hasCni && c.id !in s2.hosts then (s2, false)
      else
        var s3 := if c.hasCni then s2.(hosts := s2.hosts - {c.id}) else s2;
        (s3.(owners := Next(s3.owners, Release(c.name, c.id))), Releases(s3.owners, c))
  }

  // ----- specification: runs of many containers -----

  /** Names also change hands outside the hooks, by `rename` and `rm`. */
  datatype Event = Created(c: Container, createEnv: CreateEnv) | Stopped(c: Container, stopEnv: StopEnv) | Named(op: Op)

  function After(s: System, e: Event): System {
    match e
    case Created(c, env) => AfterCreate(s, c, env).0
    case Stopped(c, env) => AfterStop(s, c, env).0
    case Named(op) => s.(owners := Next(s.owners, op))
  }

  function Outcome(s: System, e: Event): bool {
    match e
    case Created(c, env) => AfterCreate(s, c, env).1
    case Stopped(c, env) => AfterStop(s, c, env).1
    case Named(op) => Succeeds(s.owners, op)
  }

  function Front<T>(events: seq<T>): seq<T>
    requires events != []
  {
    events[..|events| - 1]
  }

  function RunEvents(s: System, events: seq<Event>): System {
    if events == [] then s else After(RunEvents(s, Front(events)), events[|events| - 1])
  }

  predicate Concerns(e: Event, id: string) { !e.Named? && e.c.id == id }

  datatype Last = NoneYet | CreateOk | CreateFailed | StopOk | StopFailed

  /** The last hook event of a container in a run, and how it went. */
  function LastOf(s: System, events: seq<Event>, id: string): Last {
    if events == [] then NoneYet
    else
      var e := events[|events| - 1];
      if !Concerns(e, id) then LastOf(s, Front(events), id)
      else
        var ok := Outcome(RunEvents(s, Front(events)), e);
        if e.Created? then if ok then CreateOk else CreateFailed
        else if ok then StopOk else StopFailed
  }

  predicate Clean(s: System) { s.createError == {} && s.cni == {} }

  // ----- what runs keep -----

  /** The recorded creation error says exactly that the container's last event was a failed creation. */
  lemma {:induction false} ErrorIsLastCreateFailed(s: System, events: seq<Event>, id: string)
    requires Clean(s)
    ensures id in RunEvents(s, events).createError <==> LastOf(s, events, id) == CreateFailed
  {
    if events != [] {
      ErrorIsLastCreateFailed(s, Front(events), id);
      var s1, e := RunEvents(s, Front(events)), events[|events| - 1];
      match e
      case Created(c, env) => NetworkUpKeeps(Renamed(s1, c, env), c.id, env, id);
      case _ =>
    }
  }

  /** Bringing a network up touches only the container's own allocation and hosts entry. */
  lemma NetworkUpKeeps(s: System, id: string, env: CreateEnv, other: string)
    ensures var t := NetworkUp(s, id, env).0;
      && t.owners == s.owners && t.createError == s.createError
      && (other != id ==> (other in t.cni <==> other in s.cni) && (other in t.hosts <==> other in s.hosts))
      && s.hosts <= t.hosts
  {
  }

  /** A `postStop` that follows a failed creation changes nothing but the record of the failure. */
  lemma StopAfterFailureKeepsAll(s: System, events: seq<Event>, c: Container, env: StopEnv)
    requires Clean(s) && LastOf(s, events, c.id) == CreateFailed
    ensures var t := RunEvents(s, events);
      AfterStop(t, c, env) == (t.(createError := t.createError - {c.id}), true)
  {
    ErrorIsLastCreateFailed(s, events, c.id);
  }

  /** Any other `postStop` succeeds exactly when the network comes down, the hosts entry is there and the
      name is the container's or nobody's; then all three are freed. */
  lemma StopOtherwiseFrees(s: System, events: seq<Event>, c: Container, env: StopEnv)
    requires Clean(s) && LastOf(s, events, c.id) != CreateFailed
    ensures var t := RunEvents(s, events);
      var (u, ok) := AfterStop(t, c, env);
      && (ok <==> (c.hasCni ==> env.unexposed && env.removed && c.id in t.hosts) && Releases(t.owners, c))
      && (ok ==> c.name !in u.owners && (c.hasCni ==> c.id !in u.hosts && c.id !in u.cni))
      && u.createError == t.createError
  {
    ErrorIsLastCreateFailed(s, events, c.id);
  }

  /** Events whose removals and preparations all work; setups, records and ports may still fail. */
  predicate Benign(e: Event, id: string) {
    Concerns(e, id) ==>
      && e.c.hasCni
      && (e.Created? ==> e.createEnv.prepared && e.createEnv.cleared && e.createEnv.cleanedUp)
      && (e.Stopped? ==> e.stopEnv.unexposed && e.stopEnv.removed)
  }

  /** A CNI allocation is held exactly while the container's last event is a successful creation:
      neither a bounce of containerd nor a failed creation leaves one behind or loses one. */
  lemma {:induction false} AllocationIsLastCreateOk(s: System, events: seq<Event>, id: string)
    requires Clean(s) && forall i :: 0 <= i < |events| ==> Benign(events[i], id)
    ensures id in RunEvents(s, events).cni <==> LastOf(s, events, id) == CreateOk
  {
    if events != [] {
      var front, e := Front(events), events[|events| - 1];
      assert forall i :: 0 <= i < |front| ==> front[i] == events[i];
      AllocationIsLastCreateOk(s, front, id);
      ErrorIsLastCreateFailed(s, front, id);
      var s1 := RunEvents(s, front);
      match e
      case Created(c, env) => NetworkUpKeeps(Renamed(s1, c, env), c.id, env, id);
      case _ =>
    }
  }

  /** The same, with creations that may also fail before they reach the network. */
  predicate Removing(e: Event, id: string) {
    Concerns(e, id) ==>
      && e.c.hasCni
      && (e.Created? ==> e.createEnv.cleared && e.createEnv.cleanedUp)
      && (e.Stopped? ==> e.stopEnv.unexposed && e.stopEnv.removed)
  }

  /** The event gets as far as the container's network. */
  predicate Reaches(s: System, e: Event, id: string) {
    Concerns(e, id) && (e.Created? ==> e.createEnv.prepared) && (e.Stopped? ==> id !in s.createError)
  }

  function LastReaching(s: System, events: seq<Event>, id: string): Last {
    if events == [] then NoneYet
    else
      var e, before := events[|events| - 1], RunEvents(s, Front(events));
      if !Reaches(before, e, id) then LastReaching(s, Front(events), id)
      else
        var ok := Outcome(before, e);
        if e.Created? then if ok then CreateOk else CreateFailed
        else if ok then StopOk else StopFailed
  }

  /** In general the allocation follows the last event that got as far as the network. A creation that
      fails earlier, and the `postStop` it disarms, leave an allocation held by a running container. */
  lemma {:induction false} AllocationIsLastReaching(s: System, events: seq<Event>, id: string)
    requires Clean(s) && forall i :: 0 <= i < |events| ==> Removing(events[i], id)
    ensures id in RunEvents(s, events).cni <==> LastReaching(s, events, id) == CreateOk
  {
    if events != [] {
      var front, e := Front(events), events[|events| - 1];
      assert forall i :: 0 <= i < |front| ==> front[i] == events[i];
      AllocationIsLastReaching(s, front, id);
      var s1 := RunEvents(s, front);
      match e
      case Created(c, env) => NetworkUpKeeps(Renamed(s1, c, env), c.id, env, id);
      case _ =>
    }
  }

  /** Such a run, for any container: created, created again before its network is reachable, stopped. */
  lemma UnpreparedKeepsAllocation(s: System, c: Container, stopEnv: StopEnv)
    requires c.hasCni
    ensures var fine := CreateEnv(true, true, true, true, false, true, true, true);
      var run := [Created(c, fine), Created(c, fine.(prepared := false)), Stopped(c, stopEnv)];
      c.id in RunEvents(s, run).cni && LastOf(s, run, c.id) == StopOk
  {
    var fine := CreateEnv(true, true, true, true, false, true, true, true);
    var e1, e2, e3 := Created(c, fine), Created(c, fine.(prepared := false)), Stopped(c, stopEnv);
    assert Front([e1]) == [] && Front([e1, e2]) == [e1] && Front([e1, e2, e3]) == [e1, e2];
    assert RunEvents(s, []) == s;
    assert c.id in RunEvents(s, [e1]).cni;
    assert c.id in RunEvents(s, [e1, e2]).cni && c.id in RunEvents(s, [e1, e2]).createError;
  }

  /** A creation succeeds exactly when the container has no CNI or every step towards its network works, in
      particular the setup, which refuses a container that still holds an allocation. */
  lemma CreatesExactlyWhen(s: System, c: Container, env: CreateEnv)
    ensures AfterCreate(s, c, env).1 <==>
      !c.hasCni || (env.prepared && env.setUp && (env.cleared || c.id !in s.cni) && env.recorded && env.exposed)
    ensures AfterCreate(s, c, env).1 && c.hasCni ==>
      c.id in AfterCreate(s, c, env).0.hosts && c.id in AfterCreate(s, c, env).0.cni
  {
  }

  /** What a creation that fails on the network leaves allocated, unless it is cleaned up: what it got as far
      as setting up, what a failed setup left over, or what could not be cleared before. */
  lemma FailedCreateLeaves(s: System, c: Container, env: CreateEnv)
    requires c.hasCni && env.prepared && !AfterCreate(s, c, env).1
    ensures c.id in AfterCreate(s, c, env).0.cni <==>
      !env.cleanedUp && (env.leftover || (env.setUp && env.cleared) || (env.setUp && c.id !in s.cni)
                         || (c.id in s.cni && !env.cleared))
  {
  }

  /** After a successful creation as its last event, a container with CNI has its hosts entry. */
  lemma {:induction false} HostsAfterCreateOk(s: System, events: seq<Event>, id: string)
    requires forall i :: 0 <= i < |events| ==> Concerns(events[i], id) ==> events[i].c.hasCni
    ensures LastOf(s, events, id) == CreateOk ==> id in RunEvents(s, events).hosts
  {
    if events != [] {
      var front, e := Front(events), events[|events| - 1];
      assert forall i :: 0 <= i < |front| ==> front[i] == events[i];
      HostsAfterCreateOk(s, front, id);
      var s1 := RunEvents(s, front);
      match e
      case Created(c, env) =>
        CreatesExactlyWhen(s1, c, env);
        NetworkUpKeeps(Renamed(s1, c, env), c.id, env, id);
      case _ =>
    }
  }

  /** So a `postStop` whose foreign calls work, after a successful creation as the last event, succeeds and
      frees name, hosts entry and allocation, if the name is storable and the container's or nobody's. */
  lemma StopAfterCreateOk(s: System, events: seq<Event>, c: Container)
    requires Clean(s) && LastOf(s, events, c.id) == CreateOk && c.hasCni
    requires forall i :: 0 <= i < |events| ==> Concerns(events[i], c.id) ==> events[i].c.hasCni
    requires var o := RunEvents(s, events).owners; Storable(c.name) && (c.name !in o || o[c.name] == c.id)
    ensures var (u, ok) := AfterStop(RunEvents(s, events), c, StopEnv(true, true));
      ok && c.name !in u.owners && c.id !in u.hosts && c.id !in u.cni
  {
    ErrorIsLastCreateFailed(s, events, c.id);
    HostsAfterCreateOk(s, events, c.id);
  }

  /** The events by which the owner of a name gives it up. */
  predicate EventGivesUp(e: Event, name: string, id: string) {
    match e
    case Created(_, _) => false
    case Stopped(c, _) => c.name == name && c.id == id
    case Named(op) => GivesUp(op, name, id)
  }

  /** No event of other containers, and no creation of its own, takes a name from its owner. */
  lemma {:induction false} NamesAreSafe(s: System, events: seq<Event>, name: string, id: string)
    requires id != "" && Owns(s.owners, name, id)
    requires forall i :: 0 <= i < |events| ==>
      EventGivesUp(events[i], name, id) ==> events[i].Stopped? && id in RunEvents(s, events[..i]).createError
    ensures Owns(RunEvents(s, events).owners, name, id)
  {
    if events != [] {
      var front, n := Front(events), |events| - 1;
      forall i | 0 <= i < n && EventGivesUp(front[i], name, id)
        ensures front[i].Stopped? && id in RunEvents(s, front[..i]).createError
      {
        assert front[i] == events[i] && front[..i] == events[..i];
      }
      NamesAreSafe(s, front, name, id);
      assert front == events[..n];
      var s1 := RunEvents(s, front);
      match events[n]
      case Created(c, env) =>
        OnlyOwnerGivesUp(s1.owners, Acquire(c.name, c.id), name, id);
        NetworkUpKeeps(Renamed(s1, c, env), c.id, env, id);
      case Stopped(c, env) => OnlyOwnerGivesUp(s1.owners, Release(c.name, c.id), name, id);
      case Named(op) => OnlyOwnerGivesUp(s1.owners, op, name, id);
    }
  }

  /** The life of a container: created with success, with its name its own, then anything that other
      containers do, then stopped with success; name, hosts entry and allocation are free again. */
  lemma CreatedThenStopped(s: System, c: Container, env: CreateEnv, between: seq<Event>)
    requires c.id != "" && AfterCreate(s, c, env).1 && Succeeds(s.owners, Acquire(c.name, c.id))
    requires env.named || Owns(s.owners, c.name, c.id)
    requires forall i :: 0 <= i < |between| ==>
      !Concerns(between[i], c.id) && !(between[i].Named? && GivesUp(between[i].op, c.name, c.id))
    ensures var t := RunEvents(AfterCreate(s, c, env).0, between);
      var (u, ok) := AfterStop(t, c, StopEnv(true, true));
      && Owns(t.owners, c.name, c.id) && (c.hasCni ==> c.id in t.hosts && c.id in t.cni)
      && ok && c.name !in u.owners && (c.hasCni ==> c.id !in u.hosts && c.id !in u.cni)
  {
    var s1 := AfterCreate(s, c, env).0;
    CreatesExactlyWhen(s, c, env);
    NetworkUpKeeps(Renamed(s, c, env), c.id, env, c.id);
    assert Owns(s1.owners, c.name, c.id);
    OthersKeep(s1, between, c.id);
    forall i | 0 <= i < |between|
      ensures !EventGivesUp(between[i], c.name, c.id)
    {
      assert !Concerns(between[i], c.id);
    }
    NamesAreSafe(s1, between, c.name, c.id);
  }

  /** The name survives a failed creation and the `postStop` that follows it. */
  lemma FailedCreateKeepsName(s: System, c: Container, createEnv: CreateEnv, stopEnv: StopEnv)
    requires createEnv.named || Owns(s.owners, c.name, c.id)
    requires Succeeds(s.owners, Acquire(c.name, c.id)) && !AfterCreate(s, c, createEnv).1
    ensures var t := AfterStop(AfterCreate(s, c, createEnv).0, c, stopEnv);
      t.1 && Owns(t.0.owners, c.name, c.id) && s.hosts <= t.0.hosts
  {
    NetworkUpKeeps(Renamed(s, c, createEnv), c.id, createEnv, c.id);
  }

  /** Events of other containers, and of names, leave a container's entries and record alone. */
  lemma {:induction false} OthersKeep(s: System, events: seq<Event>, id: string)
    requires forall i :: 0 <= i < |events| ==> !Concerns(events[i], id)
    ensures var t := RunEvents(s, events);
      && (id in t.hosts <==> id in s.hosts) && (id in t.cni <==> id in s.cni)
      && (id in t.createError <==> id in s.createError)
  {
    if events != [] {
      var front, e := Front(events), events[|events| - 1];
      assert forall i :: 0 <= i < |front| ==> front[i] == events[i];
      OthersKeep(s, front, id);
      var s1 := RunEvents(s, front);
      match e
      case Created(c, env) => NetworkUpKeeps(Renamed(s1, c, env), c.id, env, id);
      case _ =>
    }
  }

  /** A second `postStop`, any time after a successful one that freed the container and with no other
      event of its own between: for a container with CNI it always fails, on the missing hosts entry;
      for one without it succeeds unless somebody else has the name by now. */
  lemma SecondStop(s: System, c: Container, env: StopEnv, between: seq<Event>, again: StopEnv)
    requires c.id !in s.createError && AfterStop(s, c, env).1
    requires forall i :: 0 <= i < |between| ==> !Concerns(between[i], c.id)
    ensures var t := RunEvents(AfterStop(s, c, env).0, between);
      AfterStop(t, c, again).1 <==> !c.hasCni && Releases(t.owners, c)
  {
    OthersKeep(AfterStop(s, c, env).0, between, c.id);
  }

  /** Once the hosts entry is gone, no `postStop` releases the name of a container with CNI. */
  lemma StopWithoutHostsKeepsName(s: System, c: Container, env: StopEnv)
    requires c.hasCni && c.id !in s.hosts
    ensures AfterStop(s, c, env).0.owners == s.owners
    ensures c.id !in s.createError ==> !AfterStop(s, c, env).1
  {
  }

  // ----- the hooks -----

  class Hooks {
    const names: Names
    var hosts: set<string>
    var cni: set<string>
    var createError: set<string>

    ghost predicate Valid()
      reads this, names, names.store
    {
      names.Valid()
    }

    ghost function State(): System
      reads this, names, names.store
      requires Valid()
    {
      System(names.Owners(), hosts, cni, createError)
    }

    constructor ()
      ensures Valid() && State() == System(map[], {}, {}, {})
      ensures fresh(names) && fresh(names.store)
    {
      names := new Names();
      hosts, cni, createError := {}, {}, {};
    }

    /** `applyNetworkSettings`, with the removal deferred until a failure. */
    method ApplyNetworkSettings(id: string, env: CreateEnv) returns (ok: bool)
      requires Valid()
      modifies this`hosts, this`cni
      ensures Valid() && (State(), ok) == NetworkUp(old(State()), id, env)
    {
      if !env.prepared { return false; }
      if env.cleared { cni := cni - {id}; }
      ok := SetUp(id, env);
      if !ok && env.cleanedUp { cni := cni - {id}; }
    }

    method SetUp(id: string, env: CreateEnv) returns (ok: bool)
      requires Valid()
      modifies this`hosts, this`cni
      ensures Valid() && (State(), ok) == NetworkSetUp(old(State()), id, env)
    {
      if !env.setUp || id in cni {
        if env.leftover { cni := cni + {id}; }
        return false;
      }
      cni := cni + {id};
      if !env.recorded { return false; }
      hosts := hosts + {id};
      ok := env.exposed;
    }

    /** `onCreateRuntime`: a refusal of the name is only logged. */
    method OnCreateRuntime(c: Container, env: CreateEnv) returns (ok: bool)
      requires Valid()
      modifies this`hosts, this`cni, this`createError, names.store
      ensures Valid() && (State(), ok) == AfterCreate(old(State()), c, env)
    {
      var answer := names.Acquire(c.name, c.id, env.named);
      ok := true;
      if c.hasCni { ok := ApplyNetworkSettings(c.id, env); }
      createError := if ok then createError - {c.id} else createError + {c.id};
    }

    /** `onPostStop`. */
    method OnPostStop(c: Container, env: StopEnv) returns (ok: bool)
      requires Valid()
      modifies this`hosts, this`cni, this`createError, names.store
      ensures Valid() && (State(), ok) == AfterStop(old(State()), c, env)
    {
      var shouldExit := c.id in createError;
      createError := createError - {c.id};
      if shouldExit { return true; }
      if c.hasCni {
        if !env.unexposed { return false; }
        if !env.removed { return false; }
        cni := cni - {c.id};
        if c.id !in hosts { return false; }
        hosts := hosts - {c.id};
      }
      var answer := names.Release(c.name, c.id);
      ok := answer.Done? || answer == Failed(Refused(NotFound));
    }
  }
}

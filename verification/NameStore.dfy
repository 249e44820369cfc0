/** `nameStore`: containers exclusively acquire, release and rename names. Each operation takes the
    store's lock, so any run by any number of containers is a sequence of whole operations, except
    that a crash can cut a rename between its write and its deletion. */
module NameStore {
  import opened Strings
  import opened Paths
  import opened FileStore
  import opened Identifiers

  // ----- names -----

  /** The store refuses longer file names than this. */
  predicate Storable(name: string) { ValidName(name) && |name| <= MAX_COMPONENT }

  lemma StorableIsComponent(name: string)
    requires ValidName(name)
    ensures Storable(name) <==> ValidKey([name])
    ensures Storable(name) <==> |name| <= 255
  {
    assert !IsSpace(name[0]);
    assert forall i :: 0 <= i < |name| ==> IsNameChar(name[i]);
    assert [name][0] == name;
    assert ValidComponent(name) <==> |name| <= MAX_COMPONENT;
  }

  // ----- specification -----

  /** Who owns each name. */
  type Owners = map<string, string>

  datatype Op =
    | Acquire(name: string, id: string)
    | Release(name: string, id: string)
    | Rename(oldName: string, id: string, newName: string)
    | CutRename(oldName: string, id: string, newName: string)

  predicate CanAcquire(o: Owners, name: string, id: string) {
    Storable(name) && (name in o && o[name] != "" ==> o[name] == id)
  }

  predicate CanRelease(o: Owners, name: string, id: string) {
    Storable(name) && name in o && o[name] == id
  }

  predicate CanRename(o: Owners, oldName: string, id: string, newName: string) {
    Storable(newName) && newName !in o && oldName in o && o[oldName] == id
  }

  predicate Succeeds(o: Owners, op: Op) {
    match op
    case Acquire(name, id) => CanAcquire(o, name, id)
    case Release(name, id) => CanRelease(o, name, id)
    case Rename(oldName, id, newName) => CanRename(o, oldName, id, newName)
    case CutRename(oldName, id, newName) => CanRename(o, oldName, id, newName)
  }

  /** One operation; a failed one changes nothing. */
  function Next(o: Owners, op: Op): Owners {
    if !Succeeds(o, op) then o
    else
      match op
      case Acquire(name, id) => o[name := id]
      case Release(name, id) => o - {name}
      case Rename(oldName, id, newName) => o[newName := id] - {oldName}
      case CutRename(oldName, id, newName) => o[newName := id]
  }

  function Run(o: Owners, ops: seq<Op>): Owners {
    if ops == [] then o else Next(Run(o, ops[..|ops| - 1]), ops[|ops| - 1])
  }

  /** The operations by which an owner itself gives a name up. */
  predicate GivesUp(op: Op, name: string, id: string) {
    op == Release(name, id) || (op.Rename? && op.oldName == name && op.id == id)
  }

  /** The operations by which a container comes to own a name. */
  predicate Takes(op: Op, name: string, id: string) {
    op == Acquire(name, id) || ((op.Rename? || op.CutRename?) && op.newName == name && op.id == id)
  }

  predicate Owns(o: Owners, name: string, id: string) { name in o && o[name] == id }

  // ----- what every step and every run keeps -----

  /** A container that owns a name loses it only by giving it up itself. */
  lemma OnlyOwnerGivesUp(o: Owners, op: Op, name: string, id: string)
    requires id != "" && Owns(o, name, id)
    ensures !Owns(Next(o, op), name, id) <==> Succeeds(o, op) && GivesUp(op, name, id)
  {
  }

  /** While an owner does not give its name up, it keeps it and nobody else comes by it. */
  lemma {:induction false} OwnerKeeps(o: Owners, ops: seq<Op>, name: string, id: string)
    requires id != "" && Owns(o, name, id)
    requires forall i :: 0 <= i < |ops| ==> !GivesUp(ops[i], name, id)
    ensures Owns(Run(o, ops), name, id)
    ensures forall i, other :: 0 <= i < |ops| && Takes(ops[i], name, other) && other != id ==>
      !Succeeds(Run(o, ops[..i]), ops[i])
  {
    if ops != [] {
      var before, last := ops[..|ops| - 1], ops[|ops| - 1];
      OwnerKeeps(o, before, name, id);
      OnlyOwnerGivesUp(Run(o, before), last, name, id);
      forall i, other | 0 <= i < |ops| && Takes(ops[i], name, other) && other != id
        ensures !Succeeds(Run(o, ops[..i]), ops[i])
      {
        if i < |before| { assert ops[..i] == before[..i] && ops[i] == before[i]; }
      }
    }
  }

  lemma {:induction false} RunSplit(o: Owners, a: seq<Op>, b: seq<Op>)
    ensures Run(o, a + b) == Run(Run(o, a), b)
  {
    if b == [] {
      assert a + b == a;
    } else {
      assert (a + b)[..|a + b| - 1] == a + b[..|b| - 1];
      RunSplit(o, a, b[..|b| - 1]);
    }
  }

  /** Between two containers coming by the same name, the first has given it up. */
  lemma Exclusive(o: Owners, ops: seq<Op>, name: string, i: nat, first: string, j: nat, second: string)
    requires i < j < |ops| && first != "" && first != second
    requires Takes(ops[i], name, first) && Succeeds(Run(o, ops[..i]), ops[i])
    requires Takes(ops[j], name, second) && Succeeds(Run(o, ops[..j]), ops[j])
    ensures exists k :: i < k < j && GivesUp(ops[k], name, first)
  {
    var after := Run(o, ops[..i + 1]);
    assert ops[..i + 1][..i] == ops[..i];
    assert Owns(after, name, first);
    var between := ops[i + 1..j + 1];
    if forall k :: i < k < j ==> !GivesUp(ops[k], name, first) {
      assert forall k :: 0 <= k < |between| ==> between[k] == ops[i + 1 + k];
      OwnerKeeps(after, between, name, first);
      assert ops[..j] == ops[..i + 1] + between[..j - i - 1];
      RunSplit(o, ops[..i + 1], between[..j - i - 1]);
      assert false;
    }
  }

  function Held(o: Owners, id: string): set<string> { set n | n in o && o[n] == id }

  /** Renaming trades one name for one other; nobody's number of names changes. */
  lemma RenameTradesOne(o: Owners, oldName: string, id: string, newName: string, other: string)
    requires Succeeds(o, Rename(oldName, id, newName))
    ensures var o' := Next(o, Rename(oldName, id, newName));
      && Held(o', other) == (if other == id then Held(o, id) - {oldName} + {newName} else Held(o, other))
      && |Held(o', other)| == |Held(o, other)|
  {
    var o' := Next(o, Rename(oldName, id, newName));
    assert Held(o', other) == if other == id then Held(o, id) - {oldName} + {newName} else Held(o, other);
  }

  /** A rename cut before its deletion leaves both names with the one owner, safe from everybody else,
      and releasing the old name completes it. */
  lemma CutRenameIsSafe(o: Owners, oldName: string, id: string, newName: string)
    requires Succeeds(o, CutRename(oldName, id, newName)) && Storable(oldName)
    ensures var cut := Next(o, CutRename(oldName, id, newName));
      && Owns(cut, oldName, id) && Owns(cut, newName, id)
      && (forall other :: other != id && id != "" ==>
            !Succeeds(cut, Acquire(oldName, other)) && !Succeeds(cut, Acquire(newName, other)))
      && Succeeds(cut, Release(oldName, id))
      && Next(cut, Release(oldName, id)) == Next(o, Rename(oldName, id, newName))
  {
  }

  /** Names that nobody owns, or that an empty ID owns, are anybody's. */
  lemma FreeToAcquire(o: Owners, name: string, id: string)
    requires Storable(name)
    ensures Succeeds(o, Acquire(name, id)) <==> name !in o || o[name] == "" || o[name] == id
    ensures Succeeds(o, Acquire(name, id)) ==> Owns(Next(o, Acquire(name, id)), name, id)
  {
  }

  // ----- the store behind the names -----

  /** The name store keeps one file a name, directly under its root. */
  ghost predicate Flat(tree: Tree) {
    forall k :: k in tree ==> |k| == 1 && tree[k].Leaf? && ValidKey(k)
  }

  function NamesIn(tree: Tree): set<string> { set k | k in tree && |k| == 1 :: k[0] }

  lemma NamesInIff(tree: Tree, name: string)
    ensures name in NamesIn(tree) <==> [name] in tree
  {
    if name in NamesIn(tree) {
      var k :| k in tree && |k| == 1 && k[0] == name;
      assert k == [name];
    }
    assert [name] in tree ==> [name][0] in NamesIn(tree);
  }

  ghost function OwnersOf(tree: Tree): Owners {
    map n | n in NamesIn(tree) && [n] in tree && tree[[n]].Leaf? :: tree[[n]].data
  }

  lemma OwnersAt(tree: Tree, name: string)
    requires Flat(tree)
    ensures name in OwnersOf(tree) <==> [name] in tree
    ensures [name] in tree ==> tree[[name]] == Leaf(OwnersOf(tree)[name])
    ensures FileAt(tree, [name]) == if name in OwnersOf(tree) then Some(OwnersOf(tree)[name]) else None
    ensures Stat(tree, [name]) == if [name] in tree then Found(tree[[name]]) else Missing
  {
    assert Parent([name]) == [];
    NamesInIff(tree, name);
  }

  lemma FlatWrite(tree: Tree, name: string, data: Bytes)
    requires Flat(tree) && ValidKey([name])
    ensures Flat(tree[[name] := Leaf(data)])
  {
  }

  lemma OwnersWrite(tree: Tree, name: string, data: Bytes, n: string)
    requires Flat(tree) && ValidKey([name])
    ensures var u, o := tree[[name] := Leaf(data)], OwnersOf(tree)[name := data];
      (n in OwnersOf(u) <==> n in o) && (n in o ==> OwnersOf(u)[n] == o[n])
  {
    var u := tree[[name] := Leaf(data)];
    FlatWrite(tree, name, data);
    OwnersAt(tree, n);
    OwnersAt(u, n);
    assert [n][0] == n && [name][0] == name;
  }

  lemma OwnersWritten(tree: Tree, name: string, data: Bytes)
    requires Flat(tree) && ValidKey([name])
    ensures OwnersOf(tree[[name] := Leaf(data)]) == OwnersOf(tree)[name := data]
  {
    var u, o := OwnersOf(tree[[name] := Leaf(data)]), OwnersOf(tree)[name := data];
    forall n ensures (n in u <==> n in o) && (n in o ==> u[n] == o[n]) { OwnersWrite(tree, name, data, n); }
  }

  lemma WriteName(tree: Tree, name: string, data: Bytes)
    requires Flat(tree) && ValidKey([name])
    ensures Writable(tree, [name]) && !Blocked(tree, Parent([name]))
    ensures WithFile(tree, [name], data) == tree[[name] := Leaf(data)]
    ensures Flat(tree[[name] := Leaf(data)])
    ensures OwnersOf(tree[[name] := Leaf(data)]) == OwnersOf(tree)[name := data]
  {
    var k: Key := [name];
    assert Parent(k) == [];
    OwnersWritten(tree, name, data);
    FlatWrite(tree, name, data);
  }

  lemma DeleteName(tree: Tree, name: string)
    requires Flat(tree)
    ensures Flat(Without(tree, [name]))
    ensures OwnersOf(Without(tree, [name])) == OwnersOf(tree) - {name}
  {
    var k: Key := [name];
    var u := Without(tree, k);
    forall q | q in tree ensures k <= q <==> q == k { }
    forall n ensures n in OwnersOf(u) <==> n in OwnersOf(tree) && n != name {
      OwnersAt(tree, n);
      OwnersAt(u, n);
      assert [n][0] == n;
    }
    forall n | n in OwnersOf(u) ensures OwnersOf(u)[n] == OwnersOf(tree)[n] {
      OwnersAt(tree, n);
      OwnersAt(u, n);
    }
  }

  /** A rename in terms of who owns what. */
  lemma RenameNext(o: Owners, oldName: string, id: string, newName: string)
    requires Succeeds(o, Rename(oldName, id, newName))
    ensures oldName in o && oldName != newName
    ensures Next(o, Rename(oldName, id, newName)) == o[newName := id] - {oldName}
    ensures Next(o, CutRename(oldName, id, newName)) == o[newName := id]
  {
  }

  /** A name that is stored can be looked up. */
  lemma StoredIsKey(tree: Tree, name: string)
    requires WellFormed(tree) && Flat(tree) && name in OwnersOf(tree)
    ensures ValidKey([name])
  {
    OwnersAt(tree, name);
  }

  datatype NameError = BadName | Refused(fault: Fault) | AlreadyUsed(owner: string) | NotOwner(owner: string)

  /** `Died` stands for a process that was killed half way; its lock went with it. */
  datatype Answer = Done | Failed(error: NameError) | Died

  function Verdict(o: Outcome<()>): Answer {
    match o case Ok(_) => Done case Err(fault) => Failed(Refused(fault))
  }

  function TakenBy(owner: Outcome<Bytes>): Answer {
    match owner case Ok(id) => Failed(AlreadyUsed(id)) case Err(fault) => Failed(Refused(fault))
  }

  class Names {
    const store: Store

    ghost predicate Valid()
      reads this, store
    {
      store.Valid() && Flat(store.tree) && !store.locked
    }

    ghost function Owners(): Owners
      reads this, store
      requires Valid()
    {
      OwnersOf(store.tree)
    }

    constructor ()
      ensures Valid() && fresh(store) && Owners() == map[]
    {
      store := new Store();
    }

    method Acquire(name: string, id: string, written: bool) returns (r: Answer)
      requires Valid()
      modifies store
      ensures Valid()
      ensures r.Done? <==> written && Succeeds(old(Owners()), Op.Acquire(name, id))
      ensures Owners() == if r.Done? then Next(old(Owners()), Op.Acquire(name, id)) else old(Owners())
      ensures r.Done? <==>
        && written && ValidName(name) && |name| <= 255
        && (name !in old(Owners()) || old(Owners())[name] == "" || old(Owners())[name] == id)
      ensures Owners() == if r.Done? then old(Owners())[name := id] else old(Owners())
      ensures r.Failed? && r.error.AlreadyUsed? <==>
        Storable(name) && name in old(Owners()) && old(Owners())[name] != "" && old(Owners())[name] != id
    {
      if !ValidName(name) { return Failed(BadName); }
      StorableIsComponent(name);
      OwnersAt(store.tree, name);
      store.Lock();
      r := AcquireLocked(name, id, written);
      var released := store.Release();
    }

    method AcquireLocked(name: string, id: string, written: bool) returns (r: Answer)
      requires store.Valid() && Flat(store.tree) && store.locked && ValidName(name)
      requires ValidKey([name]) <==> |name| <= MAX_COMPONENT
      modifies store`tree
      ensures store.Valid() && Flat(store.tree)
      ensures r.Done? <==> written && Succeeds(old(OwnersOf(store.tree)), Op.Acquire(name, id))
      ensures OwnersOf(store.tree) ==
        if r.Done? then Next(old(OwnersOf(store.tree)), Op.Acquire(name, id)) else old(OwnersOf(store.tree))
      ensures var o := old(OwnersOf(store.tree));
        r.Failed? && r.error.AlreadyUsed? <==> Storable(name) && name in o && o[name] != "" && o[name] != id
    {
      OwnersAt(store.tree, name);
      var previous := store.Get([name]);
      if previous.Err? {
        if previous.fault != NotFound { return Failed(Refused(previous.fault)); }
      } else if previous.value == "" {
      } else if previous.value != id {
        return Failed(AlreadyUsed(previous.value));
      }
      var stored := PutName(name, id, written);
      if stored.Err? { return Failed(Refused(stored.fault)); }
      r := Done;
    }

    /** Writing the file of a name. */
    method PutName(name: string, id: string, written: bool) returns (r: Outcome<()>)
      requires store.Valid() && Flat(store.tree) && store.locked && ValidKey([name])
      modifies store`tree
      ensures store.Valid() && Flat(store.tree) && (r.Ok? <==> written)
      ensures OwnersOf(store.tree) == if r.Ok? then old(OwnersOf(store.tree))[name := id] else old(OwnersOf(store.tree))
    {
      WriteName(store.tree, name, id);
      assert Parent([name]) == [];
      r := store.Set(id, [name], written);
    }

    /** Deleting it. */
    method DropName(name: string) returns (r: Outcome<()>)
      requires store.Valid() && Flat(store.tree) && store.locked && ValidKey([name]) && name in OwnersOf(store.tree)
      modifies store`tree
      ensures store.Valid() && Flat(store.tree) && r.Ok?
      ensures OwnersOf(store.tree) == old(OwnersOf(store.tree)) - {name}
    {
      OwnersAt(store.tree, name);
      DeleteName(store.tree, name);
      r := store.Delete([name]);
    }

    method Release(name: string, id: string) returns (r: Answer)
      requires Valid()
      modifies store
      ensures Valid()
      ensures r.Done? <==> Succeeds(old(Owners()), Op.Release(name, id))
      ensures Owners() == Next(old(Owners()), Op.Release(name, id))
      ensures r.Done? <==> ValidName(name) && |name| <= 255 && name in old(Owners()) && old(Owners())[name] == id
      ensures Owners() == if r.Done? then old(Owners()) - {name} else old(Owners())
      ensures r == Failed(Refused(NotFound)) <==> Storable(name) && name !in old(Owners())
    {
      if !ValidName(name) { return Failed(BadName); }
      StorableIsComponent(name);
      OwnersAt(store.tree, name);
      DeleteName(store.tree, name);
      store.Lock();
      var content := store.Get([name]);
      if content.Err? {
        r := Failed(Refused(content.fault));
      } else if content.value != id {
        r := Failed(NotOwner(content.value));
      } else {
        var deleted := store.Delete([name]);
        r := Verdict(deleted);
      }
      var released := store.Release();
    }

    /** `Rename`; `written` says whether the disk accepts the new name's file, `killed` whether the
        process dies between writing it and deleting the old one. */
    method Rename(oldName: string, id: string, newName: string, written: bool, killed: bool) returns (r: Answer)
      requires Valid()
      modifies store
      ensures Valid()
      ensures r.Done? <==> written && !killed && Succeeds(old(Owners()), Op.Rename(oldName, id, newName))
      ensures r.Died? <==> written && killed && Succeeds(old(Owners()), Op.Rename(oldName, id, newName))
      ensures Owners() ==
        if r.Done? then Next(old(Owners()), Op.Rename(oldName, id, newName))
        else if r.Died? then Next(old(Owners()), CutRename(oldName, id, newName))
        else old(Owners())
      ensures r.Done? || r.Died? <==>
        && written && ValidName(newName) && |newName| <= 255 && newName !in old(Owners())
        && oldName in old(Owners()) && old(Owners())[oldName] == id
      ensures r.Done? ==> Owners() == old(Owners())[newName := id] - {oldName}
      ensures r.Died? ==> Owners() == old(Owners())[newName := id]
    {
      if !ValidName(newName) { return Failed(BadName); }
      StorableIsComponent(newName);
      store.Lock();
      r := RenameLocked(oldName, id, newName, written, killed);
      var released := store.Release();
    }

    method RenameLocked(oldName: string, id: string, newName: string, written: bool, killed: bool) returns (r: Answer)
      requires store.Valid() && Flat(store.tree) && store.locked && ValidName(newName)
      requires ValidKey([newName]) <==> |newName| <= MAX_COMPONENT
      modifies store`tree
      ensures store.Valid() && Flat(store.tree)
      ensures var o := old(OwnersOf(store.tree));
        && (r.Done? <==> written && !killed && Succeeds(o, Op.Rename(oldName, id, newName)))
        && (r.Died? <==> written && killed && Succeeds(o, Op.Rename(oldName, id, newName)))
        && OwnersOf(store.tree) ==
          if r.Done? then Next(o, Op.Rename(oldName, id, newName))
          else if r.Died? then Next(o, CutRename(oldName, id, newName))
          else o
    {
      ghost var o := OwnersOf(store.tree);
      OwnersAt(store.tree, newName);
      var doesExist := store.Exists([newName]);
      assert doesExist == if Storable(newName) then Ok(newName in o) else Err(InvalidArgument);
      if doesExist.Err? { return Failed(Refused(doesExist.fault)); }
      if doesExist.value {
        var owner := store.Get([newName]);
        return TakenBy(owner);
      }
      OwnersAt(store.tree, oldName);
      var content := store.Get([oldName]);
      assert content.Ok? <==> oldName in o;
      if content.Err? { return Failed(Refused(content.fault)); }
      assert content.value == o[oldName];
      if content.value != id { return Failed(NotOwner(content.value)); }
      RenameNext(o, oldName, id, newName);
      r := MoveLocked(oldName, content.value, newName, written, killed);
    }

    /** The two writes of a rename. */
    method MoveLocked(oldName: string, id: string, newName: string, written: bool, killed: bool) returns (r: Answer)
      requires store.Valid() && Flat(store.tree) && store.locked && ValidKey([newName])
      requires oldName in OwnersOf(store.tree) && oldName != newName
      modifies store`tree
      ensures store.Valid() && Flat(store.tree)
      ensures r.Done? <==> written && !killed
      ensures r.Died? <==> written && killed
      ensures var o := old(OwnersOf(store.tree));
        OwnersOf(store.tree) ==
          if r.Done? then o[newName := id] - {oldName} else if r.Died? then o[newName := id] else o
    {
      StoredIsKey(store.tree, oldName);
      var stored := PutName(newName, id, written);
      if stored.Err? { return Failed(Refused(stored.fault)); }
      if killed { return Died; }
      var deleted := DropName(oldName);
      r := Verdict(deleted);
    }
  }
}

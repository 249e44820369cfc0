/** `fileStore`: keys are lists of path components, values are files, groups are directories. The
    directory tree below the store's root is a map from paths to nodes; the root itself is the empty
    path. Every operation demands the lock, except `Exists`. */
module FileStore {
  import opened Strings
  import opened Paths

  type Key = seq<string>

  type Bytes = string

  datatype Node = Leaf(data: Bytes) | Group

  type Tree = map<Key, Node>

  datatype Fault = InvalidArgument | NotFound | SystemFailure | FaultyImplementation

  datatype Outcome<+T> = Ok(value: T) | Err(fault: Fault)

  // ----- keys -----

  const MAX_COMPONENT: nat := 255

  predicate IsSpace(c: char) { c in {' ', '\t', '\n', '\r', '\U{000B}', '\U{000C}'} }

  /** `filesystem.ValidatePathComponent` on unix. */
  predicate ValidComponent(c: string) {
    && |c| <= MAX_COMPONENT
    && (exists i :: 0 <= i < |c| && !IsSpace(c[i]))
    && '/' !in c && '\0' !in c
    && c != "." && c != ".."
  }

  predicate ValidComponents(key: Key) { forall c :: c in key ==> ValidComponent(c) }

  predicate ValidKey(key: Key) { key != [] && ValidComponents(key) }

  // ----- the directory tree -----

  /** Every node stands in a directory. */
  ghost predicate WellFormed(tree: Tree) {
    forall k :: k in tree ==> k != [] && (Parent(k) == [] || (Parent(k) in tree && tree[Parent(k)] == Group))
  }

  datatype Status = Found(node: Node) | Missing | UnderLeaf

  /** `os.Stat`: found, missing, or not looked up because a file stands where a directory should. */
  function Stat(tree: Tree, k: Key): Status {
    if k == [] then Found(Group)
    else
      match Stat(tree, Parent(k))
      case Found(Leaf(_)) => UnderLeaf
      case Found(Group) => if k in tree then Found(tree[k]) else Missing
      case other => other
  }

  /** The abstract value of the store: the file at each key. */
  function FileAt(tree: Tree, k: Key): Option<Bytes> {
    if k in tree && tree[k].Leaf? then Some(tree[k].data) else None
  }

  predicate IsPrefix(p: Key, k: Key) { p <= k }

  lemma ParentPrefix(p: Key, k: Key)
    requires k != []
    ensures p <= k <==> p <= Parent(k) || p == k
  {
    if p <= k && |p| < |k| { assert p == k[..|p|] == Parent(k)[..|p|]; }
    if p <= Parent(k) { assert p == Parent(k)[..|p|] == k[..|p|]; }
  }

  /** In a well-formed tree looking a key up is finding it in the map. */
  lemma {:induction false} StatFinds(tree: Tree, k: Key)
    requires WellFormed(tree) && k != []
    ensures k in tree <==> Stat(tree, k) == Found(if k in tree then tree[k] else Group)
    ensures k !in tree ==> !Stat(tree, k).Found?
  {
    if Parent(k) != [] { StatFinds(tree, Parent(k)); }
  }

  /** No stored key is a proper prefix of another: what stands above a node is a group. */
  lemma {:induction false} PrefixIsGroup(tree: Tree, p: Key, k: Key)
    requires WellFormed(tree) && k in tree && p < k && p != []
    ensures p in tree && tree[p] == Group
  {
    ParentPrefix(p, k);
    if p != Parent(k) { PrefixIsGroup(tree, p, Parent(k)); }
  }

  // ----- operations on trees -----

  /** `os.MkdirAll`: groups at every prefix that is not there yet. */
  function MkdirAll(tree: Tree, k: Key): Tree {
    if k == [] then tree
    else
      var up := MkdirAll(tree, Parent(k));
      if k in up then up else up[k := Group]
  }

  /** Something that is not a directory is in the way. */
  predicate Blocked(tree: Tree, k: Key) {
    Stat(tree, k).UnderLeaf? || (Stat(tree, k).Found? && Stat(tree, k).node.Leaf?)
  }

  predicate IsFile(tree: Tree, k: Key) { k in tree && tree[k].Leaf? }

  function Without(tree: Tree, k: Key): Tree {
    map q | q in tree && !IsPrefix(k, q) :: tree[q]
  }

  /** What `MkdirAll` adds: the prefixes of the key, as groups, and nothing else. */
  lemma {:induction false} MkdirAllAdds(tree: Tree, k: Key, q: Key)
    ensures q in MkdirAll(tree, k) <==> q in tree || (q != [] && q <= k)
    ensures q in MkdirAll(tree, k) ==> MkdirAll(tree, k)[q] == if q in tree then tree[q] else Group
  {
    if k != [] {
      ParentPrefix(q, k);
      MkdirAllAdds(tree, Parent(k), q);
    } else {
      assert q <= [] <==> q == [];
    }
  }

  lemma {:induction false} BlockedParent(tree: Tree, k: Key)
    requires k != [] && !Blocked(tree, k)
    ensures !Blocked(tree, Parent(k))
  {
  }

  lemma {:induction false} MkdirAllWellFormed(tree: Tree, k: Key)
    requires WellFormed(tree) && !Blocked(tree, k)
    ensures WellFormed(MkdirAll(tree, k))
    ensures k != [] ==> k in MkdirAll(tree, k) && MkdirAll(tree, k)[k] == Group
  {
    if k != [] {
      BlockedParent(tree, k);
      MkdirAllWellFormed(tree, Parent(k));
      MkdirAllAdds(tree, Parent(k), k);
      ParentPrefix(k, k);
      StatFinds(tree, k);
    }
  }

  /** Writing a file where its parent is a directory and it is not one itself. */
  lemma WriteWellFormed(tree: Tree, k: Key, data: Bytes)
    requires WellFormed(tree) && k != []
    requires Parent(k) == [] || (Parent(k) in tree && tree[Parent(k)] == Group)
    requires k in tree ==> tree[k].Leaf?
    ensures WellFormed(tree[k := Leaf(data)])
  {
  }

  lemma WithoutWellFormed(tree: Tree, k: Key)
    requires WellFormed(tree) && k != []
    ensures WellFormed(Without(tree, k))
  {
    var t := Without(tree, k);
    forall q | q in t ensures q != [] && (Parent(q) == [] || (Parent(q) in t && t[Parent(q)] == Group)) {
      ParentPrefix(k, q);
    }
  }

  // ----- the store as a map from keys to files -----

  function WithFile(tree: Tree, k: Key, data: Bytes): Tree {
    MkdirAll(tree, Parent(k))[k := Leaf(data)]
  }

  /** A file can be written at a key unless a file stands above it or a group stands at it. */
  predicate Writable(tree: Tree, k: Key) {
    !Blocked(tree, Parent(k)) && (k in tree ==> tree[k].Leaf?)
  }

  /** Writing a key changes that key's file and no other, and keeps the tree well formed. */
  lemma WriteAffectsOneKey(tree: Tree, k: Key, data: Bytes, q: Key)
    requires WellFormed(tree) && k != [] && Writable(tree, k)
    ensures WellFormed(WithFile(tree, k, data))
    ensures FileAt(WithFile(tree, k, data), q) == if q == k then Some(data) else FileAt(tree, q)
    ensures q in WithFile(tree, k, data) <==> q in tree || (q != [] && q <= k)
  {
    MkdirAllWellFormed(tree, Parent(k));
    MkdirAllAdds(tree, Parent(k), k);
    MkdirAllAdds(tree, Parent(k), q);
    ParentPrefix(q, k);
    ParentPrefix(k, k);
    WriteWellFormed(MkdirAll(tree, Parent(k)), k, data);
  }

  /** Adding groups changes no file. */
  lemma MkdirAllKeepsFiles(tree: Tree, k: Key, q: Key)
    ensures FileAt(MkdirAll(tree, k), q) == FileAt(tree, q)
  {
    MkdirAllAdds(tree, k, q);
  }

  /** Deleting a key deletes exactly the subtree at the key. */
  lemma DeleteAffectsSubtree(tree: Tree, k: Key, q: Key)
    requires WellFormed(tree) && k != []
    ensures WellFormed(Without(tree, k))
    ensures FileAt(Without(tree, k), q) == if k <= q then None else FileAt(tree, q)
    ensures Without(tree, k).Keys == tree.Keys - Subtree(tree, k)
  {
    WithoutWellFormed(tree, k);
  }

  function Children(tree: Tree, k: Key): set<string> {
    set q | q in tree && q != [] && Parent(q) == k :: q[|q| - 1]
  }

  lemma ChildIff(tree: Tree, k: Key, c: string)
    ensures c in Children(tree, k) <==> k + [c] in tree
  {
    assert Parent(k + [c]) == k;
    if c in Children(tree, k) {
      var q :| q in tree && q != [] && Parent(q) == k && q[|q| - 1] == c;
      assert q == k + [c];
    }
  }

  // ----- sizes -----

  function SizeOf(n: Node): nat { if n.Leaf? then |n.data| else 0 }

  function Subtree(tree: Tree, k: Key): set<Key> { set q | q in tree && k <= q }

  /** The combined size of the files among some keys. */
  ghost function Total(tree: Tree, ks: set<Key>): nat
    requires ks <= tree.Keys
  {
    if ks == {} then 0
    else
      var k :| k in ks;
      SizeOf(tree[k]) + Total(tree, ks - {k})
  }

  /** The total does not depend on the order in which the files are visited. */
  lemma {:induction false} TotalPick(tree: Tree, ks: set<Key>, k: Key)
    requires ks <= tree.Keys && k in ks
    ensures Total(tree, ks) == SizeOf(tree[k]) + Total(tree, ks - {k})
    decreases ks
  {
    var j: Key :| j in ks && Total(tree, ks) == SizeOf(tree[j]) + Total(tree, ks - {j});
    if j != k {
      TotalPick(tree, ks - {j}, k);
      TotalPick(tree, ks - {k}, j);
      assert ks - {j} - {k} == ks - {k} - {j};
    }
  }

  lemma {:induction false} TotalUnion(tree: Tree, a: set<Key>, b: set<Key>)
    requires a <= tree.Keys && b <= tree.Keys && a !! b
    ensures Total(tree, a + b) == Total(tree, a) + Total(tree, b)
    decreases a
  {
    if a == {} {
      assert a + b == b;
    } else {
      var k :| k in a;
      TotalPick(tree, a, k);
      TotalPick(tree, a + b, k);
      assert a + b - {k} == (a - {k}) + b;
      TotalUnion(tree, a - {k}, b);
    }
  }

  /** Totals over keys whose nodes are the same in both trees agree. */
  lemma {:induction false} TotalSame(t: Tree, u: Tree, ks: set<Key>)
    requires ks <= t.Keys && ks <= u.Keys && forall k :: k in ks ==> SizeOf(t[k]) == SizeOf(u[k])
    ensures Total(t, ks) == Total(u, ks)
    decreases ks
  {
    if ks != {} {
      var k :| k in ks;
      TotalPick(t, ks, k);
      TotalPick(u, ks, k);
      TotalSame(t, u, ks - {k});
    }
  }

  lemma {:induction false} TotalZero(t: Tree, ks: set<Key>)
    requires ks <= t.Keys && forall k :: k in ks ==> SizeOf(t[k]) == 0
    ensures Total(t, ks) == 0
    decreases ks
  {
    if ks != {} {
      var k :| k in ks;
      TotalPick(t, ks, k);
      TotalZero(t, ks - {k});
    }
  }

  /** The size of a group is its own (nothing) and that of its children. */
  ghost function TotalOfChildren(tree: Tree, k: Key, cs: set<string>): nat {
    if cs == {} then 0
    else
      var c :| c in cs;
      Total(tree, Subtree(tree, k + [c])) + TotalOfChildren(tree, k, cs - {c})
  }

  function Below(tree: Tree, k: Key, cs: set<string>): set<Key> {
    set q | q in tree && k < q && q[|k|] in cs
  }

  lemma {:induction false} ChildrenPartition(tree: Tree, k: Key, cs: set<string>)
    ensures Below(tree, k, cs) <= tree.Keys
    ensures Total(tree, Below(tree, k, cs)) == TotalOfChildren(tree, k, cs)
    decreases cs
  {
    if cs == {} {
      assert Below(tree, k, cs) == {};
    } else {
      var c :| c in cs && TotalOfChildren(tree, k, cs) ==
        Total(tree, Subtree(tree, k + [c])) + TotalOfChildren(tree, k, cs - {c});
      ChildrenPartition(tree, k, cs - {c});
      forall q | q in tree ensures k + [c] <= q <==> k < q && q[|k|] == c {
        if k < q && q[|k|] == c { assert q[..|k| + 1] == k + [c]; }
      }
      assert Below(tree, k, cs) == Subtree(tree, k + [c]) + Below(tree, k, cs - {c});
      TotalUnion(tree, Subtree(tree, k + [c]), Below(tree, k, cs - {c}));
    }
  }

  lemma ChildAbove(tree: Tree, k: Key, q: Key)
    requires WellFormed(tree) && q in tree && k < q
    ensures q[|k|] in Children(tree, k)
  {
    var c := q[|k|];
    assert q[..|k| + 1] == k + [c];
    if k + [c] != q { PrefixIsGroup(tree, k + [c], q); }
    ChildIff(tree, k, c);
  }

  lemma SubtreeParts(tree: Tree, k: Key, self: set<Key>, below: set<Key>)
    requires [] !in tree && self == (if k == [] then {} else {k}) && (k == [] || k in tree)
    requires below == set q | q in tree && k < q && q[|k|] in Children(tree, k)
    requires forall q :: q in tree && k < q ==> q[|k|] in Children(tree, k)
    ensures Subtree(tree, k) == self + below && self !! below
  {
    forall q | q in tree ensures q in Subtree(tree, k) <==> q in self || q in below {
      if k <= q && |q| == |k| { assert q == k; }
    }
  }

  /** A group's size is the sum of its immediate children's sizes. */
  lemma SizeIsSumOfChildren(tree: Tree, k: Key)
    requires WellFormed(tree) && (k == [] || (k in tree && tree[k] == Group))
    ensures Total(tree, Subtree(tree, k)) == TotalOfChildren(tree, k, Children(tree, k))
  {
    var below := Below(tree, k, Children(tree, k));
    forall q | q in tree && k < q ensures q[|k|] in Children(tree, k) { ChildAbove(tree, k, q); }
    var self: set<Key> := if k == [] then {} else {k};
    SubtreeParts(tree, k, self, below);
    ChildrenPartition(tree, k, Children(tree, k));
    TotalZero(tree, self);
    TotalUnion(tree, self, below);
  }

  /** Writing a file changes the size of a group above it by what the file grows or shrinks. */
  lemma SizeAfterWrite(tree: Tree, k: Key, data: Bytes, g: Key)
    requires WellFormed(tree) && k != [] && Writable(tree, k) && g <= k
    ensures var before := if k in tree then SizeOf(tree[k]) else 0;
      Total(WithFile(tree, k, data), Subtree(WithFile(tree, k, data), g)) + before
        == Total(tree, Subtree(tree, g)) + |data|
  {
    var u := WithFile(tree, k, data);
    forall q { WriteAffectsOneKey(tree, k, data, q); }
    var kept := Subtree(tree, g) - {k};
    var made := set q | q in u && g <= q && q !in tree && q != k;
    forall q | q in made ensures SizeOf(u[q]) == 0 {
      assert FileAt(u, q) == FileAt(tree, q) == None;
    }
    forall q | q in kept ensures SizeOf(u[q]) == SizeOf(tree[q]) {
      assert FileAt(u, q) == FileAt(tree, q);
    }
    TotalZero(u, made);
    TotalSame(tree, u, kept);
    assert Subtree(u, g) - {k} == kept + made;
    TotalUnion(u, kept, made);
    TotalPick(u, Subtree(u, g), k);
    assert FileAt(u, k) == Some(data);
    if k in tree { TotalPick(tree, Subtree(tree, g), k); } else { assert kept == Subtree(tree, g); }
  }

  /** Deleting a subtree takes exactly its size off every group above it. */
  lemma SizeAfterDelete(tree: Tree, k: Key, g: Key)
    requires g <= k
    ensures Total(Without(tree, k), Subtree(Without(tree, k), g)) + Total(tree, Subtree(tree, k))
      == Total(tree, Subtree(tree, g))
  {
    var rest := Subtree(Without(tree, k), g);
    forall q | q in tree && k <= q ensures g <= q { assert q[..|g|] == k[..|g|]; }
    assert Subtree(tree, g) == rest + Subtree(tree, k);
    TotalUnion(tree, rest, Subtree(tree, k));
    TotalSame(Without(tree, k), tree, rest);
  }

  // ----- what the errors mean -----

  /** A key is blocked by a file at the key or above it, and by nothing else: a group that is not there
      yet is no obstacle. */
  lemma {:induction false} BlockedIff(tree: Tree, k: Key)
    requires WellFormed(tree)
    ensures Blocked(tree, k) <==> exists i :: 0 < i <= |k| && IsFile(tree, k[..i])
  {
    if i :| 0 < i <= |k| && IsFile(tree, k[..i]) {
      BlockedAt(tree, k, i);
    }
    if k != [] && Blocked(tree, k) {
      BlockedIff(tree, Parent(k));
      StatFinds(tree, k);
      if Blocked(tree, Parent(k)) {
        var i :| 0 < i <= |Parent(k)| && IsFile(tree, Parent(k)[..i]);
        assert Parent(k)[..i] == k[..i];
      } else {
        assert k[..|k|] == k && IsFile(tree, k[..|k|]);
      }
    }
  }

  lemma BlockedParentIff(tree: Tree, k: Key)
    requires WellFormed(tree) && k != []
    ensures Blocked(tree, Parent(k)) <==> exists i :: 0 < i < |k| && IsFile(tree, k[..i])
  {
    BlockedIff(tree, Parent(k));
    if i :| 0 < i < |k| && IsFile(tree, k[..i]) { assert Parent(k)[..i] == k[..i]; }
    if i :| 0 < i <= |Parent(k)| && IsFile(tree, Parent(k)[..i]) { assert Parent(k)[..i] == k[..i]; }
  }

  /** Looking a key up: it is there, or a file stands above it, or it is missing. */
  lemma StatMeans(tree: Tree, k: Key)
    requires WellFormed(tree) && k != []
    ensures Stat(tree, k).Found? <==> k in tree
    ensures k in tree ==> Stat(tree, k).node == tree[k]
    ensures Stat(tree, k).UnderLeaf? <==> exists i :: 0 < i < |k| && IsFile(tree, k[..i])
  {
    StatFinds(tree, k);
    BlockedParentIff(tree, k);
  }

  /** A name of up to 255 characters can be part of a key unless it is a dot or two or holds a slash or a
      zero character; blank ones cannot. */
  lemma ComponentsAreNames(c: string)
    ensures c != "" && c[0] !in {' ', '\t', '\n', '\r', '\U{000B}', '\U{000C}'} ==>
      (ValidComponent(c) <==> |c| <= 255 && '/' !in c && '\0' !in c && c != "." && c != "..")
    ensures (forall i :: 0 <= i < |c| ==> c[i] in {' ', '\t', '\n', '\r', '\U{000B}', '\U{000C}'})
      ==> !ValidComponent(c)
  {
    if c != "" { assert IsSpace(c[0]) <==> c[0] in {' ', '\t', '\n', '\r', '\U{000B}', '\U{000C}'}; }
  }

  // ----- the store -----

  lemma {:induction false} MkdirAllPresent(tree: Tree, k: Key)
    requires WellFormed(tree) && (k == [] || k in tree)
    ensures MkdirAll(tree, k) == tree
  {
    if k != [] { MkdirAllPresent(tree, Parent(k)); }
  }

  /** A file at a prefix of the key is what blocks the key. */
  lemma {:induction false} BlockedAt(tree: Tree, k: Key, i: nat)
    requires WellFormed(tree) && 0 < i <= |k| && k[..i] in tree && tree[k[..i]].Leaf?
    ensures Blocked(tree, k)
    decreases |k|
  {
    StatFinds(tree, k[..i]);
    if i < |k| {
      assert Parent(k)[..i] == k[..i];
      BlockedAt(tree, Parent(k), i);
    } else {
      assert k[..i] == k;
    }
  }

  method ValidateAll(key: Key) returns (ok: bool)
    ensures ok == ValidKey(key)
    ensures ok <==> |key| > 0 && forall i :: 0 <= i < |key| ==> ValidComponent(key[i])
  {
    if |key| == 0 { return false; }
    for i := 0 to |key|
      invariant forall j :: 0 <= j < i ==> ValidComponent(key[j])
    {
      if !ValidComponent(key[i]) {
        assert key[i] in key;
        return false;
      }
    }
    ok := true;
  }

  class Store {
    var locked: bool
    var tree: Tree

    ghost predicate Valid()
      reads this
    {
      WellFormed(tree)
    }

    constructor ()
      ensures Valid() && !locked && tree == map[]
    {
      locked := false;
      tree := map[];
    }

    /** A caller that finds the lock taken waits; it goes on when the lock is free. */
    method Lock()
      requires !locked
      modifies this`locked
      ensures locked
    {
      locked := true;
    }

    method Release() returns (r: Outcome<()>)
      modifies this`locked
      ensures r == if old(locked) then Ok(()) else Err(FaultyImplementation)
      ensures !locked
    {
      if !locked { return Err(FaultyImplementation); }
      locked := false;
      r := Ok(());
    }

    method Get(key: Key) returns (r: Outcome<Bytes>)
      requires Valid()
      ensures !locked ==> r == Err(FaultyImplementation)
      ensures locked && !ValidKey(key) ==> r == Err(InvalidArgument)
      ensures locked && ValidKey(key) ==>
        && (r.Ok? <==> FileAt(tree, key).Some?) && (r.Ok? ==> FileAt(tree, key) == Some(r.value))
        && (r == Err(FaultyImplementation) <==> key in tree && tree[key] == Group)
        && (r == Err(SystemFailure) <==> Stat(tree, key).UnderLeaf?)
        && (r == Err(NotFound) <==> Stat(tree, key).Missing?)
        && r != Err(InvalidArgument)
    {
      if !locked { return Err(FaultyImplementation); }
      var valid := ValidateAll(key);
      if !valid { return Err(InvalidArgument); }
      StatFinds(tree, key);
      match Stat(tree, key)
      case Missing => r := Err(NotFound);
      case UnderLeaf => r := Err(SystemFailure);
      case Found(Group) => r := Err(FaultyImplementation);
      case Found(Leaf(data)) => r := Ok(data);
    }

    method Exists(key: Key) returns (r: Outcome<bool>)
      requires Valid()
      ensures !ValidKey(key) ==> r == Err(InvalidArgument)
      ensures ValidKey(key) ==>
        r == if Stat(tree, key).UnderLeaf? then Err(SystemFailure) else Ok(key in tree)
    {
      var valid := ValidateAll(key);
      if !valid { return Err(InvalidArgument); }
      StatFinds(tree, key);
      match Stat(tree, key)
      case Missing => r := Ok(false);
      case UnderLeaf => r := Err(SystemFailure);
      case Found(_) => r := Ok(true);
    }

    /** `os.MkdirAll` on the store's directory. */
    method MakeDirectories(key: Key) returns (ok: bool)
      requires Valid()
      modifies this`tree
      ensures Valid()
      ensures ok == !Blocked(old(tree), key)
      ensures tree == if ok then MkdirAll(old(tree), key) else old(tree)
    {
      for i := 0 to |key|
        invariant tree == MkdirAll(old(tree), key[..i])
        invariant !Blocked(old(tree), key[..i])
      {
        var p := key[..i + 1];
        assert Parent(p) == key[..i];
        MkdirAllAdds(old(tree), key[..i], p);
        if p in tree {
          if tree[p].Leaf? {
            BlockedAt(old(tree), key, i + 1);
            MkdirAllPresent(old(tree), key[..i]);
            return false;
          }
        } else {
          tree := tree[p := Group];
        }
        StatFinds(old(tree), p);
        assert !Blocked(old(tree), p);
      }
      assert key[..|key|] == key;
      MkdirAllWellFormed(old(tree), key);
      ok := true;
    }

    /** `Set`; `written` says whether the disk accepts the new file. The write is atomic: a refused one
        leaves at most empty groups behind. */
    method Set(data: Bytes, key: Key, written: bool) returns (r: Outcome<()>)
      requires Valid()
      modifies this`tree
      ensures Valid()
      ensures !locked ==> r == Err(FaultyImplementation)
      ensures locked && !ValidKey(key) ==> r == Err(InvalidArgument)
      ensures locked && ValidKey(key) ==>
        r == if exists i :: 0 < i < |key| && IsFile(old(tree), key[..i]) then Err(SystemFailure)
             else if key in old(tree) && old(tree)[key] == Group then Err(FaultyImplementation)
             else if !written then Err(SystemFailure)
             else Ok(())
      ensures r.Ok? ==> tree == WithFile(old(tree), key, data)
      ensures r.Ok? ==> forall q :: FileAt(tree, q) == if q == key then Some(data) else FileAt(old(tree), q)
      ensures r.Err? ==> forall q :: FileAt(tree, q) == FileAt(old(tree), q)
      ensures r.Err? ==> tree == old(tree) || (!written && tree == MkdirAll(old(tree), Parent(key)))
    {
      if !locked { return Err(FaultyImplementation); }
      var valid := ValidateAll(key);
      if !valid { return Err(InvalidArgument); }
      var parent := Parent(key);
      StatFinds(tree, key);
      BlockedParentIff(tree, key);
      if |key| > 1 {
        var made := MakeDirectories(parent);
        if !made { return Err(SystemFailure); }
      }
      assert tree == MkdirAll(old(tree), parent);
      forall q ensures FileAt(tree, q) == FileAt(old(tree), q) { MkdirAllKeepsFiles(old(tree), parent, q); }
      MkdirAllAdds(old(tree), parent, key);
      ParentPrefix(key, key);
      if key in tree && tree[key] == Group {
        MkdirAllPresent(old(tree), parent);
        return Err(FaultyImplementation);
      }
      if !written { return Err(SystemFailure); }
      forall q { WriteAffectsOneKey(old(tree), key, data, q); }
      tree := tree[key := Leaf(data)];
      r := Ok(());
    }

    /** `Delete`, of a file or of a group with everything in it. */
    method Delete(key: Key) returns (r: Outcome<()>)
      requires Valid()
      modifies this`tree
      ensures Valid()
      ensures !locked ==> r == Err(FaultyImplementation)
      ensures locked && !ValidKey(key) ==> r == Err(InvalidArgument)
      ensures locked && ValidKey(key) ==>
        r == if Stat(old(tree), key).UnderLeaf? then Err(SystemFailure)
             else if key !in old(tree) then Err(NotFound)
             else Ok(())
      ensures tree == if r.Ok? then Without(old(tree), key) else old(tree)
    {
      if !locked { return Err(FaultyImplementation); }
      var valid := ValidateAll(key);
      if !valid { return Err(InvalidArgument); }
      StatFinds(tree, key);
      match Stat(tree, key)
      case Missing => return Err(NotFound);
      case UnderLeaf => return Err(SystemFailure);
      case Found(_) =>
      WithoutWellFormed(tree, key);
      tree := Without(tree, key);
      r := Ok(());
    }

    /** `List`: the names of a group's immediate children, each once. The empty key lists the root. */
    method List(key: Key) returns (r: Outcome<seq<string>>)
      requires Valid()
      ensures !locked ==> r == Err(FaultyImplementation)
      ensures locked && !ValidComponents(key) ==> r == Err(InvalidArgument)
      ensures locked && ValidComponents(key) ==>
        match Stat(tree, key)
        case Missing => r == Err(NotFound)
        case UnderLeaf => r == Err(SystemFailure)
        case Found(Leaf(_)) => r == Err(FaultyImplementation)
        case Found(Group) =>
          && r.Ok?
          && (forall c :: c in r.value <==> key + [c] in tree)
          && (forall i, j :: 0 <= i < j < |r.value| ==> r.value[i] != r.value[j])
    {
      if !locked { return Err(FaultyImplementation); }
      for i := 0 to |key|
        invariant forall j :: 0 <= j < i ==> ValidComponent(key[j])
      {
        if !ValidComponent(key[i]) {
          assert key[i] in key;
          return Err(InvalidArgument);
        }
      }
      match Stat(tree, key)
      case Missing => return Err(NotFound);
      case UnderLeaf => return Err(SystemFailure);
      case Found(Leaf(_)) => return Err(FaultyImplementation);
      case Found(Group) =>
      var todo := Children(tree, key);
      var entries: seq<string> := [];
      while todo != {}
        invariant todo <= Children(tree, key)
        invariant forall c :: c in entries <==> c in Children(tree, key) && c !in todo
        invariant forall i, j :: 0 <= i < j < |entries| ==> entries[i] != entries[j]
        decreases todo
      {
        var c :| c in todo;
        entries := entries + [c];
        todo := todo - {c};
      }
      forall c ensures c in entries <==> key + [c] in tree { ChildIff(tree, key, c); }
      r := Ok(entries);
    }

    /** `GroupEnsure`. */
    method GroupEnsure(key: Key) returns (r: Outcome<()>)
      requires Valid()
      modifies this`tree
      ensures Valid()
      ensures !locked ==> r == Err(FaultyImplementation)
      ensures locked && !ValidKey(key) ==> r == Err(InvalidArgument)
      ensures locked && ValidKey(key) ==>
        r == if exists i :: 0 < i <= |key| && IsFile(old(tree), key[..i]) then Err(SystemFailure) else Ok(())
      ensures tree == if r.Ok? then MkdirAll(old(tree), key) else old(tree)
      ensures r.Ok? ==> forall q :: q in tree <==> q in old(tree) || (q != [] && q <= key)
      ensures forall q :: q in old(tree) ==> q in tree && tree[q] == old(tree)[q]
    {
      if !locked { return Err(FaultyImplementation); }
      var valid := ValidateAll(key);
      if !valid { return Err(InvalidArgument); }
      BlockedIff(tree, key);
      forall q { MkdirAllAdds(tree, key, q); }
      var made := MakeDirectories(key);
      r := if made then Ok(()) else Err(SystemFailure);
    }

    /** `GroupSize`: the files below a group are visited one by one, in whatever order. */
    method GroupSize(key: Key) returns (r: Outcome<nat>)
      requires Valid()
      ensures !locked ==> r == Err(FaultyImplementation)
      ensures locked && !ValidKey(key) ==> r == Err(InvalidArgument)
      ensures locked && ValidKey(key) ==>
        match Stat(tree, key)
        case Missing => r == Err(NotFound)
        case UnderLeaf => r == Err(SystemFailure)
        case Found(Leaf(_)) => r == Err(FaultyImplementation)
        case Found(Group) => r == Ok(Total(tree, Subtree(tree, key)))
    {
      if !locked { return Err(FaultyImplementation); }
      var valid := ValidateAll(key);
      if !valid { return Err(InvalidArgument); }
      match Stat(tree, key)
      case Missing => return Err(NotFound);
      case UnderLeaf => return Err(SystemFailure);
      case Found(Leaf(_)) => return Err(FaultyImplementation);
      case Found(Group) =>
      var size := 0;
      var todo := Subtree(tree, key);
      while todo != {}
        invariant todo <= Subtree(tree, key)
        invariant size + Total(tree, todo) == Total(tree, Subtree(tree, key))
        decreases todo
      {
        var q :| q in todo;
        TotalPick(tree, todo, q);
        if tree[q].Leaf? { size := size + |tree[q].data|; }
        todo := todo - {q};
      }
      r := Ok(size);
    }
  }
}

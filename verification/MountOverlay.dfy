/** Where a path inside a container lives on the host: the root filesystem overlaid by the
    container's mounts (`pathOnHost` and `getMount`). The code scans the mounts keeping the longest
    destination string seen so far; the specification climbs from the path towards the root and
    takes the first mount point it meets. */
module MountOverlay {
  import opened Strings
  import opened Paths

  datatype Mount = Mount(destination: string, source: string, options: seq<string>)

  /** A resolver never changes once built. */
  datatype Resolver = Resolver(rootReadonly: bool, mounts: seq<Mount>, hostRoot: string)

  datatype Locator = Locator(containerPath: string, hostPath: string, readonly: bool)

  function IsParent(child: seq<string>, candidate: seq<string>): (bool, seq<string>) {
    if |child| < |candidate| then (false, child)
    else (child[..|candidate|] == candidate, child[|candidate|..])
  }

  // ----- specification -----

  /** The mount (or the root, at `[]`) that holds a path, and the path relative to it. */
  datatype Place = Place(source: string, readonly: bool, at: seq<string>, rel: seq<string>)

  /** The first mount at exactly this destination, or the number of mounts. */
  function FirstAt(mounts: seq<Mount>, dest: string): (i: nat)
    ensures i <= |mounts|
  {
    if mounts == [] then 0
    else if mounts[0].destination == dest then 0
    else 1 + FirstAt(mounts[1..], dest)
  }

  lemma {:induction false} FirstAtIsFirst(mounts: seq<Mount>, dest: string)
    ensures var i := FirstAt(mounts, dest);
      && (i < |mounts| ==> mounts[i].destination == dest)
      && (forall j :: 0 <= j < i ==> mounts[j].destination != dest)
  {
    if mounts != [] && mounts[0].destination != dest { FirstAtIsFirst(mounts[1..], dest); }
  }

  function Locate(res: Resolver, ns: seq<string>): Place {
    if ns == [] then Place(res.hostRoot, res.rootReadonly, [], [])
    else
      var i := FirstAt(res.mounts, AbsPath(ns));
      if i < |res.mounts| then Place(res.mounts[i].source, "ro" in res.mounts[i].options, ns, [])
      else
        var p := Locate(res, Parent(ns));
        p.(rel := p.rel + [ns[|ns| - 1]])
  }

  /** The mount point and the relative path make up the path. */
  lemma {:induction false} LocateParts(res: Resolver, ns: seq<string>)
    ensures Locate(res, ns).at + Locate(res, ns).rel == ns
    ensures Locate(res, ns).at == ns[..|Locate(res, ns).at|]
  {
    if ns != [] && FirstAt(res.mounts, AbsPath(ns)) == |res.mounts| {
      LocateParts(res, Parent(ns));
      var p := Locate(res, Parent(ns));
      Assoc(p.at, p.rel, [ns[|ns| - 1]]);
    }
  }

  lemma LocateOrdinary(res: Resolver, ns: seq<string>)
    requires AllOrdinary(ns)
    ensures AllOrdinary(Locate(res, ns).rel)
  {
    LocateParts(res, ns);
    var p := Locate(res, ns);
    forall n | n in p.rel ensures Ordinary(n) { assert n in p.at + p.rel; }
  }

  /** A place below a source directory, as a cleaned host path. */
  function Under(source: string, rel: seq<string>): string {
    if source == "" && rel == [] then ""
    else Render(Rooted(source), Norm(Rooted(source), Names(source)) + rel)
  }

  function HostPath(res: Resolver, ns: seq<string>): string {
    var p := Locate(res, ns);
    Under(p.source, p.rel)
  }

  /** A mount covers a path when its destination is one of the path's non-empty prefixes. */
  ghost predicate Covers(m: Mount, ns: seq<string>, depth: nat) {
    0 < depth <= |ns| && m.destination == AbsPath(ns[..depth])
  }

  /** The place is the one given by mount `i`, and no earlier mount has the same destination. */
  ghost predicate HeldBy(res: Resolver, ns: seq<string>, p: Place, i: nat) {
    && i < |res.mounts|
    && Covers(res.mounts[i], ns, |p.at|)
    && p.source == res.mounts[i].source
    && p.readonly == ("ro" in res.mounts[i].options)
    && (forall j :: 0 <= j < i ==> !Covers(res.mounts[j], ns, |p.at|))
  }

  lemma CoversParent(m: Mount, ns: seq<string>, d: nat)
    requires d < |ns|
    ensures Covers(m, ns, d) <==> Covers(m, Parent(ns), d)
  {
    assert Parent(ns)[..d] == ns[..d];
  }

  /** Climbing finds the deepest covering mount. */
  lemma {:induction false} LocateIsDeepest(res: Resolver, ns: seq<string>, m: Mount, d: nat)
    requires m in res.mounts && Covers(m, ns, d)
    ensures d <= |Locate(res, ns).at|
  {
    var i := FirstAt(res.mounts, AbsPath(ns));
    FirstAtIsFirst(res.mounts, AbsPath(ns));
    LocateParts(res, ns);
    assert ns[..|ns|] == ns;
    if i == |res.mounts| {
      assert d < |ns|;
      CoversParent(m, ns, d);
      LocateIsDeepest(res, Parent(ns), m, d);
    }
  }

  /** Its source and read-only option are what the place reports, and ties go to the earliest
      mount. Only when nothing covers the path is it in the root filesystem. */
  lemma {:induction false} LocateIsHeld(res: Resolver, ns: seq<string>)
    ensures var p := Locate(res, ns);
      if p.at == [] then p.source == res.hostRoot && p.readonly == res.rootReadonly
      else exists i: nat :: HeldBy(res, ns, p, i)
  {
    if ns != [] {
      var i := FirstAt(res.mounts, AbsPath(ns));
      FirstAtIsFirst(res.mounts, AbsPath(ns));
      LocateParts(res, Parent(ns));
      assert ns[..|ns|] == ns;
      var p := Locate(res, ns);
      if i < |res.mounts| {
        assert HeldBy(res, ns, p, i);
      } else {
        LocateIsHeld(res, Parent(ns));
        forall m: Mount { CoversParent(m, ns, |p.at|); }
        if p.at != [] {
          var k: nat :| HeldBy(res, Parent(ns), Locate(res, Parent(ns)), k);
          assert HeldBy(res, ns, p, k);
        }
      }
    }
  }

  // ----- the string comparisons of the scan, read on components -----

  lemma SplitAbs(ns: seq<string>)
    requires AllNames(ns)
    ensures Split(AbsPath(ns), '/') == [""] + if ns == [] then [""] else ns
  {
    SplitHead("", '/', Join(ns, '/'));
    assert AbsPath(ns) == "" + ['/'] + Join(ns, '/');
    if ns == [] { SplitOne("", '/'); } else { SplitJoin(ns, '/'); }
  }

  /** Longer prefixes print as longer strings, so comparing lengths compares depths. */
  lemma {:induction false} AbsLonger(ns: seq<string>, d: nat, e: nat)
    requires AllNames(ns) && d < e <= |ns|
    ensures |AbsPath(ns[..d])| < |AbsPath(ns[..e])|
  {
    if d + 1 < e { AbsLonger(ns, d, e - 1); }
    var c := ns[e - 1];
    assert ns[..e] == ns[..e - 1] + [c];
    assert IsName(c);
    if e > 1 { JoinSnoc(ns[..e - 1], '/', c); }
  }

  function MatchDepth(m: Mount): nat { |Split(m.destination, '/')| - 1 }

  lemma PrefixTail<T>(head: T, rest: seq<T>, cand: seq<T>)
    requires 0 < |cand| <= |rest| + 1 && ([head] + rest)[..|cand|] == cand
    ensures cand == [head] + rest[..|cand| - 1]
    ensures ([head] + rest)[|cand|..] == rest[|cand| - 1..]
  {
    assert ([head] + rest)[..|cand|] == [head] + rest[..|cand| - 1];
  }

  /** A destination that `isParent` accepts, other than the empty one and `/`, is a prefix of the path. */
  lemma ParentCovers(m: Mount, ns: seq<string>)
    requires AllNames(ns) && |m.destination| > 1
    requires IsParent(Split(AbsPath(ns), '/'), Split(m.destination, '/')).0
    ensures Covers(m, ns, MatchDepth(m))
    ensures IsParent(Split(AbsPath(ns), '/'), Split(m.destination, '/')).1 == ns[MatchDepth(m)..]
  {
    var cand := Split(m.destination, '/');
    var rest := if ns == [] then [""] else ns;
    SplitAbs(ns);
    PrefixTail("", rest, cand);
    JoinSplit(m.destination, '/');
    DestinationOf(m.destination, rest[..|cand| - 1]);
  }

  /** A destination that splits into an empty piece and then `tail` is the absolute path of `tail`. */
  lemma DestinationOf(dest: string, tail: seq<string>)
    requires dest == Join([""] + tail, '/') && |dest| > 1
    ensures tail != [] && tail != [""] && dest == AbsPath(tail)
  {
    if tail != [] { JoinCons("", tail, '/'); }
  }

  /** Every prefix of the path is accepted, with the rest of the path as the sub-path. */
  lemma CoverIsParent(m: Mount, ns: seq<string>, d: nat)
    requires AllNames(ns) && Covers(m, ns, d)
    ensures |m.destination| > 1 && d == MatchDepth(m)
    ensures IsParent(Split(AbsPath(ns), '/'), Split(m.destination, '/')).0
  {
    SplitAbs(ns);
    SplitAbs(ns[..d]);
    AbsLonger(ns, 0, d);
    var child, cand := Split(AbsPath(ns), '/'), Split(m.destination, '/');
    assert cand == [""] + ns[..d];
    assert child[..|cand|] == cand;
  }

  function TakeMount(m: Mount, ns: seq<string>, depth: nat): Place
    requires depth <= |ns|
  {
    Place(m.source, "ro" in m.options, ns[..depth], ns[depth..])
  }

  lemma {:induction false} FirstAtSnoc(mounts: seq<Mount>, m: Mount, dest: string)
    ensures var i := FirstAt(mounts, dest);
      FirstAt(mounts + [m], dest) ==
        if i < |mounts| then i else if m.destination == dest then |mounts| else |mounts| + 1
  {
    if mounts == [] {
      assert mounts + [m] == [m];
    } else {
      assert (mounts + [m])[1..] == mounts[1..] + [m];
      FirstAtSnoc(mounts[1..], m, dest);
    }
  }

  lemma SliceParent(ns: seq<string>, d: nat)
    requires d < |ns|
    ensures Parent(ns)[..d] == ns[..d] && ns[d..] == Parent(ns)[d..] + [ns[|ns| - 1]]
  {
  }

  /** A further mount that covers the path more deeply takes it over. */
  lemma {:induction false} LocateTaken(res: Resolver, m: Mount, ns: seq<string>, d: nat)
    requires AllNames(ns) && Covers(m, ns, d) && d > |Locate(res, ns).at|
    ensures Locate(res.(mounts := res.mounts + [m]), ns) == TakeMount(m, ns, d)
  {
    FirstAtSnoc(res.mounts, m, AbsPath(ns));
    LocateParts(res, ns);
    if d == |ns| {
      assert ns[..d] == ns && ns[d..] == [];
    } else {
      SliceParent(ns, d);
      LocateTaken(res, m, Parent(ns), d);
      AbsLonger(ns, d, |ns|);
      assert ns[..|ns|] == ns;
    }
  }

  /** Any other further mount changes nothing. */
  lemma {:induction false} LocateKept(res: Resolver, m: Mount, ns: seq<string>)
    requires forall d: nat :: Covers(m, ns, d) ==> d <= |Locate(res, ns).at|
    ensures Locate(res.(mounts := res.mounts + [m]), ns) == Locate(res, ns)
  {
    if ns != [] {
      FirstAtSnoc(res.mounts, m, AbsPath(ns));
      if FirstAt(res.mounts, AbsPath(ns)) == |res.mounts| {
        LocateParts(res, Parent(ns));
        assert ns[..|ns|] == ns;
        assert !Covers(m, ns, |ns|);
        forall d: nat | Covers(m, Parent(ns), d) ensures Covers(m, ns, d) {
          assert Parent(ns)[..d] == ns[..d];
        }
        LocateKept(res, m, Parent(ns));
      }
    }
  }

  // ----- joining a source with a sub-path -----

  lemma {:induction false} NamesJoinPieces(first: string, sub: seq<string>)
    requires forall p :: p in sub ==> '/' !in p
    ensures Names(Join([first] + sub, '/')) == Names(first) + NonEmpty(sub)
  {
    if sub != [] {
      SplitJoin(sub, '/');
      JoinCons(first, sub, '/');
      NamesConcat(first, Join(sub, '/'));
      assert first + ['/'] + Join(sub, '/') == first + "/" + Join(sub, '/');
    }
  }

  lemma JoinRooted(first: string, sub: seq<string>)
    requires first != ""
    ensures Rooted(Join([first] + sub, '/')) == Rooted(first)
  {
    if sub != [] { JoinCons(first, sub, '/'); }
  }

  /** `filepath.Join` of separator-free pieces. */
  lemma {:induction false} JoinElemsPieces(sub: seq<string>)
    requires forall p :: p in sub ==> '/' !in p
    requires AllOrdinary(NonEmpty(sub))
    ensures JoinElems(sub) == Join(NonEmpty(sub), '/')
  {
    if sub != [] {
      var rest := sub[1..];
      assert sub == [sub[0]] + rest;
      if sub[0] == "" {
        JoinElemsPieces(rest);
        assert NonEmpty(sub) == NonEmpty(rest);
      } else {
        NamesJoinPieces(sub[0], rest);
        NamesOne(sub[0]);
        JoinRooted(sub[0], rest);
        NormId(false, NonEmpty(sub));
      }
    }
  }

  /** `filepath.Join` of a source and a sub-path stays below the cleaned source. */
  lemma JoinElemsUnder(source: string, sub: seq<string>)
    requires forall p :: p in sub ==> '/' !in p
    requires AllOrdinary(NonEmpty(sub))
    ensures JoinElems([source] + sub) == Under(source, NonEmpty(sub))
  {
    var rel := NonEmpty(sub);
    assert ([source] + sub)[1..] == sub;
    if source == "" {
      JoinElemsPieces(sub);
      NamesEmpty();
      assert Norm(false, []) + rel == rel;
    } else {
      NamesJoinPieces(source, sub);
      JoinRooted(source, sub);
      NormBelow(Rooted(source), Names(source), rel);
    }
  }

  /** Joining with the relative path that `getMount` returns names the same location. */
  lemma JoinRelUnder(source: string, rel: seq<string>)
    requires AllOrdinary(rel)
    ensures JoinElems([source, Join(rel, '/')]) == Under(source, rel)
  {
    var r := Join(rel, '/');
    NamesJoin(rel);
    assert [source, r][1..] == [r];
    assert [r][1..] == [];
    if source == "" {
      if rel != [] { NormId(false, rel); NotRootedJoin(rel); NamesEmpty(); assert Norm(false, []) + rel == rel; }
    } else {
      assert [source, r] == [source] + [r];
      JoinCons(source, [r], '/');
      assert source + ['/'] + r == source + "/" + r;
      NamesConcat(source, r);
      JoinRooted(source, [r]);
      NormBelow(Rooted(source), Names(source), rel);
    }
  }

  lemma NotRootedJoin(rel: seq<string>)
    requires AllOrdinary(rel)
    ensures !Rooted(Join(rel, '/'))
    ensures Join(rel, '/') == "" <==> rel == []
  {
    if rel != [] {
      assert Ordinary(rel[0]);
      assert rel[0][0] in rel[0];
    }
  }

  /** A location below an absolute source keeps all of the source's components and adds the relative
      ones, none of which leads back up. */
  lemma HostPathBelowSource(res: Resolver, ns: seq<string>)
    requires AllOrdinary(ns) && Rooted(Locate(res, ns).source)
    ensures var p := Locate(res, ns);
      && Rooted(HostPath(res, ns))
      && AllOrdinary(p.rel)
      && Names(HostPath(res, ns)) == Names(Clean(p.source)) + p.rel
  {
    var p := Locate(res, ns);
    var top := Norm(true, Names(p.source));
    NamesAll(p.source);
    NormRooted(Names(p.source));
    LocateOrdinary(res, ns);
    NamesAbs(top);
    NamesAbs(top + p.rel);
  }

  // ----- the scans -----

  /** The best mount so far, as the scan's variables hold it, against the mounts seen so far. */
  ghost predicate ScanMatches(res: Resolver, seen: nat, ns: seq<string>,
                              container: string, source: string, sub: seq<string>)
    requires seen <= |res.mounts|
  {
    var p := Locate(res.(mounts := res.mounts[..seen]), ns);
    && container == AbsPath(p.at)
    && source == p.source
    && sub == if p.at == [] then Split(AbsPath(ns), '/') else p.rel
  }

  lemma ScanStart(res: Resolver, ns: seq<string>)
    ensures ScanMatches(res, 0, ns, "/", res.hostRoot, Split(AbsPath(ns), '/'))
    ensures Locate(res.(mounts := res.mounts[..0]), ns).readonly == res.rootReadonly
  {
    var empty := res.(mounts := res.mounts[..0]);
    LocateIsHeld(empty, ns);
    assert AbsPath([]) == "/";
  }

  /** A mount whose destination is a longer prefix of the path than the best so far is taken. */
  lemma ScanTakes(res: Resolver, seen: nat, ns: seq<string>, container: string, source: string, sub: seq<string>)
    requires AllNames(ns) && seen < |res.mounts|
    requires ScanMatches(res, seen, ns, container, source, sub)
    requires var m := res.mounts[seen];
      IsParent(Split(AbsPath(ns), '/'), Split(m.destination, '/')).0 && |m.destination| > |container|
    ensures var m := res.mounts[seen];
      && ScanMatches(res, seen + 1, ns, m.destination, m.source,
                     IsParent(Split(AbsPath(ns), '/'), Split(m.destination, '/')).1)
      && Locate(res.(mounts := res.mounts[..seen + 1]), ns).readonly == ("ro" in m.options)
  {
    var m := res.mounts[seen];
    var before := res.(mounts := res.mounts[..seen]);
    var p := Locate(before, ns);
    assert res.mounts[..seen + 1] == res.mounts[..seen] + [m];
    LocateParts(before, ns);
    ParentCovers(m, ns);
    var d := MatchDepth(m);
    if d < |p.at| { AbsLonger(ns, d, |p.at|); }
    LocateTaken(before, m, ns, d);
  }

  /** Any other mount is passed over. */
  lemma ScanPasses(res: Resolver, seen: nat, ns: seq<string>, container: string, source: string, sub: seq<string>)
    requires AllNames(ns) && seen < |res.mounts|
    requires ScanMatches(res, seen, ns, container, source, sub)
    requires var m := res.mounts[seen];
      !(IsParent(Split(AbsPath(ns), '/'), Split(m.destination, '/')).0 && |m.destination| > |container|)
    ensures ScanMatches(res, seen + 1, ns, container, source, sub)
    ensures Locate(res.(mounts := res.mounts[..seen + 1]), ns) == Locate(res.(mounts := res.mounts[..seen]), ns)
  {
    var m := res.mounts[seen];
    var before := res.(mounts := res.mounts[..seen]);
    var p := Locate(before, ns);
    assert res.mounts[..seen + 1] == res.mounts[..seen] + [m];
    LocateParts(before, ns);
    forall d: nat | Covers(m, ns, d) ensures d <= |p.at| {
      CoverIsParent(m, ns, d);
      if d > |p.at| { AbsLonger(ns, |p.at|, d); }
    }
    LocateKept(before, m, ns);
  }

  /** The scan takes a mount exactly when the specification's place moves to it. */
  lemma ScanStep(res: Resolver, seen: nat, ns: seq<string>, container: string, source: string, sub: seq<string>)
    requires AllNames(ns) && seen < |res.mounts|
    requires ScanMatches(res, seen, ns, container, source, sub)
    ensures var m := res.mounts[seen];
      var (yes, below) := IsParent(Split(AbsPath(ns), '/'), Split(m.destination, '/'));
      var p, q := Locate(res.(mounts := res.mounts[..seen]), ns), Locate(res.(mounts := res.mounts[..seen + 1]), ns);
      if yes && |m.destination| > |container|
      then ScanMatches(res, seen + 1, ns, m.destination, m.source, below) && q.readonly == ("ro" in m.options)
      else ScanMatches(res, seen + 1, ns, container, source, sub) && q.readonly == p.readonly
  {
    var m := res.mounts[seen];
    if IsParent(Split(AbsPath(ns), '/'), Split(m.destination, '/')).0 && |m.destination| > |container| {
      ScanTakes(res, seen, ns, container, source, sub);
    } else {
      ScanPasses(res, seen, ns, container, source, sub);
    }
  }

  lemma ScanEnd(res: Resolver, ns: seq<string>, container: string, source: string, sub: seq<string>)
    requires AllOrdinary(ns)
    requires ScanMatches(res, |res.mounts|, ns, container, source, sub)
    ensures source == Locate(res, ns).source && container == AbsPath(Locate(res, ns).at)
    ensures (forall p :: p in sub ==> '/' !in p) && NonEmpty(sub) == Locate(res, ns).rel
    ensures AllOrdinary(Locate(res, ns).rel)
  {
    assert res.(mounts := res.mounts[..|res.mounts|]) == res;
    LocateParts(res, ns);
    LocateOrdinary(res, ns);
    EndPieces(ns, Locate(res, ns).at, Locate(res, ns).rel, sub);
  }

  /** The pieces that the scan leaves, without the empty ones. */
  lemma EndPieces(ns: seq<string>, at: seq<string>, rel: seq<string>, sub: seq<string>)
    requires AllOrdinary(ns) && at + rel == ns && AllOrdinary(rel)
    requires sub == if at == [] then Split(AbsPath(ns), '/') else rel
    ensures (forall p :: p in sub ==> '/' !in p) && NonEmpty(sub) == rel
  {
    if at == [] {
      assert rel == ns by { assert at + rel == rel; }
      SplitAbs(ns);
      NonEmptyRootSplit(ns);
    } else {
      NonEmptyId(rel);
    }
  }

  lemma NonEmptyRootSplit(ns: seq<string>)
    requires AllOrdinary(ns)
    ensures NonEmpty([""] + if ns == [] then [""] else ns) == ns
  {
    NonEmptyAppend([""], if ns == [] then [""] else ns);
    NonEmptyId(ns);
    assert NonEmpty([""]) == [];
  }

  /** `pathOnHost`. */
  method PathOnHost(res: Resolver, path: string) returns (host: string)
    ensures Rooted(path) ==> host == HostPath(res, Norm(true, Names(path)))
  {
    var hostRoot := res.hostRoot;
    var cleaned := Clean(path);
    var itemized := Split(cleaned, '/');
    var containerRoot, sub := "/", itemized;
    ghost var ns := Norm(true, Names(path));
    NamesAll(path);
    NormRooted(Names(path));
    SplitPieces(Clean(path), '/');
    ScanStart(res, ns);
    for i := 0 to |res.mounts|
      invariant Rooted(path) ==> ScanMatches(res, i, ns, containerRoot, hostRoot, sub)
    {
      var mnt := res.mounts[i];
      var (candidateIsParent, subPath) := IsParent(itemized, Split(mnt.destination, '/'));
      if Rooted(path) { ScanStep(res, i, ns, containerRoot, hostRoot, sub); }
      if candidateIsParent {
        if |mnt.destination| > |containerRoot| {
          containerRoot, hostRoot, sub := mnt.destination, mnt.source, subPath;
        }
      }
    }
    host := JoinElems([hostRoot] + sub);
    if Rooted(path) {
      ScanEnd(res, ns, containerRoot, hostRoot, sub);
      JoinElemsUnder(hostRoot, sub);
    }
  }

  method HasReadOnly(options: seq<string>) returns (readonly: bool)
    ensures readonly == ("ro" in options)
  {
    readonly := false;
    for k := 0 to |options|
      invariant readonly == ("ro" in options[..k])
    {
      if options[k] == "ro" { readonly := true; }
    }
    assert options[..|options|] == options;
  }

  predicate AbsoluteDestinations(res: Resolver) {
    forall m :: m in res.mounts ==> Rooted(m.destination)
  }

  /** No mount with an absolute destination is a parent of a relative path. */
  lemma RelativeNotCovered(path: string, m: Mount)
    requires path != "" && !Rooted(path) && Rooted(m.destination)
    ensures !IsParent(Split(path, '/'), Split(m.destination, '/')).0
  {
    var child, cand := Split(path, '/'), Split(m.destination, '/');
    SplitHead("", '/', m.destination[1..]);
    assert m.destination == "" + ['/'] + m.destination[1..];
    assert child[0] != "";
    if |cand| <= |child| { assert child[..|cand|][0] == child[0]; }
  }

  /** A path as `resolvePath` returns it. */
  predicate CleanAbsolute(path: string) { Rooted(path) && Clean(path) == path }

  predicate Relative(path: string) { path != "" && !Rooted(path) }

  /** What the scan of `getMount` holds for the components of a clean absolute path. */
  ghost predicate MountScan(res: Resolver, seen: nat, ns: seq<string>, loc: Locator, sub: seq<string>)
    requires seen <= |res.mounts|
  {
    && AllOrdinary(ns) && ScanMatches(res, seen, ns, loc.containerPath, loc.hostPath, sub)
    && loc.readonly == Locate(res.(mounts := res.mounts[..seen]), ns).readonly
  }

  lemma MountScanStart(res: Resolver, path: string)
    requires CleanAbsolute(path)
    ensures MountScan(res, 0, Names(path), Locator("/", res.hostRoot, res.rootReadonly), Split(path, '/'))
  {
    CleanNames(path);
    ScanStart(res, Names(path));
  }

  lemma MountScanStep(res: Resolver, seen: nat, ns: seq<string>, loc: Locator, sub: seq<string>)
    requires seen < |res.mounts| && MountScan(res, seen, ns, loc, sub)
    ensures var m := res.mounts[seen];
      var (yes, below) := IsParent(Split(AbsPath(ns), '/'), Split(m.destination, '/'));
      if yes && |m.destination| > |loc.containerPath|
      then MountScan(res, seen + 1, ns, Locator(m.destination, m.source, "ro" in m.options), below)
      else MountScan(res, seen + 1, ns, loc, sub)
  {
    ScanStep(res, seen, ns, loc.containerPath, loc.hostPath, sub);
  }

  lemma MountScanEnd(res: Resolver, ns: seq<string>, loc: Locator, sub: seq<string>)
    requires MountScan(res, |res.mounts|, ns, loc, sub)
    ensures var p := Locate(res, ns);
      loc == Locator(AbsPath(p.at), p.source, p.readonly) && JoinElems(sub) == Join(p.rel, '/')
  {
    assert res.(mounts := res.mounts[..|res.mounts|]) == res;
    ScanEnd(res, ns, loc.containerPath, loc.hostPath, sub);
    JoinElemsPieces(sub);
  }

  /** `getMount`. On a clean absolute path it agrees with the specification; on a relative path it
      looks at the root filesystem only. */
  method GetMount(res: Resolver, path: string) returns (loc: Locator, rel: string)
    ensures Rooted(path) && Clean(path) == path ==>
      var p := Locate(res, Names(path));
      loc == Locator(AbsPath(p.at), p.source, p.readonly) && rel == Join(p.rel, '/')
    ensures path != "" && !Rooted(path) && AbsoluteDestinations(res) ==>
      loc == Locator("/", res.hostRoot, res.rootReadonly) && rel == JoinElems(Split(path, '/'))
  {
    var itemized := Split(path, '/');
    loc := Locator("/", res.hostRoot, res.rootReadonly);
    var sub := itemized;
    ghost var ns := Names(path);
    if CleanAbsolute(path) { MountScanStart(res, path); CleanNames(path); }
    for i := 0 to |res.mounts|
      invariant CleanAbsolute(path) ==> MountScan(res, i, ns, loc, sub)
      invariant Relative(path) && AbsoluteDestinations(res) ==>
        loc == Locator("/", res.hostRoot, res.rootReadonly) && sub == itemized
    {
      var mnt := res.mounts[i];
      var (candidateIsParent, subPath) := IsParent(itemized, Split(mnt.destination, '/'));
      if CleanAbsolute(path) { MountScanStep(res, i, ns, loc, sub); }
      if Relative(path) && AbsoluteDestinations(res) { RelativeNotCovered(path, mnt); }
      if candidateIsParent {
        if |mnt.destination| > |loc.containerPath| {
          var readonly := HasReadOnly(mnt.options);
          loc := Locator(mnt.destination, mnt.source, readonly);
          sub := subPath;
        }
      }
    }
    if CleanAbsolute(path) { MountScanEnd(res, ns, loc, sub); }
    rel := JoinElems(sub);
  }
}

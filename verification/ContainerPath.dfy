/** `getPathSpecFromContainer`: where on the host a path inside a container is, whether or not the
    path exists. When it does not, the resolver is asked for its parent, which is obtained by
    stripping trailing `/` and `/.` and then the last component. */
module ContainerPath {
  import opened Strings
  import opened Paths
  import opened MountOverlay
  import opened PathWalk
  import opened PathResolver

  datatype PathSpec = PathSpec(
    originalPath: string,
    endsWithSeparator: bool,
    endsWithSeparatorDot: bool,
    present: bool,
    isADir: bool,
    readOnly: bool,
    resolvedPath: string)

  datatype SpecError = DoesNotExist | IsNotADir | Other(error: Error)

  datatype SpecResult = Spec(spec: PathSpec) | Refused(reason: SpecError)

  // ----- stripping the tail of a path -----

  predicate AllDots(ns: seq<string>) { forall n :: n in ns ==> n == "." }

  /** A list of components without its trailing `.` ones. */
  function DropDots(ns: seq<string>): seq<string> {
    if ns != [] && ns[|ns| - 1] == "." then DropDots(Parent(ns)) else ns
  }

  lemma {:induction false} DropDotsRest(ns: seq<string>)
    ensures exists dots :: AllDots(dots) && ns == DropDots(ns) + dots
  {
    if ns != [] && ns[|ns| - 1] == "." {
      DropDotsRest(Parent(ns));
      var dots :| AllDots(dots) && Parent(ns) == DropDots(Parent(ns)) + dots;
      assert AllDots(dots + ["."]) && ns == DropDots(ns) + (dots + ["."]);
    } else {
      assert AllDots([]) && ns == DropDots(ns) + [];
    }
  }

  function StripOnce(path: string): string {
    TrimRight(TrimSuffix(path, "/."), '/')
  }

  /** What stripping does to the components: it drops trailing `.` ones, and only those. */
  ghost predicate StripsTo(path: string, p: string) {
    && p <= path
    && (p != "" ==> Rooted(p))
    && DropDots(Names(path)) == DropDots(Names(p))
  }

  lemma NamesTrailing(t: string)
    ensures Names(t + "/") == Names(t)
  {
    NamesEmpty();
    NamesConcat(t, "");
    assert t + "/" + "" == t + "/";
  }

  lemma {:induction false} NamesTrimRight(s: string)
    ensures Names(TrimRight(s, '/')) == Names(s)
    decreases |s|
  {
    if EndsWithSlash(s) {
      var t := s[..|s| - 1];
      NamesTrimRight(t);
      NamesTrailing(t);
      assert s == t + "/";
    }
  }

  lemma NamesSlashDot(t: string)
    ensures DropDots(Names(t + "/.")) == DropDots(Names(t))
  {
    NamesConcat(t, ".");
    NamesOne(".");
    assert t + "/" + "." == t + "/.";
    assert Parent(Names(t) + ["."]) == Names(t);
  }

  /** Stripping cuts a tail off and leaves the rest of the components alone. */
  lemma NamesStripOnce(path: string)
    ensures StripOnce(path) <= path
    ensures DropDots(Names(StripOnce(path))) == DropDots(Names(path))
    ensures |StripOnce(path)| == |path| ==> !EndsWithSlash(path) && !HasSuffix(path, "/.")
  {
    var t := TrimSuffix(path, "/.");
    NamesTrimRight(t);
    TrimRightStops(t, '/');
    if HasSuffix(path, "/.") {
      NamesSlashDot(t);
      assert path == t + "/.";
    }
  }

  /** A path without any trailing `/` or `/.`. */
  function Stripped(path: string): string
    decreases |path|
  {
    var cleaned := StripOnce(path);
    if |cleaned| < |path| then Stripped(cleaned) else path
  }

  lemma {:induction false} StrippedNames(path: string)
    ensures DropDots(Names(Stripped(path))) == DropDots(Names(path))
    decreases |path|
  {
    NamesStripOnce(path);
    if |StripOnce(path)| < |path| { StrippedNames(StripOnce(path)); }
  }

  /** The loop that strips trailing `/` and `/.`. */
  method StripTail(path: string) returns (p: string)
    requires Rooted(path)
    ensures p == Stripped(path)
    ensures StripsTo(path, p) && !EndsWithSlash(p) && !HasSuffix(p, "/.")
  {
    p := path;
    var cleaned := StripOnce(p);
    NamesStripOnce(p);
    while |cleaned| < |p|
      invariant Stripped(path) == Stripped(p) && cleaned == StripOnce(p)
      invariant StripsTo(path, p) && StripsTo(path, cleaned)
      decreases |p|
    {
      p := cleaned;
      cleaned := StripOnce(p);
      NamesStripOnce(p);
    }
    NamesStripOnce(p);
  }

  /** A stripped path is a parent, a separator and the name of its last component. */
  lemma BaseSplits(p: string)
    requires Rooted(p) && !EndsWithSlash(p) && !HasSuffix(p, "/.")
    ensures LastIndexOf(p, '/') >= 0
    ensures var parent := p[..LastIndexOf(p, '/')];
      && p == parent + "/" + Base(p) && TrimSuffix(p, "/" + Base(p)) == parent
      && IsName(Base(p)) && Base(p) != "." && (parent == "" || Rooted(parent))
      && Names(p) == Names(parent) + [Base(p)]
  {
    assert TrimRight(p, '/') == p;
    LastIndexOfLast(p, '/');
    var i := LastIndexOf(p, '/');
    var parent, base := p[..i], p[i + 1..];
    CutAround(p, i);
    assert p == parent + ("/" + base) by { Assoc(parent, "/", base); }
    assert p[i..] == "/" + base;
    NamesConcat(parent, base);
    NamesOne(base);
  }

  lemma CutAround<T>(s: seq<T>, i: nat)
    requires i < |s|
    ensures s == s[..i] + [s[i]] + s[i + 1..]
  {
  }

  /** The parent and base of a stripped path. */
  method SplitBase(p: string) returns (parent: string, base: string)
    requires Rooted(p) && !EndsWithSlash(p) && !HasSuffix(p, "/.")
    ensures p == parent + "/" + base && IsName(base) && base != "." && (parent == "" || Rooted(parent))
    ensures Names(p) == Names(parent) + [base]
  {
    BaseSplits(p);
    base := Base(p);
    parent := TrimSuffix(p, "/" + base);
  }

  // ----- the parent of a path that does not exist -----

  lemma {:induction false} WalkDots(look: View, cur: seq<string>, dots: seq<string>, links: nat)
    requires AllDots(dots)
    ensures Walk(look, cur, dots, links) == Ok(cur)
  {
    if dots != [] {
      assert dots[0] in dots && forall n :: n in dots[1..] ==> n in dots;
      assert dots == ["."] + dots[1..];
      WalkDots(look, cur, dots[1..], links);
    }
  }

  /** Where a missing path would be created: its parent, resolved, and its base below it. */
  function CreationPoint(look: View, path: string): Result<seq<string>> {
    var ns := DropDots(Names(path));
    match Walk(look, [], Parent(ns), MAX_LINKS)
    case Ok(parent) => Ok(parent + if ns == [] then [] else [ns[|ns| - 1]])
    case Err(e) => Err(e)
  }

  lemma MissingItems(path: string)
    ensures exists dots :: AllDots(dots) && Items(path) == DropDots(Names(path)) + dots
  {
    DropDotsRest(Names(path));
    var dots :| AllDots(dots) && Names(path) == DropDots(Names(path)) + dots;
    var more := dots + if EndsWithSlash(path) then ["."] else [];
    assert AllDots(more) && Items(path) == DropDots(Names(path)) + more;
  }

  /** After the parent, a base `..` could not have failed to exist. */
  lemma MissingBase(look: View, ns: seq<string>, base: string, dots: seq<string>, left: nat)
    requires AllDots(dots) && Walk(look, ns, [base] + dots, left) == Err(NotExist)
    ensures base != ".."
  {
    if base == ".." {
      StepUp(look, ns, dots, left);
      WalkDots(look, Parent(ns), dots, left);
    }
  }

  /** Resolving the parent string and walking the parent's components come to the same. */
  lemma ParentResolves(look: View, parent: string, base: string, dots: seq<string>)
    requires parent == "" || Rooted(parent)
    requires AllDots(dots) && Walk(look, [], Names(parent) + ([base] + dots), MAX_LINKS) == Err(NotExist)
    ensures Walk(look, [], Items(parent), MAX_LINKS) == Walk(look, [], Names(parent), MAX_LINKS)
    ensures Walk(look, [], Names(parent), MAX_LINKS).Ok? ==> base != ".."
  {
    var b := [base] + dots;
    WalkComposes(look, [], Names(parent), b, MAX_LINKS);
    WalkComposes(look, [], Names(parent), ["."], MAX_LINKS);
    assert Names(parent) + [] == Names(parent);
    match Walk(look, [], Names(parent), MAX_LINKS)
    case Err(e) =>
    case Ok(ns) =>
      var left: nat :| Walk(look, [], Names(parent) + b, MAX_LINKS) == Walk(look, ns, b, left);
      MissingBase(look, ns, base, dots, left);
      forall k: nat { WalkDot(look, ns, k); }
  }

  lemma MissingNotRoot(look: View, path: string)
    requires Resolved(look, path) == Err(NotExist)
    ensures DropDots(Names(path)) != []
  {
    MissingItems(path);
    var dots :| AllDots(dots) && Items(path) == DropDots(Names(path)) + dots;
    WalkDots(look, [], dots, MAX_LINKS);
    assert [] + dots == dots;
  }

  /** If the parent of a missing path resolves then its base names an entry. */
  lemma MissingHasBase(look: View, path: string, parent: string, base: string)
    requires Resolved(look, path) == Err(NotExist)
    requires parent == "" || Rooted(parent)
    requires DropDots(Names(path)) == Names(parent) + [base] && IsName(base) && base != "."
    ensures Walk(look, [], Items(parent), MAX_LINKS) == Walk(look, [], Names(parent), MAX_LINKS)
    ensures Walk(look, [], Names(parent), MAX_LINKS).Ok? ==> Ordinary(base)
  {
    MissingItems(path);
    var dots :| AllDots(dots) && Items(path) == DropDots(Names(path)) + dots;
    Assoc(Names(parent), [base], dots);
    ParentResolves(look, parent, base, dots);
  }

  // ----- the specification -----

  function Absolute(original: string): string {
    if Rooted(original) then original else "/" + original
  }

  function Described(original: string, res: Resolver, ns: seq<string>, present: bool, isADir: bool): PathSpec {
    PathSpec(original, EndsWithSlash(original), Base(original) == ".", present, isADir,
             Locate(res, ns).readonly, HostPath(res, ns))
  }

  function Refusal(e: Error): SpecResult {
    match e
    case NotADir => Refused(IsNotADir)
    case NotExist => Refused(DoesNotExist)
    case _ => Refused(Other(e))
  }

  /** The path where resolution finds it, or else the place where it would be created. */
  function ContainerSpec(look: View, res: Resolver, stat: string -> Result<bool>, original: string): SpecResult {
    match Resolved(look, Absolute(original))
    case Ok(ns) =>
      (match stat(HostPath(res, ns))
       case Ok(isADir) => Spec(Described(original, res, ns, true, isADir))
       case Err(e) => Refused(Other(e)))
    case Err(NotExist) =>
      (match CreationPoint(look, Absolute(original))
       case Ok(ns) => Spec(Described(original, res, ns, false, false))
       case Err(e) => Refusal(e))
    case Err(e) => Refusal(e)
  }

  /** The base of a path is a dot exactly when its last component is, or the path is empty. */
  lemma BaseIsDot(s: string)
    ensures Base(s) == "." <==> s == "" || (Names(s) != [] && Names(s)[|Names(s)| - 1] == ".")
  {
    var t := TrimRight(s, '/');
    NamesTrimRight(s);
    TrimRightStops(s, '/');
    NamesEmpty();
    if t != "" { LastName(t); }
  }

  lemma NameAfter(a: string, base: string)
    requires IsName(base)
    ensures var ns := Names(a + "/" + base); ns != [] && ns[|ns| - 1] == base
  {
    NamesConcat(a, base);
    NamesOne(base);
  }

  /** The text after the last separator is the last component. */
  lemma LastName(t: string)
    requires t != "" && t[|t| - 1] != '/'
    ensures var base := t[LastIndexOf(t, '/') + 1..]; Names(t) != [] && Names(t)[|Names(t)| - 1] == base
  {
    LastIndexOfLast(t, '/');
    var i := LastIndexOf(t, '/');
    if i >= 0 {
      CutAround(t, i);
      NameAfter(t[..i], t[i + 1..]);
    } else {
      NamesOne(t);
    }
  }

  /** What a caller reads off an answer: the path as given and whether it ends in a separator or a dot;
      whether it exists and is a directory; the mount's read-only option and the place on the host, except
      that a missing top-level mount point is placed in the root filesystem; and which error is which
      refusal. */
  ghost predicate Answers(look: View, res: Resolver, stat: string -> Result<bool>, original: string, r: SpecResult) {
    var path := if original != "" && original[0] == '/' then original else "/" + original;
    match Resolved(look, path)
    case Ok(ns) => PresentAnswer(res, stat, original, ns, r)
    case Err(NotExist) => MissingAnswer(look, res, path, original, r)
    case Err(NotADir) => r == Refused(IsNotADir)
    case Err(e) => r == Refused(Other(e))
  }

  predicate AsGiven(s: PathSpec, original: string) {
    && s.originalPath == original
    && (s.endsWithSeparator <==> original != "" && original[|original| - 1] == '/')
    && (s.endsWithSeparatorDot <==>
          original == "" || (Names(original) != [] && Names(original)[|Names(original)| - 1] == "."))
  }

  predicate PresentAnswer(res: Resolver, stat: string -> Result<bool>, original: string, ns: seq<string>,
                          r: SpecResult) {
    match stat(HostPath(res, ns))
    case Err(e) => r == Refused(Other(e))
    case Ok(isADir) =>
      && r.Spec? && AsGiven(r.spec, original) && r.spec.present && (r.spec.isADir <==> isADir)
      && r.spec.readOnly == Locate(res, ns).readonly && r.spec.resolvedPath == HostPath(res, ns)
  }

  predicate MissingAnswer(look: View, res: Resolver, path: string, original: string, r: SpecResult) {
    match CreationPoint(look, path)
    case Err(NotExist) => r == Refused(DoesNotExist)
    case Err(NotADir) => r == Refused(IsNotADir)
    case Err(e) => r == Refused(Other(e))
    case Ok(ns) =>
      && r.Spec? && AsGiven(r.spec, original) && !r.spec.present && !r.spec.isADir
      && CreatedAt(res, path, ns, r.spec.resolvedPath, r.spec.readOnly)
  }

  /** The specification, except for a missing path that is itself a mount point in the root directory. */
  ghost predicate Specified(look: View, res: Resolver, stat: string -> Result<bool>, original: string,
                            r: SpecResult)
  {
    var path := Absolute(original);
    if Resolved(look, path) == Err(NotExist) && CreationPoint(look, path).Ok? && TopLevelMount(res, path)
    then r == Spec(InRootFilesystem(res, original))
    else r == ContainerSpec(look, res, stat, original)
  }

  lemma SpecifiedAnswers(look: View, res: Resolver, stat: string -> Result<bool>, original: string, r: SpecResult)
    requires Specified(look, res, stat, original, r)
    ensures Answers(look, res, stat, original, r)
  {
    match Resolved(look, Absolute(original))
    case Ok(ns) => PresentAnswers(look, res, stat, original, ns, r);
    case Err(NotExist) => MissingAnswers(look, res, stat, original, r);
    case Err(e) =>
  }

  lemma PresentAnswers(look: View, res: Resolver, stat: string -> Result<bool>, original: string,
                       ns: seq<string>, r: SpecResult)
    requires Specified(look, res, stat, original, r) && Resolved(look, Absolute(original)) == Ok(ns)
    ensures PresentAnswer(res, stat, original, ns, r)
  {
    BaseIsDot(original);
  }

  lemma MissingAnswers(look: View, res: Resolver, stat: string -> Result<bool>, original: string, r: SpecResult)
    requires Specified(look, res, stat, original, r) && Resolved(look, Absolute(original)) == Err(NotExist)
    ensures MissingAnswer(look, res, Absolute(original), original, r)
  {
    BaseIsDot(original);
  }

  /** The path is a mount point in the root directory. */
  predicate TopLevelMount(res: Resolver, path: string) {
    && LastIndexOf(Stripped(path), '/') == 0
    && FirstAt(res.mounts, Stripped(path)) < |res.mounts|
  }

  /** What the code answers for a missing top-level mount point: a place in the root filesystem. */
  function InRootFilesystem(res: Resolver, original: string): PathSpec {
    PathSpec(original, EndsWithSlash(original), Base(original) == ".", false, false,
             res.rootReadonly, Under(res.hostRoot, Names(Stripped(Absolute(original)))))
  }

  lemma TopLevelNames(p: string, base: string)
    requires p == "/" + base && IsName(base)
    ensures LastIndexOf(p, '/') == 0 && Names(p) == [base] && p == AbsPath([base])
  {
    LastIndexBeforeSuffix("", '/', base);
    assert p == "" + ['/'] + base;
    NamesSlash(p);
    NamesOne(base);
  }

  lemma NotTopLevel(p: string, parent: string, base: string)
    requires p == parent + "/" + base && IsName(base) && parent != ""
    ensures LastIndexOf(p, '/') > 0
  {
    LastIndexBeforeSuffix(parent, '/', base);
    assert p == parent + ['/'] + base;
  }

  lemma UnderDot(base: string)
    ensures Under(".", [base]) == base
  {
    NamesOne(".");
    NormSnoc(false, [], ".");
    assert [] + ["."] == ["."] && [] + [base] == [base];
    assert Norm(false, ["."]) == [];
    assert Under(".", [base]) == Render(false, [base]);
  }

  /** `filepath.Join(".", base)` is the base alone, a relative path. */
  lemma JoinDot(base: string)
    requires Ordinary(base)
    ensures JoinElems([".", base]) == base && !Rooted(base)
    ensures JoinElems(Split(base, '/')) == base
  {
    JoinRelUnder(".", [base]);
    UnderDot(base);
    SplitOne(base, '/');
    NonEmptyId([base]);
    JoinElemsPieces([base]);
    assert base[0] in base;
  }

  /** `filepath.Join` of a resolved parent and a base. */
  lemma JoinParent(ns: seq<string>, base: string)
    requires AllOrdinary(ns) && Ordinary(base)
    ensures JoinElems([AbsPath(ns), base]) == AbsPath(ns + [base])
  {
    JoinRelUnder(AbsPath(ns), [base]);
    NamesAbs(ns);
    NormId(true, ns);
  }

  /** The final location of a clean container path, from its mount and relative path. */
  method Place(res: Resolver, containerPath: string, ghost ns: seq<string>) returns (host: string, readOnly: bool)
    requires AllOrdinary(ns) && containerPath == AbsPath(ns)
    ensures host == HostPath(res, ns) && readOnly == Locate(res, ns).readonly
  {
    CleanAbs(ns);
    NormId(true, ns);
    NamesAbs(ns);
    var mount, rel := GetMount(res, containerPath);
    ghost var p := Locate(res, ns);
    LocateOrdinary(res, ns);
    JoinRelUnder(p.source, p.rel);
    host := JoinElems([mount.hostPath, rel]);
    readOnly := mount.readonly;
  }

  /** The same for the relative path that a missing top-level path becomes. */
  method PlaceRelative(res: Resolver, base: string) returns (host: string, readOnly: bool)
    requires Ordinary(base) && AbsoluteDestinations(res)
    ensures host == Under(res.hostRoot, [base]) && readOnly == res.rootReadonly
  {
    JoinDot(base);
    var mount, rel := GetMount(res, base);
    JoinRelUnder(res.hostRoot, [base]);
    host := JoinElems([mount.hostPath, rel]);
    readOnly := mount.readonly;
  }

  lemma NoMountInRoot(res: Resolver, base: string)
    requires FirstAt(res.mounts, AbsPath([base])) == |res.mounts|
    ensures HostPath(res, [base]) == Under(res.hostRoot, [base]) && Locate(res, [base]).readonly == res.rootReadonly
  {
    var root := Locate(res, []);
    assert root == MountOverlay.Place(res.hostRoot, res.rootReadonly, [], []);
    assert Parent([base]) == [];
    assert Locate(res, [base]) == root.(rel := [] + [base]);
    assert [] + [base] == [base];
  }

  /** A missing path in the root directory: its parent string is empty and resolves to `.`. */
  method PlaceTop(res: Resolver, path: string, base: string, resolved: string) returns (host: string, readOnly: bool)
    requires AbsoluteDestinations(res) && Ordinary(base) && resolved == "."
    requires Stripped(path) == "/" + base
    ensures if TopLevelMount(res, path)
      then host == Under(res.hostRoot, Names(Stripped(path))) && readOnly == res.rootReadonly
      else host == HostPath(res, [base]) && readOnly == Locate(res, [base]).readonly
  {
    TopLevelNames(Stripped(path), base);
    JoinDot(base);
    host, readOnly := PlaceRelative(res, JoinElems([resolved, base]));
    if !TopLevelMount(res, path) { NoMountInRoot(res, base); }
  }

  /** A missing path anywhere else. */
  method PlaceBelow(res: Resolver, base: string, resolved: string, ghost ns: seq<string>)
    returns (host: string, readOnly: bool)
    requires AllOrdinary(ns) && Ordinary(base) && resolved == AbsPath(ns)
    ensures host == HostPath(res, ns + [base]) && readOnly == Locate(res, ns + [base]).readonly
  {
    JoinParent(ns, base);
    host, readOnly := Place(res, JoinElems([resolved, base]), ns + [base]);
  }

  lemma ParentOfSnoc(ns: seq<string>, c: string)
    ensures Parent(ns + [c]) == ns
  {
  }

  /** The creation point in terms of the parent and base that the code splits off. */
  lemma CreationPointSplit(look: View, path: string, parent: string, base: string)
    requires DropDots(Names(path)) == Names(parent) + [base]
    requires Walk(look, [], Items(parent), MAX_LINKS) == Walk(look, [], Names(parent), MAX_LINKS)
    ensures CreationPoint(look, path) ==
      match Resolved(look, parent) case Ok(ns) => Ok(ns + [base]) case Err(e) => Err(e)
  {
    ParentOfSnoc(Names(parent), base);
  }

  /** Everything the code needs to know about a missing path that it has split. */
  lemma MissingSplit(look: View, path: string, p: string, parent: string, base: string)
    requires WellNamed(look) && Resolved(look, path) == Err(NotExist)
    requires StripsTo(path, p) && p == parent + "/" + base && Names(p) == Names(parent) + [base]
    requires IsName(base) && base != "." && (parent == "" || Rooted(parent))
    ensures parent == "" ==> Resolved(look, parent) == Ok([])
    ensures parent != "" ==> LastIndexOf(p, '/') > 0
    ensures match Resolved(look, parent)
      case Err(e) => parent != "" && CreationPoint(look, path) == Err(e)
      case Ok(ns) => AllOrdinary(ns) && Ordinary(base) && CreationPoint(look, path) == Ok(ns + [base])
  {
    MissingHasBase(look, path, parent, base);
    CreationPointSplit(look, path, parent, base);
    ResolvedIsFinal(look, parent);
    if parent == "" { NamesEmpty(); } else { NotTopLevel(p, parent, base); }
  }

  /** The place of a missing path: where its mount says, except for a top-level mount point. */
  predicate CreatedAt(res: Resolver, path: string, ns: seq<string>, host: string, readOnly: bool) {
    if TopLevelMount(res, path) then host == Under(res.hostRoot, Names(Stripped(path))) && readOnly == res.rootReadonly
    else host == HostPath(res, ns) && readOnly == Locate(res, ns).readonly
  }

  /** From the resolved parent, or the `.` that an empty one resolves to, to the place. */
  method PlaceFromParent(res: Resolver, path: string, parent: string, base: string, resolved: string,
                         ghost ns: seq<string>)
    returns (host: string, readOnly: bool)
    requires AbsoluteDestinations(res) && Ordinary(base) && AllOrdinary(ns) && Stripped(path) == parent + "/" + base
    requires if parent == "" then ns == [] && resolved == "."
             else resolved == AbsPath(ns) && LastIndexOf(Stripped(path), '/') > 0
    ensures CreatedAt(res, path, ns + [base], host, readOnly)
  {
    if parent == "" {
      assert [] + [base] == [base];
      host, readOnly := PlaceTop(res, path, base, resolved);
    } else {
      host, readOnly := PlaceBelow(res, base, resolved, ns);
    }
  }

  /** The parent of a missing path and its base, as the code splits them off. */
  method SplitMissing(path: string, ghost look: View) returns (parent: string, base: string)
    requires WellNamed(look) && Rooted(path) && Resolved(look, path) == Err(NotExist)
    ensures Stripped(path) == parent + "/" + base && (parent == "" || Rooted(parent))
    ensures parent == "" ==> Resolved(look, parent) == Ok([])
    ensures parent != "" ==> LastIndexOf(Stripped(path), '/') > 0
    ensures match Resolved(look, parent)
      case Err(e) => parent != "" && CreationPoint(look, path) == Err(e)
      case Ok(ns) => AllOrdinary(ns) && Ordinary(base) && CreationPoint(look, path) == Ok(ns + [base])
  {
    MissingNotRoot(look, path);
    NamesEmpty();
    var p := StripTail(path);
    parent, base := SplitBase(p);
    MissingSplit(look, path, p, parent, base);
  }

  /** The answer that goes with a place. */
  lemma CreatedIsDescribed(res: Resolver, original: string, ns: seq<string>, host: string, readOnly: bool)
    requires CreatedAt(res, Absolute(original), ns, host, readOnly)
    ensures PathSpec(original, EndsWithSlash(original), Base(original) == ".", false, false, readOnly, host)
      == if TopLevelMount(res, Absolute(original)) then InRootFilesystem(res, original)
         else Described(original, res, ns, false, false)
  {
  }

  /** The answer for a missing path: its parent is resolved and the base joined to it; then the place is
      looked up. */
  method DescribeMissing(original: string, res: Resolver, fs: HostFS, ghost look: View) returns (r: SpecResult)
    requires Shows(look, res, fs) && AbsoluteDestinations(res)
    requires Resolved(look, Absolute(original)) == Err(NotExist)
    ensures match CreationPoint(look, Absolute(original))
      case Err(e) => r == Refusal(e)
      case Ok(ns) =>
        r == Spec(if TopLevelMount(res, Absolute(original)) then InRootFilesystem(res, original)
                  else Described(original, res, ns, false, false))
  {
    ShowsWellNamed(look, res, fs);
    var parent, base := SplitMissing(Absolute(original), look);
    var resolved := ResolvePath(res, fs, parent, look);
    if resolved.Err? {
      if resolved.error == NotExist { return Refused(DoesNotExist); }
      if resolved.error == NotADir { return Refused(IsNotADir); }
      return Refused(Other(resolved.error));
    }
    ghost var ns := Resolved(look, parent).value;
    var host, readOnly := PlaceFromParent(res, Absolute(original), parent, base, resolved.value, ns);
    CreatedIsDescribed(res, original, ns + [base], host, readOnly);
    r := Spec(PathSpec(original, EndsWithSlash(original), Base(original) == ".", false, false, readOnly, host));
  }

  /** The answer for a path that exists. */
  method DescribePresent(original: string, res: Resolver, resolved: string, stat: string -> Result<bool>,
                         ghost ns: seq<string>) returns (r: SpecResult)
    requires AllOrdinary(ns) && resolved == AbsPath(ns)
    ensures r == match stat(HostPath(res, ns))
      case Ok(isADir) => Spec(Described(original, res, ns, true, isADir))
      case Err(e) => Refused(Other(e))
  {
    var host, readOnly := Place(res, resolved, ns);
    var st := stat(host);
    if st.Err? { return Refused(Other(st.error)); }
    r := Spec(PathSpec(original, EndsWithSlash(original), Base(original) == ".", true, st.value, readOnly, host));
  }

  /** `getPathSpecFromContainer`. `stat` is the host's answer to whether a path is a directory. */
  method GetPathSpecFromContainer(originalPath: string, res: Resolver, fs: HostFS,
                                  stat: string -> Result<bool>, ghost look: View) returns (r: SpecResult)
    requires Shows(look, res, fs) && AbsoluteDestinations(res)
    ensures Specified(look, res, stat, originalPath, r)
    ensures Answers(look, res, stat, originalPath, r)
  {
    var path := originalPath;
    if !Rooted(path) {
      path := "/" + path;
    }
    r := Describe(originalPath, path, res, fs, stat, look);
    SpecifiedAnswers(look, res, stat, originalPath, r);
  }

  /** The rest of it, for the path made absolute. */
  method Describe(originalPath: string, path: string, res: Resolver, fs: HostFS,
                  stat: string -> Result<bool>, ghost look: View) returns (r: SpecResult)
    requires Shows(look, res, fs) && AbsoluteDestinations(res) && path == Absolute(originalPath)
    ensures Specified(look, res, stat, originalPath, r)
  {
    var resolved := ResolvePath(res, fs, path, look);
    if resolved.Err? && resolved.error != NotExist {
      if resolved.error == NotADir { return Refused(IsNotADir); }
      return Refused(Other(resolved.error));
    }
    if resolved.Err? {
      r := DescribeMissing(originalPath, res, fs, look);
    } else {
      ShowsWellNamed(look, res, fs);
      ResolvedIsFinal(look, path);
      r := DescribePresent(originalPath, res, resolved.value, stat, Resolved(look, path).value);
    }
  }

  // ----- the exception -----

  /** For a missing top-level mount point the specification answers with the mount: its source and its
      read-only option. */
  lemma TopLevelBelongsToMount(look: View, res: Resolver, stat: string -> Result<bool>, original: string, base: string)
    requires var path := Absolute(original);
      && Resolved(look, path) == Err(NotExist)
      && Stripped(path) == "/" + base && Ordinary(base) && TopLevelMount(res, path)
    ensures var m := res.mounts[FirstAt(res.mounts, "/" + base)];
      ContainerSpec(look, res, stat, original) ==
        Spec(InRootFilesystem(res, original).(readOnly := "ro" in m.options, resolvedPath := Under(m.source, [])))
  {
    TopLevelNames("/" + base, base);
    assert Parent([base]) == [] && DropDots([base]) == [base];
    StrippedNames(Absolute(original));
    assert CreationPoint(look, Absolute(original)) == Ok([base]) by { assert [] + [base] == [base]; }
  }

  /** So the exceptional answer is the specified one exactly when the mount is as read-only as the root
      filesystem and its source is the very place in the root filesystem. */
  lemma ExceptionAgreesExactlyWhen(look: View, res: Resolver, stat: string -> Result<bool>,
                                   original: string, base: string)
    requires var path := Absolute(original);
      && Resolved(look, path) == Err(NotExist)
      && Stripped(path) == "/" + base && Ordinary(base) && TopLevelMount(res, path)
    ensures var m := res.mounts[FirstAt(res.mounts, "/" + base)];
      ContainerSpec(look, res, stat, original) == Spec(InRootFilesystem(res, original))
      <==> ("ro" in m.options) == res.rootReadonly && Under(m.source, []) == Under(res.hostRoot, [base])
  {
    TopLevelBelongsToMount(look, res, stat, original, base);
    TopLevelNames("/" + base, base);
  }

  lemma UnderAbsolute(ns: seq<string>, rel: seq<string>)
    requires AllOrdinary(ns)
    ensures Under(AbsPath(ns), rel) == AbsPath(ns + rel)
  {
    NamesAbs(ns);
    NormId(true, ns);
  }

  lemma StrippedName(base: string)
    requires Ordinary(base)
    ensures Stripped("/" + base) == "/" + base
  {
    var p := "/" + base;
    assert p[|p| - 1] == base[|base| - 1] && base[|base| - 1] in base;
    assert |base| > 1 ==> p[|p| - 2] == base[|base| - 2] && base[|base| - 2] in base;
    assert |base| == 1 ==> base == [base[0]];
    assert !HasSuffix(p, "/.") && TrimRight(p, '/') == p;
  }

  lemma MissingInRoot(look: View, d: string)
    requires Ordinary(d) && look([d]) == Missing
    ensures Resolved(look, "/" + d) == Err(NotExist) && CreationPoint(look, "/" + d) == Ok([d])
  {
    TopLevelNames("/" + d, d);
    StrippedName(d);
    assert d[|d| - 1] in d;
    assert Items("/" + d) == [d] && DropDots([d]) == [d];
    assert [] + [d] == [d] && Parent([d]) == [];
  }

  /** The two answers do differ: a read-only mount `/d` of the host's `/s` in a container rooted at
      `/r`, with nothing at all on the host, is answered with the writable `/r/d`. */
  lemma OverlookedMount(d: string, s: string, r: string, look: View)
    requires Ordinary(d) && Ordinary(s) && Ordinary(r)
    requires Shows(look, Resolver(false, [Mount(AbsPath([d]), AbsPath([s]), ["ro"])], AbsPath([r])), map[])
    ensures var res := Resolver(false, [Mount(AbsPath([d]), AbsPath([s]), ["ro"])], AbsPath([r]));
      && Resolved(look, "/" + d) == Err(NotExist)
      && CreationPoint(look, "/" + d) == Ok([d]) && TopLevelMount(res, "/" + d)
      && InRootFilesystem(res, "/" + d).resolvedPath == AbsPath([r, d]) != AbsPath([s]) == HostPath(res, [d])
      && !InRootFilesystem(res, "/" + d).readOnly && Locate(res, [d]).readonly
  {
    var res := Resolver(false, [Mount(AbsPath([d]), AbsPath([s]), ["ro"])], AbsPath([r]));
    assert HostPath(res, [d]) == Under(AbsPath([s]), []);
    MissingInRoot(look, d);
    OverlookedPlaces(res, d, s, r);
  }

  lemma OverlookedPlaces(res: Resolver, d: string, s: string, r: string)
    requires Ordinary(d) && Ordinary(s) && Ordinary(r)
    requires res == Resolver(false, [Mount(AbsPath([d]), AbsPath([s]), ["ro"])], AbsPath([r]))
    ensures TopLevelMount(res, "/" + d) && !InRootFilesystem(res, "/" + d).readOnly
    ensures InRootFilesystem(res, "/" + d).resolvedPath == AbsPath([r, d]) != AbsPath([s]) == HostPath(res, [d])
    ensures Locate(res, [d]).readonly
  {
    TopLevelNames("/" + d, d);
    StrippedName(d);
    OverlookedSource(res, d, s);
    UnderAbsolute([r], [d]);
    assert [r] + [d] == [r, d];
    if AbsPath([r, d]) == AbsPath([s]) { AbsInjective([r, d], [s]); }
  }

  lemma OverlookedSource(res: Resolver, d: string, s: string)
    requires Ordinary(s) && res.mounts == [Mount(AbsPath([d]), AbsPath([s]), ["ro"])]
    ensures HostPath(res, [d]) == AbsPath([s]) && Locate(res, [d]).readonly
  {
    var m := res.mounts[0];
    assert FirstAt(res.mounts, AbsPath([d])) == 0;
    assert Locate(res, [d]) == MountOverlay.Place(m.source, "ro" in m.options, [d], []);
    assert m.options[0] == "ro";
    UnderAbsolute([s], []);
    assert [s] + [] == [s];
  }
}

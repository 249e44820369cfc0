/** `resolvePath`: following a path inside a container across symbolic links and mounts. The code
    walks a string by indices, splices link targets into it and keeps `..` components it cannot
    discard; the specification walks a list of components. */
module PathResolver {
  import opened Strings
  import opened Paths
  import opened MountOverlay
  import opened PathWalk

  /** What `lstat` and `readlink` report about a host path. */
  datatype Node =
    | Absent
    | Fault(code: int)
    | File
    | Dir
    | Link(target: string)
    | UnreadableLink(code: int)

  type HostFS = map<string, Node>

  function Lstat(fs: HostFS, host: string): Node {
    if host in fs then fs[host] else Absent
  }

  // ----- specification -----

  function Interpret(node: Node): Entry {
    match node
    case Absent => Missing
    case Fault(code) => Broken(code)
    case File => Plain
    case Dir => Directory
    case Link(target) => Symlink(Rooted(target), Names(target), EndsWithSlash(target))
    case UnreadableLink(code) => UnreadableSymlink(code)
  }

  /** A view that shows, at every path of the container, what the host has where that path lives. */
  ghost predicate Shows(look: View, res: Resolver, fs: HostFS) {
    forall ns {:trigger HostPath(res, ns)} :: look(ns) == Interpret(Lstat(fs, HostPath(res, ns)))
  }

  function ViewOf(res: Resolver, fs: HostFS): View {
    ns => Interpret(Lstat(fs, HostPath(res, ns)))
  }

  function Resolved(look: View, path: string): Result<seq<string>> {
    Walk(look, [], Items(path), MAX_LINKS)
  }

  function Printed(r: Result<seq<string>>): Result<string> {
    match r case Ok(ns) => Ok(AbsPath(ns)) case Err(e) => Err(e)
  }

  // ----- the destination string of the loop -----

  /** The `..` components kept in the destination all stand where cleaning has reached the root. */
  ghost predicate Shape(ns: seq<string>) {
    && (forall n :: n in ns ==> IsName(n) && n != ".")
    && (forall i :: 0 <= i < |ns| && ns[i] == ".." ==> Norm(true, ns[..i + 1]) == [])
  }

  function BackedUp(ns: seq<string>): seq<string> {
    if |ns| <= 1 || ns[|ns| - 1] == ".." then ns + [".."] else Parent(ns)
  }

  lemma ShapeSnoc(ns: seq<string>, c: string)
    requires Shape(ns) && IsName(c) && c != "."
    requires c == ".." ==> Norm(true, ns + [c]) == []
    ensures Shape(ns + [c])
  {
    var ms := ns + [c];
    forall i | 0 <= i < |ms| && ms[i] == ".." ensures Norm(true, ms[..i + 1]) == [] {
      if i < |ns| { assert ms[..i + 1] == ns[..i + 1]; } else { assert ms[..i + 1] == ms; }
    }
  }

  lemma ShapeParent(ns: seq<string>)
    requires Shape(ns)
    ensures Shape(Parent(ns))
  {
    var ms := Parent(ns);
    forall i | 0 <= i < |ms| && ms[i] == ".." ensures Norm(true, ms[..i + 1]) == [] {
      assert ms[..i + 1] == ns[..i + 1];
    }
  }

  /** Keeping a `..` and discarding a component both lead to the parent of the cleaned path. */
  lemma BackedUpIsParent(ns: seq<string>)
    requires Shape(ns)
    ensures Shape(BackedUp(ns)) && Norm(true, BackedUp(ns)) == Parent(Norm(true, ns))
  {
    if |ns| <= 1 || ns[|ns| - 1] == ".." {
      NormSnoc(true, ns, "..");
      if |ns| >= 1 { assert ns[..|ns|] == ns; }
      if |ns| == 1 { assert Norm(true, Parent(ns)) == []; }
      ShapeSnoc(ns, "..");
    } else {
      ShapeParent(ns);
      var c := ns[|ns| - 1];
      assert ns == Parent(ns) + [c];
      NormSnoc(true, Parent(ns), c);
      assert c in ns;
    }
  }

  lemma AbsSnoc(ns: seq<string>, c: string)
    ensures AbsPath(ns + [c]) == (if ns == [] then "" else AbsPath(ns)) + ['/'] + c
  {
    if ns == [] {
      assert ns + [c] == [c];
    } else {
      JoinSnoc(ns, '/', c);
      Assoc("/", Join(ns, '/'), ['/'] + c);
      Assoc(Join(ns, '/'), ['/'], c);
      Assoc(AbsPath(ns), ['/'], c);
    }
  }

  lemma CutSeparator(h: string, c: string)
    ensures (h + ['/'] + c)[..|h|] == h && (h + ['/'] + c)[|h| + 1..] == c
  {
  }

  /** Where the backward scan for a separator stops on an absolute path. */
  lemma LastSeparator(ns: seq<string>, r: int)
    requires AllNames(ns) && 0 <= r < |AbsPath(ns)|
    requires var dest := AbsPath(ns); '/' !in dest[r + 1..] && (r >= 1 ==> dest[r] == '/')
    ensures r < 1 <==> |ns| <= 1
    ensures r >= 1 ==> AbsPath(ns)[..r] == AbsPath(Parent(ns)) && AbsPath(ns)[r + 1..] == ns[|ns| - 1]
  {
    if ns != [] {
      var up, c := Parent(ns), ns[|ns| - 1];
      assert c in ns && ns == up + [c];
      var h := if up == [] then "" else AbsPath(up);
      AbsSnoc(up, c);
      LastIsUnique(h, '/', c, r);
      CutSeparator(h, c);
    }
  }

  method FindSeparator(dest: string, volLen: nat) returns (r: int)
    requires volLen <= |dest|
    ensures volLen - 1 <= r < |dest|
    ensures '/' !in dest[r + 1..] && (r >= volLen ==> dest[r] == '/')
  {
    r := |dest| - 1;
    while r >= volLen && dest[r] != '/'
      invariant volLen - 1 <= r < |dest|
      invariant '/' !in dest[r + 1..]
    {
      assert dest[r..] == [dest[r]] + dest[r + 1..];
      r := r - 1;
    }
  }

  /** Backing up over the last component of the destination, or keeping a `..`. */
  method BackUp(dest: string, volLen: nat, ghost ns: seq<string>) returns (up: string)
    requires volLen == 1 && AllNames(ns) && dest == AbsPath(ns)
    ensures up == AbsPath(BackedUp(ns))
  {
    var r := FindSeparator(dest, volLen);
    LastSeparator(ns, r);
    if r < volLen || dest[r + 1..] == ".." {
      up := dest;
      if |dest| > volLen { up := up + "/"; }
      up := up + "..";
      AppendName(ns, "..");
    } else {
      up := dest[..r];
    }
  }

  /** The destination after a relative link: its last component goes. */
  method DropLast(dest: string, vol: string, volLen: nat, ghost ns: seq<string>) returns (up: string)
    requires volLen == 1 && vol == "/" && ns != [] && AllNames(ns) && dest == AbsPath(ns)
    ensures up == AbsPath(Parent(ns))
  {
    var r := FindSeparator(dest, volLen);
    LastSeparator(ns, r);
    if r < volLen { up := vol; } else { up := dest[..r]; }
  }

  lemma AppendName(ns: seq<string>, c: string)
    requires AllNames(ns) && IsName(c)
    ensures AbsPath(ns + [c]) == (if ns == [] then AbsPath(ns) else AbsPath(ns) + "/") + c
    ensures |AbsPath(ns)| > 1 <==> ns != []
    ensures ns != [] <==> !EndsWithSlash(AbsPath(ns))
  {
    if ns != [] {
      JoinSnoc(ns, '/', c);
      var last := ns[|ns| - 1];
      assert IsName(last);
      assert ns == Parent(ns) + [last];
      if |ns| > 1 { JoinSnoc(Parent(ns), '/', last); }
      assert EndsWithName(AbsPath(ns), last);
      assert last[|last| - 1] in last;
    } else {
      assert ns + [c] == [c];
    }
  }

  predicate EndsWithName(s: string, c: string) { HasSuffix(s, c) }

  // ----- the unread part of the path -----

  lemma SkipOne(s: string)
    requires Rooted(s)
    ensures s[1..] != "" ==> Items(s) == Items(s[1..])
    ensures s[1..] == "" ==> Items(s) == ["."]
  {
    NamesEmpty();
    NamesSlash(s);
    if s[1..] != "" { assert s[1..][|s| - 2] == s[|s| - 1]; }
  }

  /** Leading separators do not matter, except that a path of nothing else reads as `.` or as empty. */
  lemma {:induction false} SkipSeparators(s: string, k: nat)
    requires k <= |s| && forall i :: 0 <= i < k ==> s[i] == '/'
    ensures k < |s| ==> Items(s) == Items(s[k..])
    ensures k == |s| ==> Items(s) == [] || Items(s) == ["."]
  {
    NamesEmpty();
    if k == 0 {
      assert s[0..] == s;
      assert |s| == 0 ==> s == "";
    } else {
      SkipOne(s);
      SkipSeparators(s[1..], k - 1);
      assert s[1..][k - 1..] == s[k..];
    }
  }

  /** How the strings of the loop read as lists of components. */
  ghost predicate Reads(path: string, start: nat, dest: string, ns: seq<string>) {
    start <= |path| && dest == AbsPath(ns) && Shape(ns)
  }

  /** The next component is what lies between `from` and `end`. */
  ghost predicate Component(path: string, start: nat, from: nat, end: nat) {
    && start <= from < end <= |path|
    && (forall i :: start <= i < from ==> path[i] == '/')
    && (forall i :: from <= i < end ==> path[i] != '/')
    && (end < |path| ==> path[end] == '/')
  }

  lemma SkipToComponent(path: string, start: nat, from: nat)
    requires start <= from < |path| && forall i :: start <= i < from ==> path[i] == '/'
    ensures Items(path[start..]) == Items(path[from..])
  {
    SkipSeparators(path[start..], from - start);
    assert path[start..][from - start..] == path[from..];
  }

  lemma DropSplits<T>(s: seq<T>, i: nat, j: nat)
    requires i <= j <= |s|
    ensures s[i..] == s[i..j] + s[j..]
  {
  }

  /** Reading one component off the unread part. */
  lemma ReadComponent(path: string, start: nat, from: nat, end: nat)
    requires Component(path, start, from, end)
    ensures IsName(path[from..end]) && (path[end..] == "" || Rooted(path[end..]))
    ensures Items(path[start..]) == [path[from..end]] + Items(path[end..])
    ensures Items(path[end..]) == [] <==> end == |path|
  {
    var c, rest := path[from..end], path[end..];
    SkipToComponent(path, start, from);
    DropSplits(path, from, end);
    assert c != "" && forall i :: 0 <= i < |c| ==> c[i] != '/';
    ItemsName(c, rest);
    if end < |path| { ItemsNonEmpty(rest); } else { assert rest == ""; NamesEmpty(); }
  }

  /** Cleaning the destination after an ordinary component. */
  lemma Enter(ns: seq<string>, c: string)
    requires Shape(ns) && Ordinary(c)
    ensures Shape(ns + [c]) && Norm(true, ns + [c]) == Norm(true, ns) + [c]
    ensures Parent(ns + [c]) == ns
  {
    NormSnoc(true, ns, c);
    ShapeSnoc(ns, c);
  }

  /** Adding an ordinary component to the destination. */
  method Extend(dest: string, c: string, ghost ns: seq<string>) returns (longer: string)
    requires AllNames(ns) && IsName(c) && dest == AbsPath(ns)
    ensures longer == AbsPath(ns + [c])
  {
    AppendName(ns, c);
    longer := dest;
    if |longer| > 0 && longer[|longer| - 1] != '/' {
      longer := longer + "/";
    }
    longer := longer + c;
  }

  /** Splicing a link target in front of the unread part. */
  lemma SpliceLink(target: string, rest: string)
    requires rest == "" || Rooted(rest)
    ensures Splice(Names(target), EndsWithSlash(target), Items(rest)) == Items(target + rest)
  {
    ItemsRest(target, rest);
    NamesEmpty();
    if rest != "" { ItemsNonEmpty(rest); } else { assert target + rest == target; }
  }

  /** An absolute path is read from after its first separator. */
  lemma FromRoot(look: View, path: string, cur: seq<string>, links: nat)
    requires Rooted(path)
    ensures Walk(look, cur, Items(path), links) == Walk(look, cur, Items(path[1..]), links)
  {
    SkipSeparators(path, 1);
    if path[1..] == "" {
      NamesEmpty();
      WalkDot(look, cur, links);
    }
  }

  method SkipTo(path: string, start: nat, separators: bool) returns (i: nat)
    requires start <= |path|
    ensures start <= i <= |path|
    ensures forall k :: start <= k < i ==> (path[k] == '/') == separators
    ensures i < |path| ==> (path[i] == '/') != separators
  {
    i := start;
    while i < |path| && (path[i] == '/') == separators
      invariant start <= i <= |path|
      invariant forall k :: start <= k < i ==> (path[k] == '/') == separators
    {
      i := i + 1;
    }
  }

  method LstatInContainer(res: Resolver, fs: HostFS, dest: string, ghost ns: seq<string>, ghost look: View)
    returns (fi: Node)
    requires dest == AbsPath(ns) && AllNames(ns) && Shows(look, res, fs)
    ensures Interpret(fi) == look(Norm(true, ns))
  {
    var hostPath := PathOnHost(res, dest);
    NamesAbs(ns);
    fi := Lstat(fs, hostPath);
  }

  /** The variables of the loop. */
  datatype Loop = Loop(path: string, start: nat, dest: string, vol: string, volLen: nat, linksWalked: nat)

  /** What the loop keeps: its strings read as the directory `cur` and the components still to
      walk, from which the specification reaches the outcome sought. */
  ghost predicate Keeps(look: View, goal: Result<seq<string>>, l: Loop, ns: seq<string>) {
    && Reads(l.path, l.start, l.dest, ns)
    && l.volLen == 1 && l.vol == "/" && l.linksWalked <= MAX_LINKS
    && goal == Walk(look, Norm(true, ns), Items(l.path[l.start..]), MAX_LINKS - l.linksWalked)
  }

  /** A symbolic link: its target is spliced into the path and the walk resumes at the root or at the
      link's directory. */
  method FollowLink(l: Loop, end: nat, dest: string, link: string, ghost ns: seq<string>, ghost c: string)
    returns (next: Loop)
    requires end <= |l.path| && IsName(c) && AllNames(ns) && dest == AbsPath(ns + [c])
    requires l.volLen == 1 && l.vol == "/"
    ensures next ==
      if Rooted(link) then Loop(link + l.path[end..], 1, "/", "/", 1, l.linksWalked + 1)
      else Loop(link + l.path[end..], 0, AbsPath(ns), "/", 1, l.linksWalked + 1)
  {
    var path := link + l.path[end..];
    if |link| > 0 && link[0] == '/' {
      assert link[..1] == "/";
      next := Loop(path, 1, link[..1], link[..1], 1, l.linksWalked + 1);
    } else {
      assert Parent(ns + [c]) == ns;
      var up := DropLast(dest, l.vol, l.volLen, ns + [c]);
      next := Loop(path, 0, up, l.vol, l.volLen, l.linksWalked + 1);
    }
  }

  /** A component has been read off the path and is the next one to walk. */
  ghost predicate Faces(look: View, goal: Result<seq<string>>, l: Loop, end: nat, c: string, ns: seq<string>) {
    && Reads(l.path, end, l.dest, ns) && (end < |l.path| ==> l.path[end] == '/')
    && l.volLen == 1 && l.vol == "/" && l.linksWalked <= MAX_LINKS
    && goal == Walk(look, Norm(true, ns), [c] + Items(l.path[end..]), MAX_LINKS - l.linksWalked)
  }

  lemma KeepsFaces(look: View, goal: Result<seq<string>>, l: Loop, from: nat, end: nat, ns: seq<string>)
    requires Keeps(look, goal, l, ns) && Component(l.path, l.start, from, end)
    ensures IsName(l.path[from..end]) && Faces(look, goal, l, end, l.path[from..end], ns)
  {
    ReadComponent(l.path, l.start, from, end);
  }

  lemma KeepsHere(look: View, goal: Result<seq<string>>, l: Loop, end: nat, ns: seq<string>)
    requires Faces(look, goal, l, end, ".", ns)
    ensures Keeps(look, goal, l.(start := end), ns)
  {
    StepHere(look, Norm(true, ns), Items(l.path[end..]), MAX_LINKS - l.linksWalked);
  }

  lemma KeepsUp(look: View, goal: Result<seq<string>>, l: Loop, end: nat, ns: seq<string>)
    requires Faces(look, goal, l, end, "..", ns)
    ensures Keeps(look, goal, l.(start := end, dest := AbsPath(BackedUp(ns))), BackedUp(ns))
  {
    StepUp(look, Norm(true, ns), Items(l.path[end..]), MAX_LINKS - l.linksWalked);
    BackedUpIsParent(ns);
  }

  /** An entry that ends the walk with an error. */
  lemma FacesError(look: View, goal: Result<seq<string>>, l: Loop, end: nat, c: string, ns: seq<string>, fi: Node)
    requires Faces(look, goal, l, end, c, ns) && Ordinary(c) && look(Norm(true, ns) + [c]) == Interpret(fi)
    ensures fi.Absent? ==> goal == Err(NotExist)
    ensures fi.Fault? ==> goal == Err(Failed(fi.code))
    ensures fi.File? && end < |l.path| ==> goal == Err(NotADir)
    ensures (fi.Link? || fi.UnreadableLink?) && l.linksWalked == MAX_LINKS ==> goal == Err(TooManyLinks)
    ensures fi.UnreadableLink? && l.linksWalked < MAX_LINKS ==> goal == Err(Failed(fi.code))
  {
    if end < |l.path| { ItemsNonEmpty(l.path[end..]); }
    StepFails(look, Norm(true, ns), c, Items(l.path[end..]), MAX_LINKS - l.linksWalked);
  }

  lemma FacesInto(look: View, goal: Result<seq<string>>, l: Loop, end: nat, c: string, ns: seq<string>)
    requires Faces(look, goal, l, end, c, ns) && Ordinary(c)
    requires look(Norm(true, ns) + [c]).Directory? || (look(Norm(true, ns) + [c]).Plain? && end == |l.path|)
    ensures goal == Walk(look, Norm(true, ns) + [c], Items(l.path[end..]), MAX_LINKS - l.linksWalked)
  {
    var rest := l.path[end..];
    if end == |l.path| { NamesEmpty(); assert rest == ""; }
    StepInto(look, Norm(true, ns), c, Items(rest), MAX_LINKS - l.linksWalked);
  }

  /** A directory, or a last component that is no directory, is entered. */
  lemma KeepsInto(look: View, goal: Result<seq<string>>, l: Loop, end: nat, c: string, ns: seq<string>)
    requires Faces(look, goal, l, end, c, ns) && Ordinary(c)
    requires look(Norm(true, ns) + [c]).Directory? || (look(Norm(true, ns) + [c]).Plain? && end == |l.path|)
    ensures Keeps(look, goal, l.(start := end, dest := AbsPath(ns + [c])), ns + [c])
  {
    FacesInto(look, goal, l, end, c, ns);
    Enter(ns, c);
  }

  lemma FacesLink(look: View, goal: Result<seq<string>>, l: Loop, end: nat, c: string, ns: seq<string>, link: string)
    requires Faces(look, goal, l, end, c, ns) && Ordinary(c) && l.linksWalked < MAX_LINKS
    requires look(Norm(true, ns) + [c]) == Interpret(Link(link))
    ensures goal == Walk(look, if Rooted(link) then [] else Norm(true, ns), Items(link + l.path[end..]),
                         MAX_LINKS - l.linksWalked - 1)
  {
    var cur, rest := Norm(true, ns), Items(l.path[end..]);
    assert look(cur + [c]) == Symlink(Rooted(link), Names(link), EndsWithSlash(link));
    StepLink(look, cur, c, rest, MAX_LINKS - l.linksWalked);
    SpliceLink(link, l.path[end..]);
  }

  lemma KeepsFromRoot(look: View, goal: Result<seq<string>>, path: string, used: nat)
    requires Rooted(path) && used <= MAX_LINKS && goal == Walk(look, [], Items(path), MAX_LINKS - used)
    ensures Keeps(look, goal, Loop(path, 1, "/", "/", 1, used), [])
  {
    RootReads(path);
    FromRoot(look, path, [], MAX_LINKS - used);
  }

  lemma RootReads(path: string)
    requires Rooted(path)
    ensures Reads(path, 1, "/", []) && Norm(true, []) == []
  {
    Root();
  }

  /** After an absolute link the loop starts over at the root. */
  lemma KeepsAbsolute(look: View, goal: Result<seq<string>>, l: Loop, end: nat, c: string,
                      ns: seq<string>, link: string)
    requires Faces(look, goal, l, end, c, ns) && Ordinary(c) && l.linksWalked < MAX_LINKS
    requires look(Norm(true, ns) + [c]) == Interpret(Link(link)) && Rooted(link)
    ensures Keeps(look, goal, Loop(link + l.path[end..], 1, "/", "/", 1, l.linksWalked + 1), [])
  {
    FacesLink(look, goal, l, end, c, ns, link);
    KeepsFromRoot(look, goal, link + l.path[end..], l.linksWalked + 1);
  }

  /** After a relative link it goes on from the directory that holds the link. */
  lemma KeepsRelative(look: View, goal: Result<seq<string>>, l: Loop, end: nat, c: string,
                      ns: seq<string>, link: string)
    requires Faces(look, goal, l, end, c, ns) && Ordinary(c) && l.linksWalked < MAX_LINKS
    requires look(Norm(true, ns) + [c]) == Interpret(Link(link)) && !Rooted(link)
    ensures Keeps(look, goal, Loop(link + l.path[end..], 0, AbsPath(ns), "/", 1, l.linksWalked + 1), ns)
  {
    var path, left := link + l.path[end..], MAX_LINKS - (l.linksWalked + 1);
    FacesLink(look, goal, l, end, c, ns, link);
    assert path[0..] == path;
    assert goal == Walk(look, Norm(true, ns), Items(path[0..]), left);
  }

  /** An ordinary component: look it up, and enter it, stop at it or follow it. */
  method EnterComponent(res: Resolver, fs: HostFS, l: Loop, end: nat, c: string,
                        ghost look: View, ghost goal: Result<seq<string>>, ghost ns: seq<string>)
    returns (stop: Option<Error>, next: Loop, ghost ms: seq<string>)
    requires Shows(look, res, fs) && Ordinary(c) && l.start < end && Faces(look, goal, l, end, c, ns)
    ensures stop.Some? ==> goal == Err(stop.value)
    ensures stop.None? ==> Keeps(look, goal, next, ms)
    ensures stop.None? ==> next.linksWalked == l.linksWalked + 1 || (next == l.(start := end, dest := next.dest))
  {
    stop, next, ms := None, l, ns;
    var dest := Extend(l.dest, c, ns);
    var fi := LstatInContainer(res, fs, dest, ns + [c], look);
    Enter(ns, c);
    FacesError(look, goal, l, end, c, ns, fi);
    if fi.Absent? { stop := Some(NotExist); return; }
    if fi.Fault? { stop := Some(Failed(fi.code)); return; }
    if !fi.Link? && !fi.UnreadableLink? {
      if !fi.Dir? && end < |l.path| {
        stop := Some(NotADir);
        return;
      }
      KeepsInto(look, goal, l, end, c, ns);
      next, ms := l.(start := end, dest := dest), ns + [c];
    } else {
      var linksWalked := l.linksWalked + 1;
      if linksWalked > 255 {
        stop := Some(TooManyLinks);
        return;
      }
      if fi.UnreadableLink? { stop := Some(Failed(fi.code)); return; }
      next := FollowLink(l, end, dest, fi.target, ns, c);
      if Rooted(fi.target) {
        KeepsAbsolute(look, goal, l, end, c, ns, fi.target);
        ms := [];
      } else {
        KeepsRelative(look, goal, l, end, c, ns, fi.target);
      }
    }
  }

  /** One round of the loop, with the next component found between `from` and `end`. */
  method Advance(res: Resolver, fs: HostFS, l: Loop, from: nat, end: nat,
                 ghost look: View, ghost goal: Result<seq<string>>, ghost ns: seq<string>)
    returns (stop: Option<Error>, next: Loop, ghost ms: seq<string>)
    requires Shows(look, res, fs) && Keeps(look, goal, l, ns) && Component(l.path, l.start, from, end)
    ensures stop.Some? ==> goal == Err(stop.value)
    ensures stop.None? ==> Keeps(look, goal, next, ms)
    ensures stop.None? ==> next.linksWalked == l.linksWalked + 1 || (next == l.(start := end, dest := next.dest))
  {
    stop, next, ms := None, l, ns;
    var c := l.path[from..end];
    KeepsFaces(look, goal, l, from, end, ns);
    if c == "." {
      KeepsHere(look, goal, l, end, ns);
      next := l.(start := end);
    } else if c == ".." {
      KeepsUp(look, goal, l, end, ns);
      var dest := BackUp(l.dest, l.volLen, ns);
      next, ms := l.(start := end, dest := dest), BackedUp(ns);
    } else {
      stop, next, ms := EnterComponent(res, fs, l, end, c, look, goal, ns);
    }
  }

  lemma KeepsStart(look: View, given: string)
    requires Rooted(given)
    ensures Keeps(look, Resolved(look, given), Loop(given, 1, "/", "/", 1, 0), [])
  {
    KeepsFromRoot(look, Resolved(look, given), given, 0);
  }

  lemma KeepsEnd(look: View, goal: Result<seq<string>>, l: Loop, ns: seq<string>)
    requires Keeps(look, goal, l, ns)
    requires forall i :: l.start <= i < |l.path| ==> l.path[i] == '/'
    ensures Printed(goal) == Ok(Clean(l.dest))
  {
    WalkEnd(look, l.path, l.start, l.dest, ns, MAX_LINKS - l.linksWalked);
  }

  /** `resolvePath`. Its caller hands it an absolute path, or the empty string left of the only
      separator of a path such as `/name`. */
  method ResolvePath(res: Resolver, fs: HostFS, given: string, ghost look: View) returns (result: Result<string>)
    requires given == "" || Rooted(given)
    requires Shows(look, res, fs)
    ensures result == if given == "" then Ok(".") else Printed(Resolved(look, given))
  {
    var volLen := 0;
    if volLen < |given| && given[volLen] == '/' {
      volLen := volLen + 1;
    }
    var vol := given[..volLen];
    var l := Loop(given, volLen, vol, vol, volLen, 0);
    ghost var goal, ns := Resolved(look, given), [];
    if given != "" { KeepsStart(look, given); }
    while l.start < |l.path|
      invariant if given == "" then l.path == "" && l.dest == "" else Keeps(look, goal, l, ns)
      decreases MAX_LINKS - l.linksWalked, |l.path| - l.start
    {
      var from := SkipTo(l.path, l.start, true);
      var end := SkipTo(l.path, from, false);
      if end == from {
        break;
      }
      var stop, next;
      stop, next, ns := Advance(res, fs, l, from, end, look, goal, ns);
      if stop.Some? {
        return Err(stop.value);
      }
      l := next;
    }
    if given != "" { KeepsEnd(look, goal, l, ns); }
    result := Ok(Clean(l.dest));
  }

  lemma Root()
    ensures AbsPath([]) == "/" && Shape([]) && Norm(true, []) == []
  {
  }

  lemma WalkEnd(look: View, path: string, start: nat, dest: string, ns: seq<string>, links: nat)
    requires Reads(path, start, dest, ns)
    requires forall i :: start <= i < |path| ==> path[i] == '/'
    ensures Walk(look, Norm(true, ns), Items(path[start..]), links) == Ok(Norm(true, ns))
    ensures Clean(dest) == AbsPath(Norm(true, ns))
  {
    SkipSeparators(path[start..], |path| - start);
    WalkDot(look, Norm(true, ns), links);
    CleanAbs(ns);
  }

  // ----- what a resolved path is -----

  lemma ViewOfShows(res: Resolver, fs: HostFS)
    ensures Shows(ViewOf(res, fs), res, fs)
  {
  }

  lemma ShowsWellNamed(look: View, res: Resolver, fs: HostFS)
    requires Shows(look, res, fs)
    ensures WellNamed(look)
  {
    forall ns | look(ns).Symlink? ensures AllNames(look(ns).names) {
      var node := Lstat(fs, HostPath(res, ns));
      assert look(ns) == Interpret(node);
      NamesAll(node.target);
    }
  }

  lemma ItemsAbs(ns: seq<string>)
    requires AllNames(ns)
    ensures Items(AbsPath(ns)) == if ns == [] then ["."] else ns
  {
    NamesAbs(ns);
    AppendName(ns, "x");
  }

  /** A successful resolution returns a clean absolute path without links, all of whose proper
      prefixes are directories; resolving that path returns it again. */
  lemma ResolvedIsFinal(look: View, path: string)
    requires WellNamed(look)
    ensures match Resolved(look, path)
      case Err(e) => true
      case Ok(ns) =>
        && Settled(look, ns)
        && Clean(AbsPath(ns)) == AbsPath(ns)
        && Resolved(look, AbsPath(ns)) == Ok(ns)
  {
    NamesAll(path);
    WalkSettles(look, [], Items(path), MAX_LINKS);
    match Resolved(look, path)
    case Err(e) =>
    case Ok(ns) =>
      CleanAbs(ns);
      NormId(true, ns);
      ItemsAbs(ns);
      WalkAgain(look, ns, MAX_LINKS);
      WalkDot(look, [], MAX_LINKS);
  }

  /** A resolution may follow 255 links and no more. */
  lemma AtMost255Links(look: View, path: string, more: nat)
    requires more >= 255 && Walk(look, [], Items(path), more) != Err(TooManyLinks)
    ensures Resolved(look, path) ==
      if LinksUsed(look, [], Items(path), more) <= 255 then Walk(look, [], Items(path), more) else Err(TooManyLinks)
  {
    BoundIsExact(look, [], Items(path), 255, more);
  }

  /** A trailing separator asks for a directory. */
  lemma TrailingSeparator(look: View, ns: seq<string>)
    requires Settled(look, ns) && ns != []
    ensures Resolved(look, AbsPath(ns) + "/") == if look(ns).Directory? then Ok(ns) else Err(NotADir)
  {
    NamesAbs(ns);
    NamesConcat(AbsPath(ns), "");
    NamesEmpty();
    assert AbsPath(ns) + "/" + "" == AbsPath(ns) + "/";
    assert Items(AbsPath(ns) + "/") == ns + ["."];
    WalkAgain(look, ns, MAX_LINKS);
    WalkComposes(look, [], ns, ["."], MAX_LINKS);
    forall left: nat { WalkDot(look, ns, left); }
  }

  /** What a resolution says of a name that is missing, and of one below a file: the host's own errors. */
  lemma MissingAndBelowFile(look: View, ns: seq<string>, c: string, d: string)
    requires Settled(look, ns) && (ns == [] || look(ns).Directory?) && Ordinary(c) && IsName(d)
    ensures look(ns + [c]) == Missing ==> Resolved(look, AbsPath(ns + [c])) == Err(NotExist)
    ensures look(ns + [c]) == Plain ==> Resolved(look, AbsPath(ns + [c])) == Ok(ns + [c])
    ensures look(ns + [c]) == Plain ==> Resolved(look, AbsPath(ns + [c, d])) == Err(NotADir)
  {
    ItemsAbs(ns + [c]);
    ItemsAbs(ns + [c, d]);
    WalkAgain(look, ns, MAX_LINKS);
    WalkComposes(look, [], ns, [c], MAX_LINKS);
    WalkComposes(look, [], ns, [c, d], MAX_LINKS);
    assert [c, d][1..] == [d];
  }
}

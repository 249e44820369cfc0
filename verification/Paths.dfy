/** Slash-separated paths: their components, lexical cleaning as Go's `filepath.Clean` and
    `filepath.Join` do it on Linux, and the reading of a pathname as a list of components that
    section 4.13 of POSIX.1-2017 (Base Definitions) prescribes. */
module Paths {
  import opened Strings

  /** A path component: not empty and free of separators. */
  predicate IsName(c: string) { c != "" && '/' !in c }

  /** A component that names an entry, rather than the directory itself or its parent. */
  predicate Ordinary(c: string) { IsName(c) && c != "." && c != ".." }

  predicate AllNames(ns: seq<string>) { forall n :: n in ns ==> IsName(n) }

  predicate AllOrdinary(ns: seq<string>) { forall n :: n in ns ==> Ordinary(n) }

  /** The components of a path: what lies between separators, runs of separators counting once. */
  function Names(s: string): seq<string> {
    NonEmpty(Split(s, '/'))
  }

  predicate Rooted(s: string) { s != "" && s[0] == '/' }

  predicate EndsWithSlash(s: string) { s != "" && s[|s| - 1] == '/' }

  /** A pathname as a list of components; a trailing slash reads as a final `.`. */
  function Items(s: string): seq<string> {
    Names(s) + if EndsWithSlash(s) then ["."] else []
  }

  function AbsPath(ns: seq<string>): string { "/" + Join(ns, '/') }

  function Parent(ns: seq<string>): seq<string> {
    if ns == [] then [] else ns[..|ns| - 1]
  }

  /** One step of lexical cleaning. */
  function Push(rooted: bool, acc: seq<string>, c: string): seq<string> {
    if c == "." then acc
    else if c != ".." then acc + [c]
    else if acc != [] && acc[|acc| - 1] != ".." then Parent(acc)
    else if rooted then acc
    else acc + [c]
  }

  function Norm(rooted: bool, ns: seq<string>): seq<string> {
    if ns == [] then [] else Push(rooted, Norm(rooted, Parent(ns)), ns[|ns| - 1])
  }

  function Render(rooted: bool, ns: seq<string>): string {
    if rooted then AbsPath(ns)
    else if ns == [] then "."
    else Join(ns, '/')
  }

  /** `filepath.Clean`. */
  function Clean(s: string): string {
    Render(Rooted(s), Norm(Rooted(s), Names(s)))
  }

  /** `filepath.Join`: leading empty elements are skipped, the rest is joined and cleaned. */
  function JoinElems(elems: seq<string>): string {
    if elems == [] then ""
    else if elems[0] == "" then JoinElems(elems[1..])
    else Clean(Join(elems, '/'))
  }

  /** `filepath.Base`. */
  function Base(s: string): string {
    if s == "" then "."
    else
      var t := TrimRight(s, '/');
      if t == "" then "/" else t[LastIndexOf(t, '/') + 1..]
  }

  // ----- components -----

  lemma NamesAll(s: string)
    ensures AllNames(Names(s)) && AllNames(Items(s))
  {
    SplitPieces(s, '/');
    NonEmptyPieces(Split(s, '/'));
  }

  /** The components of a concatenation at a separator. */
  lemma NamesConcat(a: string, b: string)
    ensures Names(a + "/" + b) == Names(a) + Names(b)
  {
    SplitAppend(a, '/', b);
    NonEmptyAppend(Split(a, '/'), Split(b, '/'));
    assert a + "/" + b == a + ['/'] + b;
  }

  lemma NamesEmpty()
    ensures Names("") == []
  {
    SplitOne("", '/');
  }

  lemma NamesSlash(s: string)
    requires Rooted(s)
    ensures Names(s) == Names(s[1..])
  {
    NamesEmpty();
    NamesConcat("", s[1..]);
    assert s == "" + "/" + s[1..];
  }

  lemma NamesOne(c: string)
    requires IsName(c)
    ensures Names(c) == [c]
  {
    SplitOne(c, '/');
    NonEmptyId([c]);
  }

  /** What follows a component starts with a separator or is empty. */
  lemma NamesRest(a: string, r: string)
    requires r == "" || Rooted(r)
    ensures Names(a + r) == Names(a) + Names(r)
  {
    if r == "" {
      NamesEmpty();
      assert a + r == a;
    } else {
      var t := r[1..];
      assert r == "/" + t;
      assert a + r == a + "/" + t;
      NamesConcat(a, t);
      NamesSlash(r);
    }
  }

  /** The same for pathnames: only the last part's trailing slash counts. */
  lemma ItemsRest(a: string, r: string)
    requires r == "" || Rooted(r)
    ensures Items(a + r) == if r == "" then Items(a) else Names(a) + Items(r)
  {
    NamesRest(a, r);
    if r == "" {
      assert a + r == a;
      NamesEmpty();
    } else {
      assert (a + r)[|a + r| - 1] == r[|r| - 1];
    }
  }

  lemma ItemsName(c: string, r: string)
    requires IsName(c) && (r == "" || Rooted(r))
    ensures Items(c + r) == [c] + Items(r)
  {
    ItemsRest(c, r);
    NamesOne(c);
    if r == "" {
      NamesEmpty();
      assert c[|c| - 1] in c;
    }
  }

  lemma ItemsNonEmpty(r: string)
    requires Rooted(r)
    ensures Items(r) != []
  {
    if !EndsWithSlash(r) {
      LastIndexOfLast(r, '/');
      var i := LastIndexOf(r, '/');
      var h, c := r[..i], r[i + 1..];
      assert r == h + "/" + c;
      NamesConcat(h, c);
      NamesOne(c);
    }
  }

  lemma {:induction false} NamesJoin(ns: seq<string>)
    requires AllNames(ns)
    ensures Names(Join(ns, '/')) == ns
  {
    if ns == [] {
      NamesEmpty();
    } else {
      SplitJoin(ns, '/');
      NonEmptyId(ns);
    }
  }

  /** An absolute path is made of its components. */
  lemma NamesAbs(ns: seq<string>)
    requires AllNames(ns)
    ensures Names(AbsPath(ns)) == ns
  {
    NamesJoin(ns);
    NamesSlash(AbsPath(ns));
    assert AbsPath(ns)[1..] == Join(ns, '/');
  }

  lemma AbsInjective(a: seq<string>, b: seq<string>)
    requires AllNames(a) && AllNames(b) && AbsPath(a) == AbsPath(b)
    ensures a == b
  {
    NamesAbs(a);
    NamesAbs(b);
  }

  // ----- cleaning -----

  lemma NormSnoc(rooted: bool, ns: seq<string>, c: string)
    ensures Norm(rooted, ns + [c]) == Push(rooted, Norm(rooted, ns), c)
  {
    assert Parent(ns + [c]) == ns;
  }

  /** Cleaning a rooted path leaves entries only. */
  lemma {:induction false} NormRooted(ns: seq<string>)
    requires AllNames(ns)
    ensures AllOrdinary(Norm(true, ns))
  {
    if ns != [] { NormRooted(Parent(ns)); }
  }

  /** Entries below a cleaned path are kept as they are. */
  lemma {:induction false} NormBelow(rooted: bool, ns: seq<string>, rel: seq<string>)
    requires AllOrdinary(rel)
    ensures Norm(rooted, ns + rel) == Norm(rooted, ns) + rel
  {
    if rel == [] {
      assert ns + rel == ns;
    } else {
      var up, last := Parent(rel), rel[|rel| - 1];
      assert last in rel && rel == up + [last];
      NormBelow(rooted, ns, up);
      Assoc(ns, up, [last]);
      NormSnoc(rooted, ns + up, last);
      Assoc(Norm(rooted, ns), up, [last]);
    }
  }

  lemma NormId(rooted: bool, ns: seq<string>)
    requires AllOrdinary(ns)
    ensures Norm(rooted, ns) == ns
  {
    NormBelow(rooted, [], ns);
    assert [] + ns == ns;
  }

  lemma CleanAbs(ns: seq<string>)
    requires AllNames(ns)
    ensures Clean(AbsPath(ns)) == AbsPath(Norm(true, ns))
  {
    NamesAbs(ns);
  }

  /** A clean absolute path is the print of its own components, all of them entries. */
  lemma CleanNames(path: string)
    requires Rooted(path) && Clean(path) == path
    ensures AllOrdinary(Names(path)) && path == AbsPath(Names(path))
  {
    var ns := Norm(true, Names(path));
    NamesAll(path);
    NormRooted(Names(path));
    NamesAbs(ns);
  }
}

/** Pathname resolution on lists of components, over an arbitrary filesystem: what section 4.13 of
    POSIX.1-2017 (Base Definitions) calls pathname resolution, with a bound on the links followed.
    The filesystem may be cyclic, and following a link may lengthen what remains to be walked. */
module PathWalk {
  import opened Strings
  import opened Paths

  datatype Error = NotExist | NotADir | TooManyLinks | Failed(code: int)

  datatype Result<+T> = Ok(value: T) | Err(error: Error)

  const MAX_LINKS: nat := 255

  /** What stands at a list of components in a container, as its processes see it. A link carries its
      target's components, whether the target is absolute and whether it ends with a slash. */
  datatype Entry =
    | Missing
    | Broken(code: int)
    | Plain
    | Directory
    | Symlink(absolute: bool, names: seq<string>, slash: bool)
    | UnreadableSymlink(code: int)

  type View = seq<string> -> Entry

  /** The contents of a link put in front of what remains of the path, if anything does. */
  function Splice(names: seq<string>, slash: bool, rest: seq<string>): seq<string> {
    names + if rest != [] then rest else if slash then ["."] else []
  }

  /** Pathname resolution component by component, from the directory `cur`, following at most
      `links` further links. */
  function Walk(look: View, cur: seq<string>, todo: seq<string>, links: nat): Result<seq<string>>
    decreases links, |todo|
  {
    if todo == [] then Ok(cur)
    else
      var c, rest := todo[0], todo[1..];
      if c == "." then Walk(look, cur, rest, links)
      else if c == ".." then Walk(look, Parent(cur), rest, links)
      else
        match look(cur + [c])
        case Missing => Err(NotExist)
        case Broken(code) => Err(Failed(code))
        case Directory => Walk(look, cur + [c], rest, links)
        case Plain => if rest != [] then Err(NotADir) else Ok(cur + [c])
        case Symlink(absolute, names, slash) =>
          if links == 0 then Err(TooManyLinks)
          else Walk(look, if absolute then [] else cur, Splice(names, slash, rest), links - 1)
        case UnreadableSymlink(code) => if links == 0 then Err(TooManyLinks) else Err(Failed(code))
  }

  // ----- single steps -----

  lemma WalkDot(look: View, cur: seq<string>, links: nat)
    ensures Walk(look, cur, ["."], links) == Walk(look, cur, [], links) == Ok(cur)
  {
    assert ["."][1..] == [];
  }

  lemma StepHere(look: View, cur: seq<string>, todo: seq<string>, links: nat)
    ensures Walk(look, cur, ["."] + todo, links) == Walk(look, cur, todo, links)
  {
    assert (["."] + todo)[1..] == todo;
  }

  lemma StepUp(look: View, cur: seq<string>, todo: seq<string>, links: nat)
    ensures Walk(look, cur, [".."] + todo, links) == Walk(look, Parent(cur), todo, links)
  {
    assert ([".."] + todo)[1..] == todo;
  }

  lemma StepFails(look: View, cur: seq<string>, c: string, todo: seq<string>, links: nat)
    requires c != "." && c != ".."
    ensures look(cur + [c]) == Missing ==> Walk(look, cur, [c] + todo, links) == Err(NotExist)
    ensures look(cur + [c]).Broken? ==> Walk(look, cur, [c] + todo, links) == Err(Failed(look(cur + [c]).code))
    ensures look(cur + [c]).Plain? && todo != [] ==> Walk(look, cur, [c] + todo, links) == Err(NotADir)
    ensures look(cur + [c]).Symlink? && links == 0 ==> Walk(look, cur, [c] + todo, links) == Err(TooManyLinks)
    ensures look(cur + [c]).UnreadableSymlink? && links == 0 ==> Walk(look, cur, [c] + todo, links) == Err(TooManyLinks)
    ensures look(cur + [c]).UnreadableSymlink? && links > 0 ==>
      Walk(look, cur, [c] + todo, links) == Err(Failed(look(cur + [c]).code))
  {
    assert ([c] + todo)[1..] == todo;
  }

  lemma StepInto(look: View, cur: seq<string>, c: string, todo: seq<string>, links: nat)
    requires c != "." && c != ".."
    requires look(cur + [c]).Directory? || (look(cur + [c]).Plain? && todo == [])
    ensures Walk(look, cur, [c] + todo, links) == Walk(look, cur + [c], todo, links)
  {
    assert ([c] + todo)[1..] == todo;
  }

  lemma StepLink(look: View, cur: seq<string>, c: string, todo: seq<string>, links: nat)
    requires c != "." && c != ".." && look(cur + [c]).Symlink? && links > 0
    ensures var e := look(cur + [c]);
      Walk(look, cur, [c] + todo, links) ==
        Walk(look, if e.absolute then [] else cur, Splice(e.names, e.slash, todo), links - 1)
  {
    assert ([c] + todo)[1..] == todo;
  }


  // ----- what a resolved path is -----

  /** Every non-empty prefix, the whole included, is a directory. */
  ghost predicate DirChain(look: View, ns: seq<string>) {
    forall i :: 0 < i <= |ns| ==> look(ns[..i]).Directory?
  }

  /** Links hold names, not separators or empty components. */
  ghost predicate WellNamed(look: View) {
    forall ns :: look(ns).Symlink? ==> AllNames(look(ns).names)
  }

  /** Fully resolved: no `.`, no `..`, no link, and directories all the way to the last component,
      which exists. */
  ghost predicate Settled(look: View, ns: seq<string>) {
    && AllOrdinary(ns)
    && DirChain(look, Parent(ns))
    && (ns != [] ==> look(ns).Directory? || look(ns).Plain?)
  }

  lemma DirChainParent(look: View, ns: seq<string>)
    requires DirChain(look, ns)
    ensures DirChain(look, Parent(ns))
  {
    forall i | 0 < i <= |Parent(ns)| ensures look(Parent(ns)[..i]).Directory? {
      assert Parent(ns)[..i] == ns[..i];
    }
  }

  lemma DirChainSnoc(look: View, ns: seq<string>, c: string)
    requires DirChain(look, ns) && look(ns + [c]).Directory?
    ensures DirChain(look, ns + [c])
  {
    forall i | 0 < i <= |ns| + 1 ensures look((ns + [c])[..i]).Directory? {
      if i <= |ns| { assert (ns + [c])[..i] == ns[..i]; } else { assert (ns + [c])[..i] == ns + [c]; }
    }
  }

  /** Whatever a walk reaches is fully resolved. */
  lemma {:induction false} WalkSettles(look: View, cur: seq<string>, todo: seq<string>, links: nat)
    requires WellNamed(look) && AllNames(todo) && AllOrdinary(cur) && DirChain(look, cur)
    ensures Walk(look, cur, todo, links).Ok? ==> Settled(look, Walk(look, cur, todo, links).value)
    decreases links, |todo|
  {
    if todo == [] {
      DirChainParent(look, cur);
      if cur != [] { assert cur[..|cur|] == cur; }
    } else {
      var c, rest := todo[0], todo[1..];
      assert todo == [c] + rest && c in todo;
      if c == "." {
        WalkSettles(look, cur, rest, links);
      } else if c == ".." {
        DirChainParent(look, cur);
        WalkSettles(look, Parent(cur), rest, links);
      } else {
        assert Parent(cur + [c]) == cur;
        match look(cur + [c])
        case Directory =>
          DirChainSnoc(look, cur, c);
          WalkSettles(look, cur + [c], rest, links);
        case Symlink(absolute, names, slash) =>
          if links > 0 {
            WalkSettles(look, if absolute then [] else cur, Splice(names, slash, rest), links - 1);
          }
        case _ =>
      }
    }
  }

  /** Walking a fully resolved path stays on it and follows no link. */
  lemma {:induction false} WalkOnPath(look: View, ns: seq<string>, i: nat, links: nat)
    requires Settled(look, ns) && i <= |ns|
    ensures Walk(look, ns[..i], ns[i..], links) == Ok(ns)
    decreases |ns| - i
  {
    if i == |ns| {
      assert ns[..i] == ns;
    } else {
      var c := ns[i];
      assert c in ns;
      assert ns[..i] + [c] == ns[..i + 1];
      assert ns[i..][1..] == ns[i + 1..];
      if i + 1 < |ns| { assert Parent(ns)[..i + 1] == ns[..i + 1]; } else { assert ns[..i + 1] == ns; }
      if look(ns[..i + 1]).Directory? { WalkOnPath(look, ns, i + 1, links); }
    }
  }

  /** Resolution is idempotent. */
  lemma WalkAgain(look: View, ns: seq<string>, links: nat)
    requires Settled(look, ns)
    ensures Walk(look, [], ns, links) == Ok(ns)
  {
    WalkOnPath(look, ns, 0, links);
    assert ns[..0] == [] && ns[0..] == ns;
  }

  // ----- the bound on links -----

  /** The number of links a walk follows before it ends, `limit` at the most. */
  function LinksUsed(look: View, cur: seq<string>, todo: seq<string>, limit: nat): (used: nat)
    ensures used <= limit
    decreases limit, |todo|
  {
    if todo == [] then 0
    else
      var c, rest := todo[0], todo[1..];
      if c == "." then LinksUsed(look, cur, rest, limit)
      else if c == ".." then LinksUsed(look, Parent(cur), rest, limit)
      else
        match look(cur + [c])
        case Directory => LinksUsed(look, cur + [c], rest, limit)
        case Symlink(absolute, names, slash) =>
          if limit == 0 then 0
          else 1 + LinksUsed(look, if absolute then [] else cur, Splice(names, slash, rest), limit - 1)
        case UnreadableSymlink(code) => if limit == 0 then 0 else 1
        case _ => 0
  }

  /** The bound refuses exactly the walks that need more links than it allows, and changes nothing
      about the others. */
  lemma {:induction false} BoundIsExact(look: View, cur: seq<string>, todo: seq<string>, links: nat, more: nat)
    requires links <= more && Walk(look, cur, todo, more) != Err(TooManyLinks)
    ensures Walk(look, cur, todo, links) ==
      if LinksUsed(look, cur, todo, more) <= links then Walk(look, cur, todo, more) else Err(TooManyLinks)
    decreases links, |todo|
  {
    if todo != [] {
      var c, rest := todo[0], todo[1..];
      if c == "." {
        BoundIsExact(look, cur, rest, links, more);
      } else if c == ".." {
        BoundIsExact(look, Parent(cur), rest, links, more);
      } else {
        match look(cur + [c])
        case Directory => BoundIsExact(look, cur + [c], rest, links, more);
        case Symlink(absolute, names, slash) =>
          if links > 0 {
            BoundIsExact(look, if absolute then [] else cur, Splice(names, slash, rest), links - 1, more - 1);
          }
        case _ =>
      }
    }
  }

  /** A link to itself, wherever it is, uses up every bound. */
  lemma {:induction false} SelfLink(look: View, cur: seq<string>, c: string, rest: seq<string>, links: nat)
    requires Ordinary(c) && look(cur + [c]) == Symlink(false, [c], false)
    ensures Walk(look, cur, [c] + rest, links) == Err(TooManyLinks)
    ensures LinksUsed(look, cur, [c] + rest, links) == links
    decreases links
  {
    assert ([c] + rest)[1..] == rest;
    if links > 0 {
      SelfLink(look, cur, c, rest, links - 1);
      assert [c] + [] == [c];
    }
  }

  // ----- composition -----

  /** Walking `a` and then `b`: an error on the way is final, a file in the middle is not a
      directory, and otherwise the walk of `b` starts where the walk of `a` ended. */
  ghost predicate Composes(look: View, cur: seq<string>, a: seq<string>, b: seq<string>, links: nat) {
    match Walk(look, cur, a, links)
    case Err(e) => Walk(look, cur, a + b, links) == Err(e)
    case Ok(ns) =>
      if ns != [] && look(ns).Plain? then Walk(look, cur, a + b, links) == Err(NotADir)
      else exists left: nat :: left <= links && Walk(look, cur, a + b, links) == Walk(look, ns, b, left)
  }

  lemma {:induction false} WalkComposes(look: View, cur: seq<string>, a: seq<string>, b: seq<string>, links: nat)
    requires DirChain(look, cur) && b != []
    ensures Composes(look, cur, a, b, links)
    decreases links, |a|
  {
    if a == [] {
      assert a + b == b;
      if cur != [] { assert cur[..|cur|] == cur; }
      assert Walk(look, cur, a, links) == Ok(cur);
      assert links <= links && Walk(look, cur, a + b, links) == Walk(look, cur, b, links);
    } else {
      var c, rest := a[0], a[1..];
      assert (a + b)[1..] == rest + b;
      if c == "." {
        WalkComposes(look, cur, rest, b, links);
      } else if c == ".." {
        DirChainParent(look, cur);
        WalkComposes(look, Parent(cur), rest, b, links);
      } else {
        match look(cur + [c])
        case Directory =>
          DirChainSnoc(look, cur, c);
          WalkComposes(look, cur + [c], rest, b, links);
        case Symlink(absolute, names, slash) =>
          if links > 0 { LinkComposes(look, if absolute then [] else cur, names, slash, rest, b, links - 1); }
        case _ =>
      }
    }
  }

  lemma {:induction false} LinkComposes(look: View, cur: seq<string>, names: seq<string>, slash: bool,
                                        rest: seq<string>, b: seq<string>, links: nat)
    requires DirChain(look, cur) && b != []
    ensures match Walk(look, cur, Splice(names, slash, rest), links)
      case Err(e) => Walk(look, cur, Splice(names, slash, rest + b), links) == Err(e)
      case Ok(ns) =>
        if ns != [] && look(ns).Plain? then Walk(look, cur, Splice(names, slash, rest + b), links) == Err(NotADir)
        else exists left: nat ::
          left <= links && Walk(look, cur, Splice(names, slash, rest + b), links) == Walk(look, ns, b, left)
    decreases links + 1, 0
  {
    if rest != [] {
      assert Splice(names, slash, rest + b) == Splice(names, slash, rest) + b;
      WalkComposes(look, cur, names + rest, b, links);
    } else {
      assert rest + b == b;
      WalkComposes(look, cur, names, b, links);
      if slash {
        WalkComposes(look, cur, names, ["."], links);
        forall ns: seq<string>, k: nat { WalkDot(look, ns, k); }
      } else {
        assert Splice(names, slash, rest) == names;
      }
    }
  }
}

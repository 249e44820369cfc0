/** Reading and printing image references. Which references survive being printed and read back is
    decided exactly: `ReadsBack` is a condition on the five fields. */
module ImageUrl {
  import opened Strings

  datatype Info = Info(registry: string, namespace: string, repository: string, tag: string, digest: string)

  const DOCKER: string := "docker.io"
  const LATEST: string := "latest"
  const LIBRARY: string := "library"

  /** One to five digits are taken for a port, never for a tag. */
  predicate PortLike(s: string) { 0 < |s| <= 5 && forall i :: 0 <= i < |s| ==> Digit(s[i]) }

  predicate SchemeAt(s: string, k: nat) { k + 3 <= |s| && s[k] == ':' && s[k + 1] == '/' && s[k + 2] == '/' }

  predicate HasScheme(s: string) { exists k: nat :: k < |s| && SchemeAt(s, k) }

  // ----- reading -----

  function LastPiece(s: string): string { s[LastIndexOf(s, ':') + 1..] }

  /** Whether the text after the last colon is taken for a tag. */
  predicate Tagged(s: string) {
    ':' in s && !HasScheme(s) && '/' !in LastPiece(s) && !PortLike(LastPiece(s))
  }

  /** The reference without its tag. */
  function Untagged(s: string): string {
    if Tagged(s) && LastIndexOf(s, ':') >= 0 then s[..LastIndexOf(s, ':')] else s
  }

  function TagOf(s: string): string { if Tagged(s) then LastPiece(s) else LATEST }

  /** A first component with a dot or a colon is a registry. */
  predicate HasRegistry(s: string) { '/' in s && ('.' in Before(s, '/') || ':' in Before(s, '/')) }

  function ReadPath(s: string, tag: string, digest: string): Option<Info> {
    var path := if HasRegistry(s) then After(s, '/') else s;
    if path == "" then None
    else if '/' in path then
      Some(Info(if HasRegistry(s) then Before(s, '/') else DOCKER, Before(path, '/'), After(path, '/'), tag, digest))
    else if HasRegistry(s) then Some(Info(Before(s, '/'), "", path, tag, digest))
    else Some(Info(DOCKER, LIBRARY, path, tag, digest))
  }

  function Read(url: string): Option<Info> {
    if url == "" then None
    else var s := Before(url, '@'); ReadPath(Untagged(s), TagOf(s), After(url, '@'))
  }

  // ----- printing -----

  function Name(i: Info): string {
    if i.namespace != "" && i.repository != "" then i.namespace + ['/'] + i.repository
    else i.namespace + i.repository
  }

  predicate OnDocker(i: Info) { i.registry == "" || i.registry == DOCKER }

  function Body(i: Info): string {
    if OnDocker(i) then Name(i) else i.registry + ['/'] + Name(i)
  }

  /** A part that is left out when it is empty. */
  function Suffix(c: char, s: string): string { if s == "" then "" else [c] + s }

  function TagText(tag: string): string { if tag == LATEST then "" else Suffix(':', tag) }

  function Printed(i: Info): string { Body(i) + TagText(i.tag) + Suffix('@', i.digest) }

  // ----- what reads back -----

  predicate PathReadsBack(i: Info) {
    && i.repository != "" && '/' !in i.namespace
    && if i.registry == DOCKER then i.namespace != "" && '.' !in i.namespace && ':' !in i.namespace
       else
         && '/' !in i.registry && ('.' in i.registry || ':' in i.registry)
         && (i.namespace == "" ==> '/' !in i.repository)
  }

  /** `body` is what precedes the tag. */
  predicate TagReadsBack(body: string, tag: string) {
    if tag == LATEST then !Tagged(body)
    else tag != "" && ':' !in tag && '/' !in tag && !PortLike(tag) && !HasScheme(body + [':'] + tag)
  }

  predicate AtFree(i: Info) {
    '@' !in i.registry && '@' !in i.namespace && '@' !in i.repository && '@' !in i.tag
  }

  predicate ReadsBack(i: Info) { AtFree(i) && PathReadsBack(i) && TagReadsBack(Body(i), i.tag) }

  // ----- halves -----

  lemma Halves(s: string, c: char)
    ensures c !in Before(s, c)
    ensures if c in s then s == Before(s, c) + [c] + After(s, c) else Before(s, c) == s && After(s, c) == ""
  {
    IndexOfFirst(s, c);
  }

  lemma HalvesWithin(s: string, c: char, d: char)
    requires d !in s
    ensures d !in Before(s, c) && d !in After(s, c)
  {
  }

  lemma AppendSuffix(a: string, c: char, b: string)
    ensures a + Suffix(c, b) == if b == "" then a else a + [c] + b
  {
  }

  lemma CutSuffix(a: string, c: char, b: string)
    requires c !in a
    ensures Before(a + Suffix(c, b), c) == a && After(a + Suffix(c, b), c) == b
  {
    AppendSuffix(a, c, b);
    if b == "" { Halves(a, c); } else { CutAt(a, c, b); }
  }

  // ----- the tag -----

  lemma LastPieceOf(body: string, tag: string)
    requires ':' !in tag
    ensures LastIndexOf(body + [':'] + tag, ':') == |body|
    ensures LastPiece(body + [':'] + tag) == tag && (body + [':'] + tag)[..|body|] == body
  {
    LastIndexBeforeSuffix(body, ':', tag);
    assert (body + [':'] + tag)[|body| + 1..] == tag;
  }

  /** The pieces around the last colon. */
  lemma LastHalves(s: string)
    ensures ':' !in LastPiece(s)
    ensures Tagged(s) ==> s == Untagged(s) + [':'] + LastPiece(s)
  {
    LastIndexOfLast(s, ':');
  }

  /** The printed tag is cut off again, leaving the body, exactly when `TagReadsBack` says so. */
  lemma TagReadsBackIff(body: string, tag: string)
    ensures var s := body + TagText(tag);
      TagReadsBack(body, tag) <==> Untagged(s) == body && TagOf(s) == tag
  {
    if tag == LATEST || tag == "" {
      assert body + TagText(tag) == body;
      LastHalves(body);
      assert Tagged(body) ==> |Untagged(body)| < |body|;
    } else {
      var s := body + [':'] + tag;
      assert body + TagText(tag) == s;
      LastHalves(s);
      if ':' !in tag { LastPieceOf(body, tag); }
    }
  }

  // ----- the path -----

  /** What is left after the registry. */
  lemma NameReadsBackIff(i: Info)
    ensures var n := Name(i);
      i.repository != "" && '/' !in i.namespace && (i.namespace == "" ==> '/' !in i.repository)
      <==> n != "" && if '/' in n then Before(n, '/') == i.namespace && After(n, '/') == i.repository
                      else i.namespace == "" && i.repository == n
  {
    var n := Name(i);
    Halves(n, '/');
    if i.namespace != "" && i.repository != "" && '/' !in i.namespace { CutAt(i.namespace, '/', i.repository); }
  }

  /** A name whose beginning is taken for a registry is longer than what is read from the rest. */
  lemma PrefixedDiffers(i: Info)
    requires HasRegistry(Name(i))
    ensures ReadPath(Name(i), i.tag, i.digest) != Some(i)
  {
    var path := After(Name(i), '/');
    Halves(Name(i), '/');
    Halves(path, '/');
    assert |path| < |Name(i)|;
  }

  /** On Docker Hub. */
  lemma DockerReadsBackIff(i: Info)
    requires i.registry == DOCKER
    ensures PathReadsBack(i) <==> ReadPath(Body(i), i.tag, i.digest) == Some(i)
  {
    NameReadsBackIff(i);
    if HasRegistry(Name(i)) { PrefixedDiffers(i); }
    if '/' !in Name(i) { SingleNameDiffers(i); }
  }

  lemma SingleNameDiffers(i: Info)
    requires i.registry == DOCKER && '/' !in Name(i)
    ensures ReadPath(Name(i), i.tag, i.digest) != Some(i) && !PathReadsBack(i)
  {
    if i.namespace != "" && i.repository != "" { NameHasSlash(i.namespace, i.repository); }
  }

  lemma NameHasSlash(a: string, b: string)
    ensures '/' in a + ['/'] + b
  {
    assert (a + ['/'] + b)[|a|] == '/';
  }

  /** On another registry. */
  lemma RegistryReadsBackIff(i: Info)
    requires !OnDocker(i)
    ensures PathReadsBack(i) <==> ReadPath(Body(i), i.tag, i.digest) == Some(i)
  {
    var s := Body(i);
    Halves(s, '/');
    if '/' !in i.registry {
      CutAt(i.registry, '/', Name(i));
      NameReadsBackIff(i);
    }
  }

  lemma PathReadsBackIff(i: Info)
    ensures PathReadsBack(i) <==> ReadPath(Body(i), i.tag, i.digest) == Some(i)
  {
    if i.registry == DOCKER {
      DockerReadsBackIff(i);
    } else if i.registry == "" {
      NoEmptyRegistry(Body(i), i.tag, i.digest);
    } else {
      RegistryReadsBackIff(i);
    }
  }

  lemma NoEmptyRegistry(s: string, tag: string, digest: string)
    ensures var r := ReadPath(s, tag, digest); r.Some? ==> r.value.registry != ""
  {
  }

  /** Reading never makes the body longer, but for the namespace it adds. */
  lemma BodyLength(s: string, tag: string, digest: string)
    ensures var r := ReadPath(s, tag, digest);
      r.Some? ==> |Body(r.value)| <= |s| || |Body(r.value)| == |s| + |LIBRARY| + 1
  {
    Halves(s, '/');
    Halves(After(s, '/'), '/');
  }

  // ----- the digest -----

  lemma AtFreeBody(i: Info)
    requires AtFree(i)
    ensures '@' !in Body(i) + TagText(i.tag)
  {
  }

  lemma CutsAtFree(s: string)
    requires '@' !in s
    ensures '@' !in Untagged(s) && '@' !in TagOf(s)
  {
    var l := LATEST;
    assert '@' !in l;
  }

  lemma PathAtFree(s: string, tag: string, digest: string)
    requires '@' !in s && '@' !in tag
    ensures var r := ReadPath(s, tag, digest); r.Some? ==> AtFree(r.value)
  {
    var d, l := DOCKER, LIBRARY;
    assert '@' !in d && '@' !in l;
    HalvesWithin(s, '/', '@');
    HalvesWithin(After(s, '/'), '/', '@');
  }

  /** Nothing read from a text without `@` holds one. */
  lemma ReadAtFree(s: string, digest: string)
    requires '@' !in s
    ensures var r := ReadPath(Untagged(s), TagOf(s), digest); r.Some? ==> AtFree(r.value)
  {
    CutsAtFree(s);
    PathAtFree(Untagged(s), TagOf(s), digest);
  }

  // ----- the main results -----

  lemma ReadPrinted(i: Info)
    requires AtFree(i) && Printed(i) != ""
    ensures var s := Body(i) + TagText(i.tag);
      Read(Printed(i)) == ReadPath(Untagged(s), TagOf(s), i.digest)
  {
    AtFreeBody(i);
    CutSuffix(Body(i) + TagText(i.tag), '@', i.digest);
  }

  /** When the printed text reads back, its tag was cut off in the right place. */
  lemma CutInPlace(i: Info)
    requires var s := Body(i) + TagText(i.tag); ReadPath(Untagged(s), TagOf(s), i.digest) == Some(i)
    ensures var s := Body(i) + TagText(i.tag); Untagged(s) == Body(i) && TagOf(s) == i.tag
  {
    var s := Body(i) + TagText(i.tag);
    BodyLength(Untagged(s), TagOf(s), i.digest);
    LastHalves(s);
    if i.tag == LATEST || i.tag == "" {
      assert s == Body(i);
      assert Tagged(s) ==> |s| == |Untagged(s)| + 1 + |i.tag|;
    } else {
      SplitSame(Untagged(s), ':', LastPiece(s), Body(i), i.tag);
    }
  }

  lemma SplitSame(a: string, c: char, t: string, b: string, u: string)
    requires t == u
    ensures a + [c] + t == b + [c] + u ==> a == b
  {
    if a + [c] + t == b + [c] + u {
      assert a == (a + [c] + t)[..|a|] && b == (b + [c] + u)[..|b|];
    }
  }

  /** The round trip, for every value of the five fields: printing and reading give the same reference
      back exactly when `ReadsBack` holds. */
  lemma PrintThenRead(i: Info)
    ensures ReadsBack(i) <==> Read(Printed(i)) == Some(i)
  {
    var s := Body(i) + TagText(i.tag);
    if AtFree(i) && Printed(i) != "" {
      ReadPrinted(i);
      TagReadsBackIff(Body(i), i.tag);
      PathReadsBackIff(i);
      if ReadPath(Untagged(s), TagOf(s), i.digest) == Some(i) { CutInPlace(i); }
    } else if !AtFree(i) {
      Halves(Printed(i), '@');
      ReadAtFree(Before(Printed(i), '@'), After(Printed(i), '@'));
    }
  }

  /** The familiar sufficient condition: plain components read back, ports in the registry included. */
  lemma PlainReferencesReadBack(i: Info)
    requires AtFree(i) && ':' !in i.repository && ':' !in i.namespace && '/' !in i.namespace
    requires i.repository != "" && (i.namespace == "" ==> '/' !in i.repository)
    requires if i.registry == DOCKER then i.namespace != "" && '.' !in i.namespace
             else '/' !in i.registry && ('.' in i.registry || ':' in i.registry)
    requires i.tag != "" && ':' !in i.tag && '/' !in i.tag && !PortLike(i.tag)
    ensures Read(Printed(i)) == Some(i)
  {
    PrintThenRead(i);
    if i.tag == LATEST {
      PlainBodyUntagged(i);
    } else {
      var s := Body(i) + [':'] + i.tag;
      forall k: nat | k < |s| ensures !SchemeAt(s, k) { NoSchemeAt(i, k); }
    }
  }

  /** A colon is in the registry or starts the tag; a slash after it is followed by a name. */
  lemma NoSchemeAt(i: Info, k: nat)
    requires ':' !in i.repository && ':' !in i.namespace && '/' !in i.namespace && i.repository != ""
    requires i.namespace == "" ==> '/' !in i.repository
    requires '/' !in i.tag && (OnDocker(i) || '/' !in i.registry)
    ensures !SchemeAt(Body(i) + [':'] + i.tag, k)
  {
    var r := if OnDocker(i) then "" else i.registry + ['/'];
    assert Body(i) == r + Name(i);
    NameFacts(i);
    if k + 3 <= |Body(i) + [':'] + i.tag| {
      CharAt(r, Name(i), i.tag, k);
      CharAt(r, Name(i), i.tag, k + 1);
      CharAt(r, Name(i), i.tag, k + 2);
    }
  }

  lemma CharAt(r: string, n: string, t: string, j: nat)
    requires j < |r + n + [':'] + t|
    ensures (r + n + [':'] + t)[j] == if j < |r| then r[j] else if j < |r| + |n| then n[j - |r|]
                                      else if j == |r| + |n| then ':' else t[j - |r| - |n| - 1]
  {
  }

  lemma NameFacts(i: Info)
    requires ':' !in i.repository && ':' !in i.namespace && '/' !in i.namespace && i.repository != ""
    requires i.namespace == "" ==> '/' !in i.repository
    ensures ':' !in Name(i) && Name(i) != "" && Name(i)[0] != '/'
  {
    assert i.namespace != "" ==> Name(i)[0] == i.namespace[0];
  }

  lemma PlainBodyUntagged(i: Info)
    requires ':' !in i.repository && ':' !in i.namespace
    requires OnDocker(i) || '/' !in i.registry
    ensures !Tagged(Body(i))
  {
    var s := Body(i);
    if ':' in s { SlashAfterColon(i, LastIndexOf(s, ':')); }
    LastIndexOfLast(s, ':');
  }

  lemma SlashAfterColon(i: Info, k: int)
    requires ':' !in i.repository && ':' !in i.namespace && ':' in Body(i)
    requires OnDocker(i) || '/' !in i.registry
    requires k == LastIndexOf(Body(i), ':')
    ensures '/' in Body(i)[k + 1..]
  {
    LastIndexOfLast(Body(i), ':');
    assert ':' !in Name(i);
    if !OnDocker(i) {
      var s := i.registry + ['/'] + Name(i);
      assert k < |i.registry| by {
        assert forall j :: |i.registry| < j < |s| ==> s[j] == Name(i)[j - |i.registry| - 1];
      }
      assert s[k + 1..][|i.registry| - k - 1] == s[|i.registry|] == '/';
    }
  }

  /** A short number is read as a port: the tag stays in the repository's name. */
  lemma NumericTagIsLost(i: Info)
    requires PortLike(i.tag)
    ensures Read(Printed(i)) != Some(i)
  {
    PrintThenRead(i);
  }

  // ----- on the texts themselves -----

  /** A component that no separator divides. */
  predicate Plain(s: string) { s != "" && '@' !in s && ':' !in s && '/' !in s }

  /** A plain name is an image of Docker's own library, in its latest version. */
  lemma ShortName(name: string)
    requires Plain(name)
    ensures Read(name) == Some(Info("docker.io", "library", name, "latest", ""))
  {
    Halves(name, '@');
  }

  /** What follows the last colon is a tag unless it could be a port. */
  lemma TaggedText(body: string, tag: string)
    requires Plain(tag) && !PortLike(tag) && ':' !in body
    ensures Untagged(body + ":" + tag) == body && TagOf(body + ":" + tag) == tag
  {
    var s := body + [':'] + tag;
    assert s == body + ":" + tag && s[|body|] == ':';
    LastPieceOf(body, tag);
    forall k: nat | k < |s| ensures !SchemeAt(s, k) { }
  }

  lemma NoAt(a: string, c: char, b: string)
    requires '@' !in a && '@' !in b && c != '@'
    ensures '@' !in a + [c] + b && Before(a + [c] + b, '@') == a + [c] + b && After(a + [c] + b, '@') == ""
  {
    Halves(a + [c] + b, '@');
  }

  /** An owner's image on Docker Hub, with its tag. */
  lemma OwnedName(owner: string, name: string, tag: string)
    requires Plain(owner) && '.' !in owner && Plain(name) && Plain(tag) && !PortLike(tag)
    ensures Read(owner + "/" + name + ":" + tag) == Some(Info("docker.io", owner, name, tag, ""))
  {
    var body := owner + ['/'] + name;
    assert body == owner + "/" + name && body + [':'] + tag == body + ":" + tag;
    CutAt(owner, '/', name);
    NoAt(owner, '/', name);
    NoAt(body, ':', tag);
    TaggedText(body, tag);
  }

  /** An image in a registry of its own, which its dot tells from an owner. */
  lemma RegistryName(registry: string, owner: string, name: string, tag: string)
    requires Plain(registry) && '.' in registry && Plain(owner) && Plain(name) && Plain(tag) && !PortLike(tag)
    ensures Read(registry + "/" + (owner + "/" + name) + ":" + tag) == Some(Info(registry, owner, name, tag, ""))
  {
    var path := owner + ['/'] + name;
    var body := registry + ['/'] + path;
    assert path == owner + "/" + name && body == registry + "/" + path && body + [':'] + tag == body + ":" + tag;
    CutAt(owner, '/', name);
    CutAt(registry, '/', path);
    NoAt(owner, '/', name);
    NoAt(registry, '/', path);
    NoAt(body, ':', tag);
    TaggedText(body, tag);
  }

  /** A digest is read off at the end and changes nothing else. */
  lemma DigestRead(s: string, digest: string)
    requires '@' !in s
    ensures Read(s).Some? ==> Read(s + "@" + digest) == Some(Read(s).value.(digest := digest))
  {
    CutAt(s, '@', digest);
    Halves(s, '@');
    assert s + ['@'] + digest == s + "@" + digest;
  }

  /** What holds a scheme: the three characters somewhere. */
  lemma SchemeText(s: string)
    ensures HasScheme(s) <==> exists k :: 0 <= k <= |s| && "://" <= s[k..]
  {
    if k: nat :| k < |s| && SchemeAt(s, k) { assert "://" <= s[k..]; }
    if k :| 0 <= k <= |s| && "://" <= s[k..] { assert s[k..][0] == s[k] && SchemeAt(s, k); }
  }

  /** What is printed: the registry unless it is Docker's, the name, the tag unless it is the latest one,
      and the digest. */
  lemma PrintedText(i: Info)
    requires i.namespace != "" && i.repository != ""
    ensures Printed(i) ==
      (if i.registry == "" || i.registry == "docker.io" then "" else i.registry + "/")
        + (i.namespace + "/" + i.repository)
        + (if i.tag == "" || i.tag == "latest" then "" else ":" + i.tag)
        + (if i.digest == "" then "" else "@" + i.digest)
  {
    assert i.registry + ['/'] == i.registry + "/" && i.namespace + ['/'] + i.repository == Name(i);
    assert [':'] + i.tag == ":" + i.tag && ['@'] + i.digest == "@" + i.digest;
    assert Body(i) == (if OnDocker(i) then "" else i.registry + "/") + Name(i);
  }

  // ----- the code -----

  method IsPortNumber(s: string) returns (r: bool)
    ensures r <==> PortLike(s)
    ensures r <==> 1 <= |s| <= 5 && forall i :: 0 <= i < |s| ==> '0' <= s[i] <= '9'
  {
    if |s| == 0 { return false; }
    for k := 0 to |s|
      invariant forall i :: 0 <= i < k ==> Digit(s[i])
    {
      if s[k] < '0' || s[k] > '9' { return false; }
    }
    r := |s| <= 5;
  }

  /** Splitting at every colon and joining all but the last piece cuts at the last colon. */
  lemma SplitCutsLast(s: string)
    requires ':' in s
    ensures var parts := Split(s, ':');
      && |parts| >= 2 && parts[|parts| - 1] == LastPiece(s) && LastIndexOf(s, ':') >= 0
      && Join(parts[..|parts| - 1], ':') == s[..LastIndexOf(s, ':')]
  {
    var h, t := SplitFirst(s, ':');
    var parts := Split(s, ':');
    SplitPieces(s, ':');
    JoinSplit(s, ':');
    Snoc(parts);
    CutLast(s, parts[..|parts| - 1], parts[|parts| - 1]);
  }

  lemma Snoc<T>(s: seq<T>)
    requires |s| > 0
    ensures s[..|s| - 1] + [s[|s| - 1]] == s && s[|s| - 1] in s
  {
  }

  lemma CutLast(s: string, front: seq<string>, last: string)
    requires |front| >= 1 && Join(front + [last], ':') == s && ':' !in last
    ensures LastIndexOf(s, ':') >= 0 && LastPiece(s) == last && Join(front, ':') == s[..LastIndexOf(s, ':')]
  {
    JoinSnoc(front, ':', last);
    LastPieceOf(Join(front, ':'), last);
  }

  method CutTag(given: string) returns (rest: string, tag: string)
    ensures rest == Untagged(given) && tag == TagOf(given)
  {
    rest, tag := given, LATEST;
    if ':' in given && !HasScheme(given) {
      SplitCutsLast(given);
      var parts := Split(given, ':');
      var last := parts[|parts| - 1];
      var port := IsPortNumber(last);
      if '/' !in last && !port {
        tag := last;
        rest := Join(parts[..|parts| - 1], ':');
      }
    }
  }

  method ParseNamespaceAndRepository(path: string, info: Info) returns (r: Option<Info>)
    ensures path == "" ==> r == None
    ensures path != "" ==> r == Some(
      if '/' in path then info.(registry := if info.registry == "" then DOCKER else info.registry,
                                namespace := Before(path, '/'), repository := After(path, '/'))
      else if info.registry == "" then info.(registry := DOCKER, namespace := LIBRARY, repository := path)
      else info.(repository := path))
  {
    if path == "" { return None; }
    var i := info;
    if i.registry == "" {
      i := i.(registry := DOCKER);
      if '/' !in path {
        i := i.(namespace := LIBRARY, repository := path);
      } else {
        i := i.(namespace := Before(path, '/'), repository := After(path, '/'));
      }
    } else if '/' in path {
      i := i.(namespace := Before(path, '/'), repository := After(path, '/'));
    } else {
      i := i.(repository := path);
    }
    r := Some(i);
  }

  /** `Parse`, with `parseRegistryAndPath` in place. */
  method Parse(url: string) returns (r: Option<Info>)
    ensures r == Read(url)
  {
    if url == "" { return None; }
    var info := Info("", "", "", LATEST, "");
    var rest := url;
    Halves(url, '@');
    if '@' in rest {
      info := info.(digest := After(rest, '@'));
      rest := Before(rest, '@');
    }
    var body, tag := CutTag(rest);
    info := info.(tag := tag);
    var path := body;
    if '/' in body {
      var first := Before(body, '/');
      if '.' in first || ':' in first {
        info := info.(registry := first);
        path := After(body, '/');
      }
    }
    r := ParseNamespaceAndRepository(path, info);
  }

  lemma JoinNonEmpty(a: string, b: string)
    ensures Join([], '/') == "" && Join([a], '/') == a && Join([] + [b], '/') == b
    ensures Join([a] + [b], '/') == a + ['/'] + b
  {
    assert ([a] + [b])[1..] == [b] && [] + [b] == [b];
  }

  /** `GetImageName`. */
  method GetImageName(info: Info) returns (s: string)
    ensures s == Name(info) + TagText(info.tag) + Suffix('@', info.digest)
  {
    var parts: seq<string> := [];
    if info.namespace != "" { parts := parts + [info.namespace]; }
    if info.repository != "" { parts := parts + [info.repository]; }
    JoinNonEmpty(info.namespace, info.repository);
    s := Join(parts, '/');
    if info.tag != "" && info.tag != LATEST { s := s + ([':'] + info.tag); }
    if info.digest != "" { s := s + (['@'] + info.digest); }
  }

  /** `GetFullImageName`. */
  method GetFullImageName(info: Info) returns (s: string)
    ensures s == Printed(info)
  {
    var registry := if info.registry == "" || info.registry == DOCKER then DOCKER else info.registry;
    var name := GetImageName(info);
    if registry == DOCKER { return name; }
    s := registry + ['/'] + name;
    Regroup4(registry + ['/'], Name(info), TagText(info.tag), Suffix('@', info.digest));
  }

  lemma Regroup4(a: string, b: string, c: string, d: string)
    ensures a + (b + c + d) == a + b + c + d
  {
  }
}

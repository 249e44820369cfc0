/** The `--mount` and `-v` flags: reading volume options, translating the first flag into the second, and
    the edits that bind mounts make to the propagation of the root filesystem. */
module MountFlags {
  import opened Strings
  import P = Paths
  import I = Identifiers

  // ----- option words -----

  datatype Word =
    | RW | RO | RRO
    | Private | RPrivate | Shared | RShared | Slave | RSlave
    | NonRecursive | Recursive
    | Blank | Unknown

  predicate IsMode(w: Word) { w.RW? || w.RO? || w.RRO? }

  predicate IsPropagation(w: Word) { w.Private? || w.RPrivate? || w.Shared? || w.RShared? || w.Slave? || w.RSlave? }

  predicate IsBindWord(w: Word) { w.NonRecursive? || w.Recursive? }

  function Read(text: string): Word {
    if text == "rw" then RW
    else if text == "ro" then RO
    else if text == "rro" then RRO
    else if text == "private" then Private
    else if text == "rprivate" then RPrivate
    else if text == "shared" then Shared
    else if text == "rshared" then RShared
    else if text == "slave" then Slave
    else if text == "rslave" then RSlave
    else if text == "bind" then NonRecursive
    else if text == "rbind" then Recursive
    else if text == "" then Blank
    else Unknown
  }

  function Text(w: Word): string {
    match w
    case RW => "rw"
    case RO => "ro"
    case RRO => "rro"
    case Private => "private"
    case RPrivate => "rprivate"
    case Shared => "shared"
    case RShared => "rshared"
    case Slave => "slave"
    case RSlave => "rslave"
    case NonRecursive => "bind"
    case Recursive => "rbind"
    case Blank => ""
    case Unknown => "?"
  }

  predicate PlainText(s: string) { ',' !in s && ':' !in s }

  lemma ReadText(w: Word)
    ensures Read(Text(w)) == w && PlainText(Text(w))
  {
  }

  // ----- parsing volume options -----

  datatype VType = Volume | Bind

  datatype Error =
    | BindOnVolume | DuplicateBind | DuplicateMode | DuplicatePropagation | PropagationOnVolume
    | NoMountInfo | NotShared | BadSpec | NotAbsolute | NoVolume | NoSource | NotKeyValue | BadValue | BadKey

  datatype Result<+T> = Ok(value: T) | Err(error: Error)

  datatype Edit = MakeShared | MakeSlave

  datatype Options = Options(words: seq<Word>, edits: seq<Edit>)

  datatype Class = Mode | Propagation | Binding

  predicate In(w: Word, c: Class) {
    match c
    case Mode => IsMode(w)
    case Propagation => IsPropagation(w)
    case Binding => IsBindWord(w)
  }

  function Pick(ws: seq<Word>, c: Class): seq<Word> {
    if ws == [] then [] else (if In(ws[0], c) then [ws[0]] else []) + Pick(ws[1..], c)
  }

  function ReadAll(pieces: seq<string>): seq<Word> {
    if pieces == [] then [] else [Read(pieces[0])] + ReadAll(pieces[1..])
  }

  function Words(raw: string): seq<Word> { ReadAll(Split(raw, ',')) }

  /** One of the fields of a mount's optional values marks it as shared, or as a slave if that will do. */
  predicate Marked(optional: string, slaveToo: bool) {
    exists i :: 0 <= i < |Split(optional, ' ')| && Mark(Split(optional, ' ')[i], slaveToo)
  }

  predicate Mark(field: string, slaveToo: bool) {
    HasPrefix(field, "shared:") || (slaveToo && HasPrefix(field, "master:"))
  }

  function ModeWords(modes: seq<Word>): seq<Word> {
    if modes == [] || modes[0] == RW then [] else if modes[0] == RRO then [RO, RRO] else [RO]
  }

  /** `info` is the optional field of the mount that holds the source, if it could be found. */
  function PropagationOf(props: seq<Word>, info: Option<string>): Result<Options> {
    if props == [] then Ok(Options([RPrivate], []))
    else
      var p := props[0];
      if p.Private? || p.RPrivate? then Ok(Options([p], []))
      else if info.None? then Err(NoMountInfo)
      else if p.Shared? || p.RShared? then
        if Marked(info.value, false) then Ok(Options([p], [MakeShared])) else Err(NotShared)
      else
        if Marked(info.value, true) then Ok(Options([p], [MakeSlave])) else Err(NotShared)
  }

  function Assembled(vtype: VType, info: Option<string>, binds: seq<Word>, modes: seq<Word>, props: seq<Word>)
    : Result<Options>
  {
    if binds != [] && vtype != Bind then Err(BindOnVolume)
    else if |binds| > 1 then Err(DuplicateBind)
    else if |modes| > 1 then Err(DuplicateMode)
    else if |props| > 1 then Err(DuplicatePropagation)
    else if props != [] && vtype != Bind then Err(PropagationOnVolume)
    else if vtype != Bind then Ok(Options(binds + ModeWords(modes), []))
    else
      var r := PropagationOf(props, info);
      if r.Err? then r else Ok(Options(binds + ModeWords(modes) + r.value.words, r.value.edits))
  }

  function ParseWords(vtype: VType, info: Option<string>, ws: seq<Word>): Result<Options> {
    Assembled(vtype, info, Pick(ws, Binding), Pick(ws, Mode), Pick(ws, Propagation))
  }

  lemma CountCons(ws: seq<Word>, w: Word)
    requires ws != []
    ensures multiset(ws)[w] == (if ws[0] == w then 1 else 0) + multiset(ws[1..])[w]
  {
    assert ws == [ws[0]] + ws[1..];
  }

  lemma {:induction false} PickCount(ws: seq<Word>, c: Class, w: Word)
    ensures multiset(Pick(ws, c))[w] == if In(w, c) then multiset(ws)[w] else 0
  {
    if ws != [] {
      PickCount(ws[1..], c, w);
      CountCons(ws, w);
      if In(ws[0], c) { CountCons(Pick(ws, c), w); }
    }
  }

  lemma PickPermuted(a: seq<Word>, b: seq<Word>, c: Class)
    requires multiset(a) == multiset(b)
    ensures |Pick(a, c)| == |Pick(b, c)|
    ensures |Pick(a, c)| <= 1 ==> Pick(a, c) == Pick(b, c)
  {
    forall w ensures multiset(Pick(a, c))[w] == multiset(Pick(b, c))[w] {
      PickCount(a, c, w);
      PickCount(b, c, w);
    }
    SameLength(Pick(a, c), Pick(b, c));
  }

  lemma SameLength(s: seq<Word>, t: seq<Word>)
    requires forall w :: multiset(s)[w] == multiset(t)[w]
    ensures |s| == |t| && (|s| == 1 ==> s == t)
  {
    assert multiset(s) == multiset(t);
    assert |multiset(s)| == |s| && |multiset(t)| == |t|;
    if |s| == 1 { assert s[0] in multiset(t); }
  }

  /** The order of the options of a volume does not matter, for success, failure and outcome alike. */
  lemma OrderIrrelevant(vtype: VType, info: Option<string>, a: seq<Word>, b: seq<Word>)
    requires multiset(a) == multiset(b)
    ensures ParseWords(vtype, info, a) == ParseWords(vtype, info, b)
  {
    PickPermuted(a, b, Binding);
    PickPermuted(a, b, Mode);
    PickPermuted(a, b, Propagation);
  }

  lemma {:induction false} PickAppend(a: seq<Word>, b: seq<Word>, c: Class)
    ensures Pick(a + b, c) == Pick(a, c) + Pick(b, c)
  {
    if a == [] {
      assert a + b == b;
    } else {
      assert (a + b)[1..] == a[1..] + b;
      PickAppend(a[1..], b, c);
      Assoc(if In(a[0], c) then [a[0]] else [], Pick(a[1..], c), Pick(b, c));
    }
  }

  lemma PickNext(ws: seq<Word>, w: Word, c: Class)
    ensures Pick(ws + [w], c) == Pick(ws, c) + if In(w, c) then [w] else []
  {
    PickAppend(ws, [w], c);
    assert Pick([w], c) == (if In(w, c) then [w] else []) + [];
  }

  lemma {:induction false} ReadAllNext(pieces: seq<string>, piece: string)
    ensures ReadAll(pieces + [piece]) == ReadAll(pieces) + [Read(piece)]
  {
    if pieces == [] {
      assert pieces + [piece] == [piece];
    } else {
      assert (pieces + [piece])[1..] == pieces[1..] + [piece];
      ReadAllNext(pieces[1..], piece);
    }
  }

  // ----- the root filesystem's propagation -----

  function Rank(w: Word): nat {
    if w.Shared? || w.RShared? then 2 else if w.Slave? || w.RSlave? then 1 else 0
  }

  /** One edit, as the closures do it. */
  function Edited(root: Word, e: Edit): Word {
    match e
    case MakeShared => if root.Shared? || root.RShared? then root else Shared
    case MakeSlave => if root.Shared? || root.RShared? || root.Slave? || root.RSlave? then root else RSlave
  }

  function EditedAll(root: Word, edits: seq<Edit>): Word {
    if edits == [] then root else Edited(EditedAll(root, edits[..|edits| - 1]), edits[|edits| - 1])
  }

  /** The least propagation of at least a rank: the join in the order private, slave, shared. */
  function Raised(root: Word, rank: nat): Word {
    if Rank(root) >= rank then root else if rank == 2 then Shared else RSlave
  }

  function Strongest(edits: seq<Edit>): (d: nat)
    ensures d <= 2
  {
    if MakeShared in edits then 2 else if MakeSlave in edits then 1 else 0
  }

  function Stronger(rank: nat, e: Edit): nat { if e == MakeShared then 2 else if rank < 1 then 1 else rank }

  lemma RaisedNext(root: Word, rank: nat, e: Edit)
    requires rank <= 2
    ensures Edited(Raised(root, rank), e) == Raised(root, Stronger(rank, e))
  {
  }

  lemma StrongestNext(edits: seq<Edit>, e: Edit)
    ensures Strongest(edits + [e]) == Stronger(Strongest(edits), e)
  {
    assert forall d :: d in edits + [e] <==> d in edits || d == e;
  }

  /** However many edits there are and in whatever order, they raise the root's propagation to the
      strongest one asked for. */
  lemma {:induction false} EditsJoin(root: Word, edits: seq<Edit>)
    ensures EditedAll(root, edits) == Raised(root, Strongest(edits))
  {
    if edits != [] {
      var n := |edits| - 1;
      EditsJoin(root, edits[..n]);
      assert edits == edits[..n] + [edits[n]];
      StrongestNext(edits[..n], edits[n]);
      RaisedNext(root, Strongest(edits[..n]), edits[n]);
    }
  }

  /** So any order of the volumes and any repetition of their edits gives the same propagation; the code
      itself hands each volume's edits over twice. */
  lemma SameEditsSameRoot(root: Word, a: seq<Edit>, b: seq<Edit>)
    requires forall e :: e in a <==> e in b
    ensures EditedAll(root, a) == EditedAll(root, b)
  {
    EditsJoin(root, a);
    EditsJoin(root, b);
  }

  function Doubled(volumes: seq<seq<Edit>>): seq<Edit> {
    if volumes == [] then [] else volumes[0] + volumes[0] + Doubled(volumes[1..])
  }

  function Flattened(volumes: seq<seq<Edit>>): seq<Edit> {
    if volumes == [] then [] else volumes[0] + Flattened(volumes[1..])
  }

  lemma {:induction false} SameMembers(volumes: seq<seq<Edit>>, e: Edit)
    ensures e in Doubled(volumes) <==> e in Flattened(volumes)
  {
    if volumes != [] { SameMembers(volumes[1..], e); }
  }

  lemma DoublingIsHarmless(root: Word, volumes: seq<seq<Edit>>)
    ensures EditedAll(root, Doubled(volumes)) == EditedAll(root, Flattened(volumes))
  {
    forall e ensures e in Doubled(volumes) <==> e in Flattened(volumes) { SameMembers(volumes, e); }
    SameEditsSameRoot(root, Doubled(volumes), Flattened(volumes));
  }

  // ----- the -v flag -----

  /** What the flags need from outside: the volume store, the working directory, the state of a bind
      source (false when it cannot be looked at or created), and mount information. */
  datatype Env = Env(
    volume: string -> Option<string>,
    anonymous: Option<string>,
    absolute: string -> Option<string>,
    usable: string -> bool,
    info: string -> Option<string>)

  datatype Source = Source(vtype: VType, name: string, path: string)

  datatype Processed = Processed(
    vtype: VType, name: string, anonymous: bool, mode: string, source: string, destination: string,
    bound: bool, options: seq<Word>, edits: seq<Edit>)

  /** `filepath.Abs`. */
  function AbsoluteOf(env: Env, src: string): Option<string> { if P.Rooted(src) then Some(src) else env.absolute(src) }

  function SourceOf(env: Env, src: string): Result<Source> {
    if I.ValidName(src) then
      var p := env.volume(src);
      if p.None? then Err(NoVolume) else Ok(Source(Volume, src, p.value))
    else
      var abs := AbsoluteOf(env, src);
      if abs.None? || !env.usable(src) then Err(NoSource) else Ok(Source(Bind, "", abs.value))
  }

  predicate HasBindWord(ws: seq<Word>) { exists i :: 0 <= i < |ws| && IsBindWord(ws[i]) }

  function Finished(s: Source, anonymous: bool, mode: string, dst: string, o: Options): Processed {
    Processed(s.vtype, s.name, anonymous, mode, P.Clean(s.path), P.Clean(dst), HasBindWord(o.words),
              if HasBindWord(o.words) then o.words else o.words + [Recursive], o.edits)
  }

  function Pieces(spec: string): seq<string> { Split(TrimLeft(spec, ':'), ':') }

  function ProcessPieces(env: Env, pieces: seq<string>): Result<Processed> {
    if |pieces| == 1 then
      if env.anonymous.None? then Err(NoVolume)
      else Ok(Finished(Source(Volume, "", env.anonymous.value), true, "", pieces[0], Options([], [])))
    else if |pieces| == 2 || |pieces| == 3 then
      if !P.Rooted(pieces[1]) then Err(NotAbsolute)
      else
        var s := SourceOf(env, pieces[0]);
        if s.Err? then Err(s.error)
        else if |pieces| == 2 then Ok(Finished(s.value, false, "", pieces[1], Options([], [])))
        else
          var o := ParseWords(s.value.vtype, env.info(s.value.path), Words(pieces[2]));
          if o.Err? then Err(o.error)
          else Ok(Finished(s.value, false, pieces[2], pieces[1], Options(o.value.words, o.value.edits + o.value.edits)))
    else Err(BadSpec)
  }

  function ProcessV(env: Env, spec: string): Result<Processed> { ProcessPieces(env, Pieces(spec)) }

  // ----- the --mount flag -----

  datatype Kind = VolumeMount | BindMount | TmpfsMount

  /** `mode` is the last of `ro`, `rw` and `rro`; `readonly` is written `ro`. */
  datatype Flag = Flag(
    kind: Kind, src: string, dst: string, propagation: string, nonRecursive: bool, mode: Option<Word>,
    size: int, fileMode: nat)

  function BindWord(f: Flag): Word { if f.nonRecursive then NonRecursive else Recursive }

  /** The options composed for a volume or bind mount. */
  function Texts(f: Flag): seq<string> {
    (if f.mode.Some? then [Text(f.mode.value)] else [])
      + (if f.propagation != "" then [f.propagation] else [])
      + (if f.kind == BindMount then [Text(BindWord(f))] else [])
  }

  function Fields(f: Flag): seq<string> {
    [f.src, f.dst] + if Texts(f) == [] then [] else [Join(Texts(f), ',')]
  }

  /** The `-v` flag a volume or bind mount is translated into. */
  function Composed(f: Flag): string { Join(Fields(f), ':') }

  predicate NoColon(pieces: seq<string>) { forall i :: 0 <= i < |pieces| ==> ':' !in pieces[i] }

  lemma TrimLeftStops(s: string)
    ensures TrimLeft(s, ':') == "" || TrimLeft(s, ':')[0] != ':'
  {
  }

  lemma FirstPieceNonEmpty(t: string)
    requires t != "" && t[0] != ':'
    ensures Split(t, ':')[0] != ""
  {
    IndexOfFirst(t, ':');
  }

  /** A list of fields is split again into the same fields exactly when no field has a colon and the
      first is not empty. */
  lemma PiecesReadBack(fields: seq<string>)
    requires |fields| >= 2
    ensures Pieces(Join(fields, ':')) == fields <==> fields[0] != "" && NoColon(fields)
  {
    var s := Join(fields, ':');
    var t := TrimLeft(s, ':');
    TrimLeftStops(s);
    SplitPieces(t, ':');
    if fields[0] != "" && NoColon(fields) {
      assert s[0] == fields[0][0];
      SplitJoin(fields, ':');
    } else if t != "" {
      FirstPieceNonEmpty(t);
    }
  }

  lemma {:induction false} ReadAllLength(pieces: seq<string>)
    ensures |ReadAll(pieces)| == |pieces|
  {
    if pieces != [] { ReadAllLength(pieces[1..]); }
  }

  /** A propagation option, or none. */
  predicate GoodPropagation(s: string) { s == "" || IsPropagation(Read(s)) }

  lemma ReadPlain(s: string)
    requires IsPropagation(Read(s))
    ensures s == Text(Read(s)) && PlainText(s) && s != ""
  {
    ReadText(Read(s));
  }

  lemma TextsPlain(f: Flag)
    requires GoodPropagation(f.propagation)
    ensures forall i :: 0 <= i < |Texts(f)| ==> PlainText(Texts(f)[i])
  {
    if f.mode.Some? { ReadText(f.mode.value); }
    ReadText(BindWord(f));
    if f.propagation != "" { ReadPlain(f.propagation); }
  }

  lemma {:induction false} JoinNoColon(parts: seq<string>)
    requires forall i :: 0 <= i < |parts| ==> PlainText(parts[i])
    ensures ':' !in Join(parts, ',')
  {
    if |parts| > 1 {
      JoinNoColon(parts[1..]);
      NoColonAround(parts[0], Join(parts[1..], ','));
    }
  }

  lemma NoColonAround(a: string, b: string)
    requires ':' !in a && ':' !in b
    ensures ':' !in a + [','] + b
  {
  }

  function PropagationWords(s: string): seq<Word> { if s == "" then [] else [Read(s)] }

  function ModeOf(f: Flag): seq<Word> { if f.mode.Some? then [f.mode.value] else [] }

  /** The composed options are read as the words they were composed of. */
  lemma TextsRead(f: Flag)
    requires GoodPropagation(f.propagation) && f.kind == BindMount
    ensures Words(Join(Texts(f), ',')) == ModeOf(f) + PropagationWords(f.propagation) + [BindWord(f)]
  {
    TextsPlain(f);
    SplitJoin(Texts(f), ',');
    if f.mode.Some? { ReadText(f.mode.value); }
    ReadText(BindWord(f));
    var a := if f.mode.Some? then [Text(f.mode.value)] else [];
    var b := if f.propagation != "" then [f.propagation] else [];
    ReadAllAppend(a + b, [Text(BindWord(f))]);
    ReadAllAppend(a, b);
    ReadOne(Text(BindWord(f)));
    if f.mode.Some? { ReadOne(Text(f.mode.value)); }
    if f.propagation != "" { ReadOne(f.propagation); }
  }

  lemma ReadOne(s: string)
    ensures ReadAll([s]) == [Read(s)]
  {
  }

  lemma {:induction false} ReadAllAppend(a: seq<string>, b: seq<string>)
    ensures ReadAll(a + b) == ReadAll(a) + ReadAll(b)
  {
    if a == [] {
      assert a + b == b;
    } else {
      assert (a + b)[1..] == a[1..] + b;
      ReadAllAppend(a[1..], b);
    }
  }

  /** What the words of a bind mount amount to. */
  lemma BindWordsParse(f: Flag, info: Option<string>)
    requires f.mode.Some? ==> IsMode(f.mode.value)
    requires GoodPropagation(f.propagation)
    ensures var props := PropagationWords(f.propagation);
      var r := PropagationOf(props, info);
      ParseWords(Bind, info, ModeOf(f) + props + [BindWord(f)])
        == if r.Err? then r else Ok(Options([BindWord(f)] + ModeWords(ModeOf(f)) + r.value.words, r.value.edits))
  {
    var m, p, b := ModeOf(f), PropagationWords(f.propagation), [BindWord(f)];
    forall c: Class ensures Pick(m + p + b, c) == Pick(m, c) + Pick(p, c) + Pick(b, c) {
      PickAppend(m + p, b, c);
      PickAppend(m, p, c);
    }
    PickSingle(m, Mode);
    PickSingle(p, Propagation);
    PickSingle(b, Binding);
    PickOther(m, Mode);
    PickOther(p, Propagation);
    PickOther(b, Binding);
    assert [] + [] + b == b && m + [] + [] == m && [] + p + [] == p;
  }

  lemma PickSingle(ws: seq<Word>, c: Class)
    requires |ws| <= 1 && forall i :: 0 <= i < |ws| ==> In(ws[i], c)
    ensures Pick(ws, c) == ws
  {
  }

  lemma PickOther(ws: seq<Word>, c: Class)
    requires |ws| <= 1 && forall i :: 0 <= i < |ws| ==> In(ws[i], c)
    ensures forall d: Class :: d != c ==> Pick(ws, d) == []
  {
  }

  /** What the source's mount allows of the propagation asked for. */
  function Allowed(env: Env, f: Flag): Result<Options> {
    PropagationOf(PropagationWords(f.propagation), env.info(AbsoluteOf(env, f.src).GetOr("")))
  }

  /** The bind mount that a flag asks for: its own source, destination and options. */
  function Own(env: Env, f: Flag): Processed {
    Processed(Bind, "", false, Join(Texts(f), ','), P.Clean(AbsoluteOf(env, f.src).GetOr("")), P.Clean(f.dst), true,
              [BindWord(f)] + ModeWords(ModeOf(f)) + if f.propagation == "" then [RPrivate] else [Read(f.propagation)],
              Twice(EditsOf(f.propagation)))
  }

  function Twice(edits: seq<Edit>): seq<Edit> { edits + edits }

  function EditsOf(propagation: string): seq<Edit> {
    var w := Read(propagation);
    if w.Shared? || w.RShared? then [MakeShared] else if w.Slave? || w.RSlave? then [MakeSlave] else []
  }

  /** A bind mount that can be told from the flag's text: the source is a path, absolute or not. */
  predicate BindTexts(f: Flag) {
    && f.src != "" && ':' !in f.src && !I.ValidName(f.src)
    && P.Rooted(f.dst) && ':' !in f.dst && GoodPropagation(f.propagation)
  }

  predicate BindMounts(env: Env, f: Flag) {
    BindTexts(f) && AbsoluteOf(env, f.src).Some? && env.usable(f.src) && Allowed(env, f).Ok?
  }

  lemma AllowedIsOwn(env: Env, f: Flag)
    requires GoodPropagation(f.propagation) && Allowed(env, f).Ok?
    ensures Allowed(env, f).value
      == Options(if f.propagation == "" then [RPrivate] else [Read(f.propagation)], EditsOf(f.propagation))
  {
    ReadText(Blank);
  }

  /** A bind mount given by `--mount` is read again by the `-v` parser with exactly the source, the
      destination and the options composed, when the source is a path and the destination absolute,
      neither with a colon; it fails only for a source that cannot be used or found or does not allow the
      propagation. */
  lemma BindReadsBack(env: Env, f: Flag)
    requires f.kind == BindMount && BindTexts(f) && (f.mode.Some? ==> IsMode(f.mode.value))
    ensures Pieces(Composed(f)) == Fields(f)
    ensures ProcessV(env, Composed(f)) ==
      if AbsoluteOf(env, f.src).None? || !env.usable(f.src) then Err(NoSource)
      else if Allowed(env, f).Err? then Err(Allowed(env, f).error)
      else Ok(Own(env, f))
  {
    FieldsReadBack(f);
    TextsRead(f);
    var abs := AbsoluteOf(env, f.src);
    if abs.Some? {
      BindWordsParse(f, env.info(abs.value));
      if Allowed(env, f).Ok? { AllowedIsOwn(env, f); }
    }
    FinishedBind(f);
  }

  lemma BindFields3(f: Flag)
    requires f.kind == BindMount
    ensures Fields(f) == [f.src, f.dst, Join(Texts(f), ',')]
  {
    assert Texts(f)[|Texts(f)| - 1] == Text(BindWord(f));
  }

  lemma FieldsReadBack(f: Flag)
    requires f.kind == BindMount && GoodPropagation(f.propagation)
    requires f.src != "" && ':' !in f.src && ':' !in f.dst
    ensures Fields(f) == [f.src, f.dst, Join(Texts(f), ',')] && Pieces(Composed(f)) == Fields(f)
  {
    TextsPlain(f);
    JoinNoColon(Texts(f));
    BindFields3(f);
    PiecesReadBack(Fields(f));
  }

  // ----- exactly when -----

  /** Splitting joined parts gives at least one piece a part, and more for a part with a colon. */
  lemma {:induction false} PiecesAtLeast(parts: seq<string>)
    requires parts != []
    ensures |Split(Join(parts, ':'), ':')| >= |parts|
    ensures !NoColon(parts) ==> |Split(Join(parts, ':'), ':')| > |parts|
  {
    MorePieces(parts[0]);
    if |parts| > 1 {
      SplitAppend(parts[0], ':', Join(parts[1..], ':'));
      PiecesAtLeast(parts[1..]);
    }
  }

  lemma MorePieces(s: string)
    ensures ':' in s ==> |Split(s, ':')| > 1
  {
    if ':' in s { var h, t := SplitFirst(s, ':'); }
  }

  /** The outcome of a bind flag whose fields are read as they are. */
  function FieldsOutcome(env: Env, f: Flag): Result<Processed> {
    ProcessPieces(env, [f.src, f.dst, Join(Texts(f), ',')])
  }

  /** A result with the options asked for comes from a propagation word. */
  lemma OwnNeedsPropagation(env: Env, f: Flag)
    ensures FieldsOutcome(env, f) == Ok(Own(env, f)) ==> GoodPropagation(f.propagation)
  {
    if FieldsOutcome(env, f) == Ok(Own(env, f)) {
      var info := env.info(SourceOf(env, f.src).value.path);
      var ws := Words(Join(Texts(f), ','));
      PickIn(ws, Propagation);
      ParsedEndsWithPropagation(info, ws);
      if f.propagation != "" { LastOfOwn(env, f); }
    }
  }

  /** A destination is absolute, and a volume's source is a volume's name. */
  lemma OutcomeKind(env: Env, a: string, b: string, c: string)
    ensures var r := ProcessPieces(env, [a, b, c]);
      r.Ok? ==> P.Rooted(b) && (r.value.vtype == Volume <==> I.ValidName(a))
  {
  }

  lemma OwnIsBind(env: Env, f: Flag)
    ensures Own(env, f).vtype == Bind
  {
  }

  lemma LastOfOwn(env: Env, f: Flag)
    requires f.propagation != ""
    ensures Own(env, f).options != [] && Own(env, f).options[|Own(env, f).options| - 1] == Read(f.propagation)
  {
  }

  lemma ParsedEndsWithPropagation(info: Option<string>, ws: seq<Word>)
    requires forall i :: 0 <= i < |Pick(ws, Propagation)| ==> In(Pick(ws, Propagation)[i], Propagation)
    ensures var o := ParseWords(Bind, info, ws);
      o.Ok? ==> o.value.words != [] && IsPropagation(o.value.words[|o.value.words| - 1])
  {
    var props := Pick(ws, Propagation);
    assert props != [] ==> In(props[0], Propagation);
    assert PropagationOf(props, info).Ok? ==> |PropagationOf(props, info).value.words| == 1;
  }

  /** For every bind flag: the `-v` parser reads its own fields and makes the mount it asks for exactly
      when source and destination are colon-free, the source is a path and no volume name, the
      destination is absolute, the source can be found and used, and its mount allows the propagation. A
      source that does not begin with a colon cannot come to that mount by being read otherwise. */
  lemma BindExactly(env: Env, f: Flag)
    requires f.kind == BindMount && (f.mode.Some? ==> IsMode(f.mode.value))
    ensures BindMounts(env, f)
      <==> Pieces(Composed(f)) == Fields(f) && ProcessV(env, Composed(f)) == Ok(Own(env, f))
    ensures f.src != "" && f.src[0] != ':' ==>
      (BindMounts(env, f) <==> ProcessV(env, Composed(f)) == Ok(Own(env, f)))
  {
    BindFields3(f);
    PiecesReadBack(Fields(f));
    if BindTexts(f) {
      BindReadsBack(env, f);
    } else if Pieces(Composed(f)) == Fields(f) {
      assert ':' !in Fields(f)[0] && ':' !in Fields(f)[1];
      OwnNeedsPropagation(env, f);
      OutcomeKind(env, f.src, f.dst, Join(Texts(f), ','));
      OwnIsBind(env, f);
    }
    if f.src != "" && f.src[0] != ':' { MisreadIsNoMount(env, f); }
  }

  /** A flag whose fields are not read as they are has too many of them. */
  lemma MisreadIsNoMount(env: Env, f: Flag)
    requires f.kind == BindMount && f.src != "" && f.src[0] != ':'
    ensures Pieces(Composed(f)) != Fields(f) ==> ProcessV(env, Composed(f)) == Err(BadSpec)
  {
    BindFields3(f);
    PiecesReadBack(Fields(f));
    PiecesAtLeast(Fields(f));
    assert Composed(f)[0] == f.src[0];
    assert TrimLeft(Composed(f), ':') == Composed(f);
  }

  lemma FinishedBind(f: Flag)
    ensures forall ws: seq<Word>, more: seq<Word> :: HasBindWord([BindWord(f)] + ws + more)
  {
    forall ws: seq<Word>, more: seq<Word> ensures HasBindWord([BindWord(f)] + ws + more) {
      assert IsBindWord(([BindWord(f)] + ws + more)[0]);
    }
  }

  /** A bind mount whose source is not a path but could name a volume never becomes a bind mount: it is
      taken for the volume, and its own options are refused. */
  lemma NamedSourceFails(env: Env, f: Flag)
    requires f.kind == BindMount && I.ValidName(f.src) && P.Rooted(f.dst) && ':' !in f.dst
    requires GoodPropagation(f.propagation)
    ensures ProcessV(env, Composed(f)) == Err(if env.volume(f.src).None? then NoVolume else BindOnVolume)
  {
    assert ':' !in f.src by { assert forall i :: 0 <= i < |f.src| ==> I.IsNameChar(f.src[i]); }
    FieldsReadBack(f);
    HasOwnBindWord(f);
    VolumeRefusesBind(env, f.src, f.dst, Join(Texts(f), ','));
  }

  lemma HasOwnBindWord(f: Flag)
    requires f.kind == BindMount && GoodPropagation(f.propagation)
    ensures Pick(Words(Join(Texts(f), ',')), Binding) != []
  {
    TextsRead(f);
    PickAppend(ModeOf(f) + PropagationWords(f.propagation), [BindWord(f)], Binding);
    PickSingle([BindWord(f)], Binding);
  }

  lemma VolumeRefusesBind(env: Env, src: string, dst: string, raw: string)
    requires I.ValidName(src) && P.Rooted(dst) && Pick(Words(raw), Binding) != []
    ensures ProcessPieces(env, [src, dst, raw]) == Err(if env.volume(src).None? then NoVolume else BindOnVolume)
  {
  }

  lemma {:induction false} TrimLeftAppend(a: string, b: string)
    ensures TrimLeft(a + b, ':') == TrimLeft(TrimLeft(a, ':') + b, ':')
  {
    if a != "" && a[0] == ':' {
      assert (a + b)[1..] == a[1..] + b;
      TrimLeftAppend(a[1..], b);
    }
  }

  /** A text that begins with neither colons nor nothing. */
  lemma TrimLeftBody(a: string, b: string)
    requires TrimLeft(a, ':') != ""
    ensures TrimLeft([':'] + (a + b), ':') == TrimLeft(a, ':') + b
  {
    assert ([':'] + (a + b))[1..] == a + b;
    TrimLeftAppend(a, b);
    TrimLeftStops(a);
  }

  /** A volume without a source is composed as its destination, whose leading colons are dropped, and its
      options. */
  lemma SourcelessPieces(f: Flag)
    requires f.kind == VolumeMount && f.src == "" && TrimLeft(f.dst, ':') != ""
    ensures Pieces(Composed(f)) == Split(TrimLeft(f.dst, ':'), ':')
      + if Texts(f) == [] then [] else Split(Join(Texts(f), ','), ':')
  {
    if Texts(f) == [] {
      JoinCons("", [f.dst], ':');
      assert [""] + [f.dst] == Fields(f);
      assert Composed(f) == [':'] + (f.dst + "");
      TrimLeftBody(f.dst, "");
      assert TrimLeft(f.dst, ':') + "" == TrimLeft(f.dst, ':');
    } else {
      var opts := Join(Texts(f), ',');
      JoinCons("", [f.dst, opts], ':');
      JoinCons(f.dst, [opts], ':');
      assert [""] + [f.dst, opts] == Fields(f) && [f.dst] + [opts] == [f.dst, opts];
      assert Composed(f) == [':'] + (f.dst + ([':'] + opts));
      TrimLeftBody(f.dst, [':'] + opts);
      Assoc(TrimLeft(f.dst, ':'), [':'], opts);
      SplitAppend(TrimLeft(f.dst, ':'), ':', opts);
    }
  }

  /** The anonymous volume that a flag without a source asks for; colons before the destination count for
      nothing. */
  function OwnAnonymous(env: Env, f: Flag): Processed {
    Processed(Volume, "", true, "", P.Clean(env.anonymous.GetOr("")), P.Clean(TrimLeft(f.dst, ':')), false,
              [Recursive], [])
  }

  /** For every volume flag with a destination and no source: it becomes its own anonymous volume exactly
      when it has no options, its destination no colon inside, and a volume can be made. */
  lemma AnonymousExactly(env: Env, f: Flag)
    requires f.kind == VolumeMount && f.src == "" && TrimLeft(f.dst, ':') != ""
    ensures Texts(f) == [] && ':' !in TrimLeft(f.dst, ':') && env.anonymous.Some?
      <==> ProcessV(env, Composed(f)) == Ok(OwnAnonymous(env, f))
  {
    var d := TrimLeft(f.dst, ':');
    var pieces := Pieces(Composed(f));
    SourcelessPieces(f);
    if Texts(f) == [] && ':' !in d {
      SplitOne(d, ':');
      OnePieceIsAnonymous(env, d);
    } else {
      SourcelessMany(f, pieces);
      ManyPiecesAreNot(env, pieces, OwnAnonymous(env, f));
    }
  }

  lemma SourcelessMany(f: Flag, pieces: seq<string>)
    requires pieces == Split(TrimLeft(f.dst, ':'), ':') + if Texts(f) == [] then [] else Split(Join(Texts(f), ','), ':')
    requires Texts(f) != [] || ':' in TrimLeft(f.dst, ':')
    ensures |pieces| > 1
  {
    MorePieces(TrimLeft(f.dst, ':'));
  }

  lemma OnePieceIsAnonymous(env: Env, d: string)
    ensures ProcessPieces(env, [d])
      == if env.anonymous.None? then Err(NoVolume)
         else Ok(Processed(Volume, "", true, "", P.Clean(env.anonymous.value), P.Clean(d), false, [Recursive], []))
  {
    assert [] + [Recursive] == [Recursive];
  }

  lemma ManyPiecesAreNot(env: Env, pieces: seq<string>, own: Processed)
    requires |pieces| > 1 && own.anonymous
    ensures ProcessPieces(env, pieces) != Ok(own)
  {
  }

  /** With options, a destination is taken for the source, and the options for the destination. */
  lemma AnonymousWithOptionsFails(env: Env, f: Flag)
    requires f.kind == VolumeMount && f.src == "" && P.Rooted(f.dst) && ':' !in f.dst
    requires Texts(f) != [] && GoodPropagation(f.propagation) && (f.mode.Some? ==> IsMode(f.mode.value))
    ensures ProcessV(env, Composed(f)) == Err(NotAbsolute)
  {
    TrimLeftPiece(f.dst);
    SourcelessPieces(f);
    TextsPlain(f);
    JoinNoColon(Texts(f));
    SplitOne(f.dst, ':');
    SplitOne(Join(Texts(f), ','), ':');
    TextsNotRooted(f);
  }

  /** No option begins with a slash. */
  lemma TextsNotRooted(f: Flag)
    requires Texts(f) != [] && GoodPropagation(f.propagation)
    ensures !P.Rooted(Join(Texts(f), ','))
  {
    if f.mode.Some? {
      TextNotRooted(f.mode.value);
      ReadText(f.mode.value);
    } else if f.propagation != "" {
      ReadPlain(f.propagation);
      TextNotRooted(Read(f.propagation));
    } else {
      TextNotRooted(BindWord(f));
    }
    FirstOfJoin(Texts(f));
  }

  lemma TextNotRooted(w: Word)
    ensures !P.Rooted(Text(w))
  {
  }

  lemma FirstOfJoin(parts: seq<string>)
    requires parts != []
    ensures P.Rooted(Join(parts, ',')) ==> P.Rooted(parts[0])
  {
  }

  // ----- the fields of the --mount flag -----

  datatype Key =
    | TypeKey | SourceKey | TargetKey | ModeKey(word: Word) | PropagationKey | NonRecursiveKey
    | SizeKey | FileModeKey | NoKey

  function KeyOf(name: string): Key {
    if name == "type" then TypeKey
    else if name == "source" || name == "src" then SourceKey
    else if name == "target" || name == "dst" || name == "destination" then TargetKey
    else if name == "readonly" || name == "ro" then ModeKey(RO)
    else if name == "rw" then ModeKey(RW)
    else if name == "rro" then ModeKey(RRO)
    else if name == "bind-propagation" then PropagationKey
    else if name == "bind-nonrecursive" then NonRecursiveKey
    else if name == "tmpfs-size" then SizeKey
    else if name == "tmpfs-mode" then FileModeKey
    else NoKey
  }

  datatype Field = Field(key: Key, value: Option<string>)

  function FieldOf(text: string): Field {
    Field(KeyOf(Lower(Before(text, '='))), if '=' in text then Some(After(text, '=')) else None)
  }

  /** Reading booleans, sizes and octal numbers, which the Go libraries do. */
  datatype Parsers = Parsers(truth: string -> Option<bool>, size: string -> Option<int>, octal: string -> Option<nat>)

  function KindOf(value: string): Option<Kind> {
    if value == "tmpfs" then Some(TmpfsMount) else if value == "bind" then Some(BindMount)
    else if value == "volume" then Some(VolumeMount) else None
  }

  function WithKind(f: Flag, value: string): Result<Flag> {
    var k := KindOf(value);
    if k.None? then Err(BadValue) else Ok(if k == Some(VolumeMount) then f else f.(kind := k.value))
  }

  /** One field of the flag. */
  function Applied(parsers: Parsers, f: Flag, field: Field): Result<Flag> {
    match field.value
    case None =>
      (match field.key
       case ModeKey(w) => Ok(f.(mode := Some(w)))
       case NonRecursiveKey => Ok(f.(nonRecursive := true))
       case _ => Err(NotKeyValue))
    case Some(v) =>
      match field.key
      case TypeKey => WithKind(f, v)
      case SourceKey => Ok(f.(src := v))
      case TargetKey => Ok(f.(dst := v))
      case ModeKey(w) =>
        var t := parsers.truth(v);
        if t.None? then Err(BadValue) else Ok(if t.value then f.(mode := Some(w)) else f)
      case PropagationKey => Ok(f.(propagation := v))
      case NonRecursiveKey =>
        var t := parsers.truth(v); if t.None? then Err(BadValue) else Ok(f.(nonRecursive := t.value))
      case SizeKey => var n := parsers.size(v); if n.None? then Err(BadValue) else Ok(f.(size := n.value))
      case FileModeKey => var n := parsers.octal(v); if n.None? then Err(BadValue) else Ok(f.(fileMode := n.value))
      case NoKey => Err(BadKey)
  }

  /** The file mode is 01777 unless another is given. */
  const DEFAULTS: Flag := Flag(VolumeMount, "", "", "", false, None, 0, 1023)

  function AppliedAll(parsers: Parsers, fields: seq<Field>): Result<Flag> {
    if fields == [] then Ok(DEFAULTS)
    else
      var f := AppliedAll(parsers, fields[..|fields| - 1]);
      if f.Err? then f else Applied(parsers, f.value, fields[|fields| - 1])
  }

  /** The value of the last field with a key. */
  function LastValue(fields: seq<Field>, key: Key): string {
    if fields == [] then ""
    else
      var l := fields[|fields| - 1];
      if l.key == key && l.value.Some? then l.value.value else LastValue(fields[..|fields| - 1], key)
  }

  /** The last `type=bind` or `type=tmpfs`: `type=volume` does not undo either. */
  function LastKind(fields: seq<Field>): Kind {
    if fields == [] then VolumeMount
    else
      var l := fields[|fields| - 1];
      if l.key == TypeKey && l.value.Some? && KindOf(l.value.value) in {Some(BindMount), Some(TmpfsMount)}
      then KindOf(l.value.value).value
      else LastKind(fields[..|fields| - 1])
  }

  /** When a flag is accepted its last source, destination and propagation count, whatever stands
      between them; so does its last type, except that `volume` is no type in this sense. */
  lemma {:induction false} LastFieldsCount(parsers: Parsers, fields: seq<Field>)
    ensures var r := AppliedAll(parsers, fields);
      r.Ok? ==>
        && r.value.src == LastValue(fields, SourceKey) && r.value.dst == LastValue(fields, TargetKey)
        && r.value.propagation == LastValue(fields, PropagationKey) && r.value.kind == LastKind(fields)
  {
    if fields != [] { LastFieldsCount(parsers, fields[..|fields| - 1]); }
  }

  /** A field that ends the reading: no value where one is needed, a value that cannot be read, or an
      unknown key. */
  predicate Refused(parsers: Parsers, field: Field) {
    match field.value
    case None => !field.key.ModeKey? && !field.key.NonRecursiveKey?
    case Some(v) =>
      || field.key.NoKey?
      || (field.key.TypeKey? && v != "bind" && v != "tmpfs" && v != "volume")
      || ((field.key.ModeKey? || field.key.NonRecursiveKey?) && parsers.truth(v).None?)
      || (field.key.SizeKey? && parsers.size(v).None?)
      || (field.key.FileModeKey? && parsers.octal(v).None?)
  }

  lemma RefusedApplied(parsers: Parsers, f: Flag, field: Field)
    ensures Applied(parsers, f, field).Err? <==> Refused(parsers, field)
  {
  }

  /** A flag is refused exactly when one of its fields is. */
  lemma {:induction false} RefusedExactly(parsers: Parsers, fields: seq<Field>)
    ensures AppliedAll(parsers, fields).Err? <==> exists i :: 0 <= i < |fields| && Refused(parsers, fields[i])
  {
    if fields != [] {
      var n := |fields| - 1;
      RefusedExactly(parsers, fields[..n]);
      var f := AppliedAll(parsers, fields[..n]);
      if i :| 0 <= i < n && Refused(parsers, fields[..n][i]) { assert Refused(parsers, fields[i]); }
      if i :| 0 <= i < |fields| && Refused(parsers, fields[i]) { assert i < n ==> fields[..n][i] == fields[i]; }
      if f.Ok? { RefusedApplied(parsers, f.value, fields[n]); }
    }
  }

  /** No field with a key from a place on. */
  predicate Without(fields: seq<Field>, from: nat, key: Key) {
    forall j :: from <= j < |fields| ==> fields[j].key != key
  }

  lemma WithoutFront(fields: seq<Field>, from: nat, key: Key)
    requires fields != [] && Without(fields, from, key)
    ensures Without(fields[..|fields| - 1], from, key)
  {
  }

  /** The size and the mode of a temporary filesystem, and whether a bind is not recursive, keep their
      defaults when no field names them: no size, 01777, and recursive. */
  lemma {:induction false} UnnamedKeepDefaults(parsers: Parsers, fields: seq<Field>)
    requires AppliedAll(parsers, fields).Ok?
    ensures var f := AppliedAll(parsers, fields).value;
      && (Without(fields, 0, SizeKey) ==> f.size == 0)
      && (Without(fields, 0, FileModeKey) ==> f.fileMode == 1023)
      && (Without(fields, 0, NonRecursiveKey) ==> !f.nonRecursive)
  {
    if fields != [] {
      UnnamedKeepDefaults(parsers, fields[..|fields| - 1]);
      if Without(fields, 0, SizeKey) { WithoutFront(fields, 0, SizeKey); }
      if Without(fields, 0, FileModeKey) { WithoutFront(fields, 0, FileModeKey); }
      if Without(fields, 0, NonRecursiveKey) { WithoutFront(fields, 0, NonRecursiveKey); }
    }
  }

  /** The last size and the last file mode count. */
  lemma {:induction false} LastNumbersCount(parsers: Parsers, fields: seq<Field>, i: nat)
    requires AppliedAll(parsers, fields).Ok? && i < |fields| && Without(fields, i + 1, fields[i].key)
    ensures fields[i].key == SizeKey ==>
      && fields[i].value.Some?
      && parsers.size(fields[i].value.value) == Some(AppliedAll(parsers, fields).value.size)
    ensures fields[i].key == FileModeKey ==>
      && fields[i].value.Some?
      && parsers.octal(fields[i].value.value) == Some(AppliedAll(parsers, fields).value.fileMode)
  {
    if i < |fields| - 1 {
      WithoutFront(fields, i + 1, fields[i].key);
      LastNumbersCount(parsers, fields[..|fields| - 1], i);
      assert fields[|fields| - 1].key != fields[i].key;
    }
  }

  /** The last word on recursion counts, with a value or without one. */
  lemma {:induction false} LastRecursionCounts(parsers: Parsers, fields: seq<Field>, i: nat)
    requires AppliedAll(parsers, fields).Ok? && i < |fields|
    requires fields[i].key == NonRecursiveKey && Without(fields, i + 1, NonRecursiveKey)
    ensures var f := AppliedAll(parsers, fields).value;
      if fields[i].value.None? then f.nonRecursive else parsers.truth(fields[i].value.value) == Some(f.nonRecursive)
  {
    if i < |fields| - 1 {
      WithoutFront(fields, i + 1, NonRecursiveKey);
      LastRecursionCounts(parsers, fields[..|fields| - 1], i);
      assert fields[|fields| - 1].key != NonRecursiveKey;
    }
  }

  /** A mode that is not given the value false. */
  predicate Chooses(parsers: Parsers, field: Field) {
    field.key.ModeKey? && (field.value.None? || parsers.truth(field.value.value) == Some(true))
  }

  /** The last mode counts that is not switched off by its value. */
  lemma {:induction false} LastModeCounts(parsers: Parsers, fields: seq<Field>, i: nat)
    requires AppliedAll(parsers, fields).Ok? && i <= |fields|
    requires forall j :: i <= j < |fields| ==> !Chooses(parsers, fields[j])
    ensures i > 0 && Chooses(parsers, fields[i - 1])
      ==> AppliedAll(parsers, fields).value.mode == Some(fields[i - 1].key.word)
    ensures i == 0 ==> AppliedAll(parsers, fields).value.mode == None
  {
    if i < |fields| {
      LastModeCounts(parsers, fields[..|fields| - 1], i);
      assert !Chooses(parsers, fields[|fields| - 1]);
    }
  }

  predicate ModeKeys(fields: seq<Field>) {
    forall i :: 0 <= i < |fields| ==> (fields[i].key.ModeKey? ==> IsMode(fields[i].key.word))
  }

  lemma {:induction false} ModesAreModes(parsers: Parsers, fields: seq<Field>)
    requires ModeKeys(fields)
    ensures var r := AppliedAll(parsers, fields); r.Ok? && r.value.mode.Some? ==> IsMode(r.value.mode.value)
  {
    if fields != [] { ModesAreModes(parsers, fields[..|fields| - 1]); }
  }

  function FieldsOf(texts: seq<string>): seq<Field> {
    if texts == [] then [] else FieldsOf(texts[..|texts| - 1]) + [FieldOf(texts[|texts| - 1])]
  }

  lemma {:induction false} FieldsHaveModeKeys(texts: seq<string>)
    ensures ModeKeys(FieldsOf(texts))
  {
    if texts != [] { FieldsHaveModeKeys(texts[..|texts| - 1]); }
  }

  /** The flag a `--mount` text stands for. */
  function ReadFlag(parsers: Parsers, spec: string): Result<Flag> { AppliedAll(parsers, FieldsOf(Split(spec, ','))) }

  /** From the text of a bind `--mount` flag to the mount: for every accepted text the `-v` parser makes
      the mount of the last source at the last destination exactly under the conditions of
      `BindMounts`. */
  lemma MountTextReadsBack(env: Env, parsers: Parsers, spec: string, f: Flag)
    requires ReadFlag(parsers, spec) == Ok(f) && LastKind(FieldsOf(Split(spec, ','))) == BindMount
    ensures var fs := FieldsOf(Split(spec, ','));
      f.src == LastValue(fs, SourceKey) && f.dst == LastValue(fs, TargetKey)
      && f.propagation == LastValue(fs, PropagationKey)
    ensures BindMounts(env, f) <==> Pieces(Composed(f)) == Fields(f) && ProcessV(env, Composed(f)) == Ok(Own(env, f))
  {
    LastFieldsCount(parsers, FieldsOf(Split(spec, ',')));
    FieldsHaveModeKeys(Split(spec, ','));
    ModesAreModes(parsers, FieldsOf(Split(spec, ',')));
    BindExactly(env, f);
  }

  // ----- on the texts themselves -----

  /** The names of the keys. */
  lemma KeyNames()
    ensures KeyOf("type") == TypeKey
    ensures KeyOf("source") == KeyOf("src") == SourceKey
    ensures KeyOf("target") == KeyOf("dst") == KeyOf("destination") == TargetKey
    ensures KeyOf("readonly") == KeyOf("ro") == ModeKey(RO)
    ensures KeyOf("rw") == ModeKey(RW) && KeyOf("rro") == ModeKey(RRO)
  {
  }

  lemma KindKeyNames()
    ensures KeyOf("bind-propagation") == PropagationKey && KeyOf("bind-nonrecursive") == NonRecursiveKey
    ensures KeyOf("tmpfs-size") == SizeKey && KeyOf("tmpfs-mode") == FileModeKey && KeyOf("volume") == NoKey
  {
  }

  /** The names of the types. */
  lemma KindNames(value: string)
    ensures KindOf(value) == Some(BindMount) <==> value == "bind"
    ensures KindOf(value) == Some(TmpfsMount) <==> value == "tmpfs"
    ensures KindOf(value) == Some(VolumeMount) <==> value == "volume"
  {
  }

  predicate NoCapitals(s: string) { forall i :: 0 <= i < |s| ==> !('A' <= s[i] <= 'Z') }

  lemma LowerSame(s: string)
    requires NoCapitals(s)
    ensures Lower(s) == s
  {
  }

  /** A field with a value and one without; capitals in the key do not matter. */
  lemma FieldText(name: string, value: string)
    requires '=' !in name
    ensures FieldOf(name + "=" + value) == Field(KeyOf(Lower(name)), Some(value))
    ensures FieldOf(name) == Field(KeyOf(Lower(name)), None)
    ensures NoCapitals(name) ==> Lower(name) == name
  {
    CutAt(name, '=', value);
    assert name + ['='] + value == name + "=" + value;
    IndexOfFirst(name, '=');
    if NoCapitals(name) { LowerSame(name); }
  }

  lemma FieldsOfTwo(a: string, b: string)
    ensures FieldsOf([a]) == [FieldOf(a)] && FieldsOf([a, b]) == [FieldOf(a), FieldOf(b)]
  {
    assert [a][..0] == [] && [a, b][..1] == [a];
  }

  lemma FieldsOfFour(a: string, b: string, c: string, d: string)
    ensures FieldsOf([a, b, c, d]) == [FieldOf(a), FieldOf(b), FieldOf(c), FieldOf(d)]
  {
    FieldsOfTwo(a, b);
    assert [a, b, c][..2] == [a, b] && [a, b, c, d][..3] == [a, b, c];
  }

  /** Applying four fields in turn. */
  lemma AppliedFour(parsers: Parsers, a: Field, b: Field, c: Field, d: Field)
    ensures var all := AppliedAll(parsers, [a, b, c, d]);
      var f1 := Applied(parsers, DEFAULTS, a);
      var f2 := if f1.Err? then f1 else Applied(parsers, f1.value, b);
      var f3 := if f2.Err? then f2 else Applied(parsers, f2.value, c);
      all == if f3.Err? then f3 else Applied(parsers, f3.value, d)
  {
    assert [a][..0] == [] && [a, b][..1] == [a] && [a, b, c][..2] == [a, b] && [a, b, c, d][..3] == [a, b, c];
    assert AppliedAll(parsers, []) == Ok(DEFAULTS);
    assert AppliedAll(parsers, [a]) == Applied(parsers, DEFAULTS, a);
    assert AppliedAll(parsers, [a, b]) ==
      if AppliedAll(parsers, [a]).Err? then AppliedAll(parsers, [a])
      else Applied(parsers, AppliedAll(parsers, [a]).value, b);
    assert AppliedAll(parsers, [a, b, c]) ==
      if AppliedAll(parsers, [a, b]).Err? then AppliedAll(parsers, [a, b])
      else Applied(parsers, AppliedAll(parsers, [a, b]).value, c);
  }

  lemma NamedText(name: string, value: string)
    requires '=' !in name && NoCapitals(name)
    ensures FieldOf(name + "=" + value) == Field(KeyOf(name), Some(value))
  {
    FieldText(name, value);
  }

  lemma TypeText(kind: string)
    ensures FieldOf("type=" + kind) == Field(TypeKey, Some(kind))
  {
    NamedText("type", kind);
    assert "type=" == "type" + "=";
  }

  lemma SourceText(src: string)
    ensures FieldOf("source=" + src) == Field(SourceKey, Some(src))
  {
    NamedText("source", src);
    assert "source=" == "source" + "=";
  }

  lemma TargetText(dst: string)
    ensures FieldOf("target=" + dst) == Field(TargetKey, Some(dst))
  {
    NamedText("target", dst);
    assert "target=" == "target" + "=";
  }

  lemma FlagText(name: string)
    requires '=' !in name && NoCapitals(name)
    ensures FieldOf(name) == Field(KeyOf(name), None)
  {
    FieldText(name, "");
  }

  /** Four fields in a text, in turn. */
  lemma ReadFour(parsers: Parsers, a: string, b: string, c: string, d: string)
    requires ',' !in a && ',' !in b && ',' !in c && ',' !in d
    ensures ReadFlag(parsers, Join([a, b, c, d], ',')) ==
      AppliedAll(parsers, [FieldOf(a), FieldOf(b), FieldOf(c), FieldOf(d)])
  {
    SplitJoin([a, b, c, d], ',');
    FieldsOfFour(a, b, c, d);
  }

  /** A flag of four texts that name a bind mount, its source, its target and its mode, in that order. */
  lemma BindText(parsers: Parsers, a: string, b: string, c: string, d: string, src: string, dst: string)
    requires ',' !in a && ',' !in b && ',' !in c && ',' !in d
    requires FieldOf(a) == Field(TypeKey, Some("bind")) && FieldOf(b) == Field(SourceKey, Some(src))
    requires FieldOf(c) == Field(TargetKey, Some(dst)) && FieldOf(d) == Field(ModeKey(RO), None)
    ensures ReadFlag(parsers, Join([a, b, c, d], ',')) == Ok(Flag(BindMount, src, dst, "", false, Some(RO), 0, 1023))
  {
    ReadFour(parsers, a, b, c, d);
    AppliedFour(parsers, FieldOf(a), FieldOf(b), FieldOf(c), FieldOf(d));
  }

  lemma OneWord(w: Word)
    ensures Words(Text(w)) == [w]
  {
    ReadText(w);
    SplitOne(Text(w), ',');
    ReadOne(Text(w));
  }

  /** The options as they are written. */
  lemma OptionTexts()
    ensures Text(RO) == "ro" && Text(RW) == "rw" && Text(RRO) == "rro"
    ensures Text(NonRecursive) == "bind" && Text(Recursive) == "rbind"
    ensures Text(Private) == "private" && Text(RPrivate) == "rprivate"
    ensures Text(Shared) == "shared" && Text(RShared) == "rshared"
    ensures Text(Slave) == "slave" && Text(RSlave) == "rslave" && Text(Blank) == ""
  {
  }

  lemma PickOne(w: Word, c: Class)
    ensures Pick([w], c) == if In(w, c) then [w] else []
  {
    PickNext([], w, c);
    assert [] + [w] == [w];
  }

  /** An option on its own. */
  lemma Alone(vtype: VType, info: Option<string>, w: Word)
    ensures ParseWords(vtype, info, Words(Text(w))) ==
      Assembled(vtype, info, if IsBindWord(w) then [w] else [], if IsMode(w) then [w] else [],
                if IsPropagation(w) then [w] else [])
  {
    OneWord(w);
    PickOne(w, Binding);
    PickOne(w, Mode);
    PickOne(w, Propagation);
  }

  lemma NoneBefore(a: seq<Word>, b: seq<Word>)
    ensures [] + a == a && [] + a + b == a + b && a + [] + b == a + b
  {
  }

  /** What each option does to a volume: only the write mode is taken. */
  lemma VolumeOptionTexts(w: Word, info: Option<string>)
    ensures w == RW || w == Blank || w == Unknown
      ==> ParseWords(Volume, info, Words(Text(w))) == Ok(Options([], []))
    ensures w == RO ==> ParseWords(Volume, info, Words(Text(w))) == Ok(Options([RO], []))
    ensures w == RRO ==> ParseWords(Volume, info, Words(Text(w))) == Ok(Options([RO, RRO], []))
    ensures w == NonRecursive || w == Recursive ==> ParseWords(Volume, info, Words(Text(w))) == Err(BindOnVolume)
    ensures w == Private || w == RPrivate || w == Shared || w == RShared || w == Slave || w == RSlave
      ==> ParseWords(Volume, info, Words(Text(w))) == Err(PropagationOnVolume)
  {
    Alone(Volume, info, w);
    NoneBefore(ModeWords([]), []);
    NoneBefore(ModeWords([w]), []);
  }

  lemma PickTwo(a: Word, b: Word, c: Class)
    requires In(a, c) && In(b, c)
    ensures Pick([a, b], c) == [a, b]
  {
    PickOne(a, c);
    PickNext([a], b, c);
    assert [a] + [b] == [a, b];
  }

  lemma PickNeither(a: Word, b: Word, c: Class)
    requires !In(a, c) && !In(b, c)
    ensures Pick([a, b], c) == []
  {
    PickOne(a, c);
    PickNext([a], b, c);
    assert [a] + [b] == [a, b];
  }

  /** Two options of a kind are refused, whichever they are. */
  lemma TwoOfAKind(info: Option<string>, a: Word, b: Word)
    ensures IsMode(a) && IsMode(b) ==> forall t :: ParseWords(t, info, [a, b]) == Err(DuplicateMode)
    ensures IsBindWord(a) && IsBindWord(b) ==> ParseWords(Bind, info, [a, b]) == Err(DuplicateBind)
    ensures IsPropagation(a) && IsPropagation(b) ==> ParseWords(Bind, info, [a, b]) == Err(DuplicatePropagation)
  {
    if IsMode(a) && IsMode(b) {
      PickTwo(a, b, Mode);
      PickNeither(a, b, Binding);
    } else if IsBindWord(a) && IsBindWord(b) {
      PickTwo(a, b, Binding);
    } else if IsPropagation(a) && IsPropagation(b) {
      PickTwo(a, b, Propagation);
      PickNeither(a, b, Binding);
      PickNeither(a, b, Mode);
    }
  }

  /** The options of a bind mount besides its propagation. */
  lemma BesidePropagation(w: Word, info: Option<string>, words: seq<Word>, edits: seq<Edit>)
    requires PropagationOf(if IsPropagation(w) then [w] else [], info) == Ok(Options(words, edits))
    ensures ParseWords(Bind, info, Words(Text(w))) ==
      Ok(Options((if IsBindWord(w) then [w] else if IsMode(w) then ModeWords([w]) else []) + words, edits))
  {
    Alone(Bind, info, w);
    NoneBefore(ModeWords([w]), words);
    NoneBefore(ModeWords([]), words);
    NoneBefore([w], words);
  }

  /** A bind mount is recursively private as a rule. */
  lemma BindOptionTexts(w: Word)
    ensures w == RW || w == Blank || w == Unknown
      ==> ParseWords(Bind, None, Words(Text(w))) == Ok(Options([RPrivate], []))
    ensures w == NonRecursive || w == Recursive
      ==> ParseWords(Bind, None, Words(Text(w))) == Ok(Options([w, RPrivate], []))
  {
    if !IsPropagation(w) {
      BesidePropagation(w, None, [RPrivate], []);
      NoneBefore([RPrivate], []);
      assert [w] + [RPrivate] == [w, RPrivate];
    }
  }

  /** A private propagation can always be chosen. */
  lemma PrivateTexts(w: Word, info: Option<string>)
    requires w == Private || w == RPrivate
    ensures ParseWords(Bind, info, Words(Text(w))) == Ok(Options([w], []))
  {
    BesidePropagation(w, info, [w], []);
    NoneBefore([w], []);
  }

  /** Any other only while something is known of the mount of the source. */
  lemma UnknownMountTexts(w: Word)
    requires w == Shared || w == RShared || w == Slave || w == RSlave
    ensures ParseWords(Bind, None, Words(Text(w))) == Err(NoMountInfo)
  {
    assert [w][0] == w && !w.Private? && !w.RPrivate?;
    Alone(Bind, None, w);
  }

  /** Shared needs the source to be in a shared mount, and brings its edit of the root. */
  lemma SharedTexts(w: Word, info: string)
    requires w == Shared || w == RShared
    ensures ParseWords(Bind, Some(info), Words(Text(w))) ==
      if Marked(info, false) then Ok(Options([w], [MakeShared])) else Err(NotShared)
  {
    var marked := Marked(info, false);
    if marked {
      BesidePropagation(w, Some(info), [w], [MakeShared]);
      NoneBefore([w], []);
    } else {
      Alone(Bind, Some(info), w);
    }
  }

  /** A slave needs it to be in a mount that is shared or a slave. */
  lemma SlaveTexts(w: Word, info: string)
    requires w == Slave || w == RSlave
    ensures ParseWords(Bind, Some(info), Words(Text(w))) ==
      if Marked(info, true) then Ok(Options([w], [MakeSlave])) else Err(NotShared)
  {
    assert [w][0] == w && !w.Shared? && !w.RShared?;
    var marked := Marked(info, true);
    if marked {
      BesidePropagation(w, Some(info), [w], [MakeSlave]);
      NoneBefore([w], []);
    } else {
      Alone(Bind, Some(info), w);
    }
  }

  /** A mount is marked by any of its fields. */
  lemma MarkedFields(fields: seq<string>, slaveToo: bool)
    requires fields != [] && forall i :: 0 <= i < |fields| ==> ' ' !in fields[i]
    ensures Marked(Join(fields, ' '), slaveToo) <==>
      exists i :: 0 <= i < |fields| && ("shared:" <= fields[i] || (slaveToo && "master:" <= fields[i]))
  {
    SplitJoin(fields, ' ');
    if i :| 0 <= i < |fields| && Mark(fields[i], slaveToo) {
      assert "shared:" <= fields[i] || (slaveToo && "master:" <= fields[i]);
    }
    if i :| 0 <= i < |fields| && ("shared:" <= fields[i] || (slaveToo && "master:" <= fields[i])) {
      assert Mark(fields[i], slaveToo);
    }
  }

  /** What marks a mount as shared and as a slave. */
  lemma MarkTexts(n: string)
    requires ' ' !in n
    ensures Marked("shared:" + n, false) && Marked("shared:" + n, true)
    ensures !Marked("master:" + n, false) && Marked("master:" + n, true)
  {
    var s, m := "shared:" + n, "master:" + n;
    assert ' ' !in "shared:" && ' ' !in "master:";
    SplitOne(s, ' ');
    SplitOne(m, ' ');
    assert Split(s, ' ')[0] == s && Split(m, ' ')[0] == m;
    assert s[..7] == "shared:" && m[..7] == "master:";
    assert HasPrefix(s, "shared:") && HasPrefix(m, "master:") && Mark(s, false) && Mark(s, true) && Mark(m, true);
    assert m[0] == 'm' && "shared:"[0] == 's';
    assert !Mark(m, false);
  }

  /** A volume by its name, in a flag without options. */
  lemma NamedVolume(env: Env, name: string, dst: string)
    requires I.ValidName(name) && env.volume(name).Some? && P.Rooted(dst) && ':' !in dst
    ensures ProcessV(env, name + ":" + dst) ==
      Ok(Processed(Volume, name, false, "", P.Clean(env.volume(name).value), P.Clean(dst), false, [Recursive], []))
  {
    var fields := [name, dst];
    assert forall i :: 0 <= i < |name| ==> name[i] != ':';
    assert Join(fields, ':') == name + ":" + dst by { assert fields[1..] == [dst]; }
    PiecesReadBack(fields);
    assert [] + [Recursive] == [Recursive];
  }

  /** Whether a bind mount is recursive is always among the options composed, at the end. */
  lemma RecursionComposed(f: Flag)
    requires f.kind == BindMount
    ensures Texts(f) != [] && Texts(f)[|Texts(f)| - 1] == if f.nonRecursive then "bind" else "rbind"
  {
    OptionTexts();
  }

  // ----- the code -----

  predicate AnyPrefix(field: string, vals: seq<string>) { exists j :: 0 <= j < |vals| && HasPrefix(field, vals[j]) }

  predicate SomePrefixed(fields: seq<string>, vals: seq<string>) {
    exists i :: 0 <= i < |fields| && AnyPrefix(fields[i], vals)
  }

  method EnsureMountOptionalValue(optional: string, vals: seq<string>) returns (found: bool)
    ensures found <==> SomePrefixed(Split(optional, ' '), vals)
  {
    found := false;
    var opts := Split(optional, ' ');
    for i := 0 to |opts|
      invariant found <==> SomePrefixed(opts[..i], vals)
    {
      ghost var before := found;
      for j := 0 to |vals|
        invariant found <==> before || exists b :: 0 <= b < j && HasPrefix(opts[i], vals[b])
      {
        if HasPrefix(opts[i], vals[j]) { found := true; }
      }
      assert found <==> before || AnyPrefix(opts[i], vals);
      SomePrefixedNext(opts, i, vals);
    }
    assert opts[..|opts|] == opts;
  }

  lemma SomePrefixedNext(fields: seq<string>, i: nat, vals: seq<string>)
    requires i < |fields|
    ensures SomePrefixed(fields[..i + 1], vals) <==> SomePrefixed(fields[..i], vals) || AnyPrefix(fields[i], vals)
  {
    var was, next := fields[..i], fields[..i + 1];
    if a :| 0 <= a < |was| && AnyPrefix(was[a], vals) { assert next[a] == was[a]; }
    if a :| 0 <= a < |next| && AnyPrefix(next[a], vals) { assert a < i ==> was[a] == next[a]; }
    assert next[i] == fields[i];
  }

  function Marks(slaveToo: bool): seq<string> { if slaveToo then ["shared:", "master:"] else ["shared:"] }

  lemma MarksMark(field: string, slaveToo: bool)
    ensures Mark(field, slaveToo) <==> AnyPrefix(field, Marks(slaveToo))
  {
    var vals := Marks(slaveToo);
    assert vals[0] == "shared:" && (slaveToo ==> vals[1] == "master:");
  }

  method CheckMark(info: Option<string>, slaveToo: bool) returns (r: Option<Error>)
    ensures r == if info.None? then Some(NoMountInfo)
                 else if Marked(info.value, slaveToo) then None else Some(NotShared)
  {
    if info.None? { return Some(NoMountInfo); }
    var found := EnsureMountOptionalValue(info.value, Marks(slaveToo));
    forall i | 0 <= i < |Split(info.value, ' ')|
      ensures Mark(Split(info.value, ' ')[i], slaveToo) <==> AnyPrefix(Split(info.value, ' ')[i], Marks(slaveToo))
    {
      MarksMark(Split(info.value, ' ')[i], slaveToo);
    }
    r := if found then None else Some(NotShared);
  }

  method Propagate(props: seq<Word>, info: Option<string>) returns (r: Result<Options>)
    requires forall i :: 0 <= i < |props| ==> IsPropagation(props[i])
    ensures r == PropagationOf(props, info)
  {
    var got := if |props| > 0 then props[0] else Blank;
    match got {
      case Shared | RShared =>
        var e := CheckMark(info, false);
        if e.Some? { return Err(e.value); }
        r := Ok(Options([got], [MakeShared]));
      case Slave | RSlave =>
        var e := CheckMark(info, true);
        if e.Some? { return Err(e.value); }
        r := Ok(Options([got], [MakeSlave]));
      case Private | RPrivate =>
        r := Ok(Options([got], []));
      case _ =>
        r := Ok(Options([RPrivate], []));
    }
  }

  /** The options of a kind among the first pieces. */
  function Sorted(pieces: seq<string>, i: nat, c: Class): seq<Word>
    requires i <= |pieces|
  {
    Pick(ReadAll(pieces[..i]), c)
  }

  lemma SortedNext(pieces: seq<string>, i: nat, c: Class)
    requires i < |pieces|
    ensures Sorted(pieces, i + 1, c) == Sorted(pieces, i, c) + if In(Read(pieces[i]), c) then [Read(pieces[i])] else []
  {
    ReadAllNext(pieces[..i], pieces[i]);
    assert pieces[..i + 1] == pieces[..i] + [pieces[i]];
    PickNext(ReadAll(pieces[..i]), Read(pieces[i]), c);
  }

  /** Sorting the raw options into three lists. */
  method Classify(raw: string) returns (binds: seq<Word>, modes: seq<Word>, props: seq<Word>)
    ensures binds == Pick(Words(raw), Binding) && modes == Pick(Words(raw), Mode)
    ensures props == Pick(Words(raw), Propagation)
  {
    binds, modes, props := [], [], [];
    var pieces := Split(raw, ',');
    for i := 0 to |pieces|
      invariant binds == Sorted(pieces, i, Binding) && modes == Sorted(pieces, i, Mode)
      invariant props == Sorted(pieces, i, Propagation)
    {
      SortedNext(pieces, i, Binding);
      SortedNext(pieces, i, Mode);
      SortedNext(pieces, i, Propagation);
      var w := Read(pieces[i]);
      if IsMode(w) {
        modes := modes + [w];
      } else if IsPropagation(w) {
        props := props + [w];
      } else if IsBindWord(w) {
        binds := binds + [w];
      }
    }
    assert pieces[..|pieces|] == pieces;
  }

  lemma {:induction false} PickIn(ws: seq<Word>, c: Class)
    ensures forall i :: 0 <= i < |Pick(ws, c)| ==> In(Pick(ws, c)[i], c)
  {
    if ws != [] { PickIn(ws[1..], c); }
  }

  /** `parseVolumeOptionsWithMountInfo`. */
  method ParseVolumeOptions(vtype: VType, info: Option<string>, raw: string) returns (r: Result<Options>)
    ensures r == ParseWords(vtype, info, Words(raw))
  {
    var binds, modes, props := Classify(raw);
    PickIn(Words(raw), Propagation);
    PickIn(Words(raw), Mode);
    var opts: seq<Word> := [];
    if |binds| > 0 && vtype != Bind { return Err(BindOnVolume); }
    if |binds| > 1 { return Err(DuplicateBind); }
    if |binds| > 0 { opts := opts + [binds[0]]; }
    assert opts == binds;
    if |modes| > 1 { return Err(DuplicateMode); }
    if |modes| > 0 {
      if modes[0] == RO { opts := opts + [RO]; }
      else if modes[0] == RRO { opts := opts + [RO, RRO]; }
    }
    assert opts == binds + ModeWords(modes);
    if |props| > 1 { return Err(DuplicatePropagation); }
    if |props| > 0 && vtype != Bind { return Err(PropagationOnVolume); }
    if vtype != Bind { return Ok(Options(opts, [])); }
    var p := Propagate(props, info);
    if p.Err? { return p; }
    r := Ok(Options(opts + p.value.words, p.value.edits));
  }

  lemma HasBindWordNext(options: seq<Word>, i: nat)
    requires i < |options|
    ensures HasBindWord(options[..i + 1]) ==> HasBindWord(options[..i]) || IsBindWord(options[i])
  {
    var next := options[..i + 1];
    if j :| 0 <= j < |next| && IsBindWord(next[j]) {
      assert j < i ==> options[..i][j] == next[j];
    }
  }

  /** The search for a bind word among the options. */
  method FindBindWord(options: seq<Word>) returns (found: bool)
    ensures found <==> HasBindWord(options)
  {
    found := false;
    for i := 0 to |options|
      invariant !found && !HasBindWord(options[..i])
    {
      if IsBindWord(options[i]) { return true; }
      HasBindWordNext(options, i);
    }
    assert options[..|options|] == options;
  }

  /** A source that is a valid volume name is that volume, wherever the store keeps it; anything else is a
      bind source, an absolute path being kept as it is. */
  method HandleVolumeToMount(env: Env, src: string) returns (r: Result<Source>)
    ensures r.Ok? ==> (r.value.vtype == Volume <==> I.ValidName(src))
    ensures r.Ok? ==> r.value.name == if I.ValidName(src) then src else ""
    ensures r.Ok? && I.ValidName(src) ==> Some(r.value.path) == env.volume(src)
    ensures r.Ok? && P.Rooted(src) ==> r.value.path == src && r.value.vtype == Bind
    ensures r.Ok? && !I.ValidName(src) && !P.Rooted(src) ==> Some(r.value.path) == env.absolute(src)
    ensures r.Err? <==> if I.ValidName(src) then env.volume(src).None?
                        else !env.usable(src) || (!P.Rooted(src) && env.absolute(src).None?)
    ensures r.Err? ==> r.error == if I.ValidName(src) then NoVolume else NoSource
  {
    if I.ValidName(src) {
      var p := env.volume(src);
      if p.None? { return Err(NoVolume); }
      return Ok(Source(Volume, src, p.value));
    }
    var path := src;
    if !P.Rooted(src) {
      var abs := env.absolute(src);
      if abs.None? { return Err(NoSource); }
      path := abs.value;
    }
    if !env.usable(src) { return Err(NoSource); }
    r := Ok(Source(Bind, "", path));
  }

  lemma TrimLeftPiece(s: string)
    requires ':' !in s
    ensures TrimLeft(s, ':') == s
  {
  }

  /** `ProcessFlagV`. */
  method ProcessFlagV(env: Env, spec: string) returns (r: Result<Processed>)
    ensures r == ProcessV(env, spec)
  {
    var split := Pieces(spec);
    SplitPieces(TrimLeft(spec, ':'), ':');
    var source, dst, mode, anonymous := Source(Volume, "", ""), "", "", false;
    var parsed := Options([], []);
    if |split| == 1 {
      dst := split[0];
      if env.anonymous.None? { return Err(NoVolume); }
      source, anonymous := Source(Volume, "", env.anonymous.value), true;
    } else if |split| == 2 || |split| == 3 {
      TrimLeftPiece(split[1]);
      dst := TrimLeft(split[1], ':');
      if !P.Rooted(dst) { return Err(NotAbsolute); }
      var s := HandleVolumeToMount(env, split[0]);
      if s.Err? { return Err(s.error); }
      source := s.value;
      if |split| == 3 {
        mode := split[2];
        var o := ParseVolumeOptions(source.vtype, env.info(source.path), mode);
        if o.Err? { return Err(o.error); }
        parsed := Options(o.value.words, o.value.edits + o.value.edits);
      }
    } else {
      return Err(BadSpec);
    }
    var found := FindBindWord(parsed.words);
    var options := if found then parsed.words else parsed.words + [Recursive];
    r := Ok(Processed(source.vtype, source.name, anonymous, mode, P.Clean(source.path), P.Clean(dst), found,
                      options, parsed.edits));
  }

  method ApplyField(parsers: Parsers, given: Flag, text: string) returns (r: Result<Flag>)
    ensures r == Applied(parsers, given, FieldOf(text))
  {
    var f := given;
    var key := KeyOf(Lower(Before(text, '=')));
    if '=' !in text {
      if key.ModeKey? { return Ok(f.(mode := Some(key.word))); }
      if key.NonRecursiveKey? { return Ok(f.(nonRecursive := true)); }
      return Err(NotKeyValue);
    }
    var value := After(text, '=');
    match key {
      case TypeKey => r := WithKind(f, value);
      case SourceKey => r := Ok(f.(src := value));
      case TargetKey => r := Ok(f.(dst := value));
      case ModeKey(w) =>
        var t := parsers.truth(value);
        if t.None? { return Err(BadValue); }
        if t.value { f := f.(mode := Some(w)); }
        r := Ok(f);
      case PropagationKey => r := Ok(f.(propagation := value));
      case NonRecursiveKey =>
        var t := parsers.truth(value);
        if t.None? { return Err(BadValue); }
        r := Ok(f.(nonRecursive := t.value));
      case SizeKey =>
        var n := parsers.size(value);
        if n.None? { return Err(BadValue); }
        r := Ok(f.(size := n.value));
      case FileModeKey =>
        var n := parsers.octal(value);
        if n.None? { return Err(BadValue); }
        r := Ok(f.(fileMode := n.value));
      case NoKey => r := Err(BadKey);
    }
  }

  /** The loop of `ProcessFlagMount` over the fields. */
  method ReadFields(parsers: Parsers, spec: string) returns (r: Result<Flag>)
    ensures r == ReadFlag(parsers, spec)
  {
    var texts := Split(spec, ',');
    var f := DEFAULTS;
    ghost var fields := FieldsOf(texts);
    FieldsLength(texts);
    for i := 0 to |texts|
      invariant AppliedAll(parsers, fields[..i]) == Ok(f)
    {
      FieldsAt(texts, i);
      assert fields[..i + 1][..i] == fields[..i];
      var a := ApplyField(parsers, f, texts[i]);
      if a.Err? {
        FailureStays(parsers, fields, i + 1);
        return a;
      }
      f := a.value;
    }
    assert fields[..|texts|] == fields;
    r := Ok(f);
  }

  lemma {:induction false} FieldsLength(texts: seq<string>)
    ensures |FieldsOf(texts)| == |texts|
  {
    if texts != [] { FieldsLength(texts[..|texts| - 1]); }
  }

  lemma {:induction false} FieldsAt(texts: seq<string>, i: nat)
    requires i < |texts|
    ensures |FieldsOf(texts)| == |texts| && FieldsOf(texts)[i] == FieldOf(texts[i])
  {
    FieldsLength(texts);
    FieldsLength(texts[..|texts| - 1]);
    if i < |texts| - 1 { FieldsAt(texts[..|texts| - 1], i); }
  }

  lemma {:induction false} FailureStays(parsers: Parsers, fields: seq<Field>, i: nat)
    requires i <= |fields| && AppliedAll(parsers, fields[..i]).Err?
    ensures AppliedAll(parsers, fields) == AppliedAll(parsers, fields[..i])
    decreases |fields|
  {
    if i == |fields| {
      assert fields[..i] == fields;
    } else {
      assert fields[..|fields| - 1][..i] == fields[..i];
      FailureStays(parsers, fields[..|fields| - 1], i);
    }
  }

  /** The part of `ProcessFlagMount` that composes a `-v` flag and hands it on. */
  method ComposeAndProcess(env: Env, f: Flag) returns (r: Result<Processed>)
    requires f.kind != TmpfsMount
    ensures r == ProcessV(env, Composed(f))
  {
    var options: seq<string> := [];
    if f.mode.Some? { options := options + [Text(f.mode.value)]; }
    if f.propagation != "" { options := options + [f.propagation]; }
    if f.kind == BindMount {
      if f.nonRecursive { options := options + [Text(NonRecursive)]; } else { options := options + [Text(Recursive)]; }
    }
    assert options == Texts(f);
    var fields := [f.src, f.dst];
    if |options| > 0 { fields := fields + [Join(options, ',')]; }
    assert fields == Fields(f);
    r := ProcessFlagV(env, Join(fields, ':'));
  }

  /** `ProcessFlagMount`; for a temporary filesystem the fields are returned as they were read. */
  method ProcessFlagMount(env: Env, parsers: Parsers, spec: string)
    returns (f: Result<Flag>, r: Option<Result<Processed>>)
    ensures f == ReadFlag(parsers, spec)
    ensures r == if f.Err? || f.value.kind == TmpfsMount then None else Some(ProcessV(env, Composed(f.value)))
  {
    f := ReadFields(parsers, spec);
    if f.Err? || f.value.kind == TmpfsMount { return f, None; }
    var p := ComposeAndProcess(env, f.value);
    r := Some(p);
  }

  // ----- sizes of temporary filesystems -----

  datatype Unit = Bytes | Kilo | Mega | Giga

  function Factor(u: Unit): nat {
    match u
    case Bytes => 1
    case Kilo => 0x400
    case Mega => 0x10_0000
    case Giga => 0x4000_0000
  }

  const UNITS: seq<Unit> := [Giga, Mega, Kilo]

  /** The size is expressed exactly, in the largest unit that divides it. */
  method GetTmpfsSize(given: int) returns (size: int, unit: Unit)
    requires given > 0
    ensures size * Factor(unit) == given
    ensures forall u: Unit :: Factor(u) > Factor(unit) ==> given % Factor(u) != 0
    ensures unit == Giga <==> given % 1073741824 == 0
    ensures unit == Mega <==> given % 1048576 == 0 && given % 1073741824 != 0
    ensures unit == Kilo <==> given % 1024 == 0 && given % 1048576 != 0 && given % 1073741824 != 0
  {
    size, unit := given, Bytes;
    for i := 0 to |UNITS|
      invariant size == given && unit == Bytes
      invariant forall j :: 0 <= j < i ==> given % Factor(UNITS[j]) != 0
    {
      if size % Factor(UNITS[i]) == 0 {
        size, unit := size / Factor(UNITS[i]), UNITS[i];
        break;
      }
    }
    assert UNITS[0] == Giga && UNITS[1] == Mega && UNITS[2] == Kilo;
  }

  class Spec {
    var rootfsPropagation: Word

    /** The closure of one mount. */
    method Apply(e: Edit)
      modifies this
      ensures rootfsPropagation == Edited(old(rootfsPropagation), e)
    {
      match e {
        case MakeShared =>
          if !(rootfsPropagation == Shared || rootfsPropagation == RShared) { rootfsPropagation := Shared; }
        case MakeSlave =>
          if rootfsPropagation != Shared && rootfsPropagation != RShared
            && rootfsPropagation != Slave && rootfsPropagation != RSlave
          { rootfsPropagation := RSlave; }
      }
    }

    /** All closures of all mounts, one after the other. */
    method ApplyAll(edits: seq<Edit>)
      modifies this
      ensures rootfsPropagation == Raised(old(rootfsPropagation), Strongest(edits))
      ensures MakeShared in edits ==>
        rootfsPropagation == if old(rootfsPropagation) == RShared then RShared else Shared
      ensures MakeShared !in edits && MakeSlave in edits ==>
        rootfsPropagation == if old(rootfsPropagation) in {Shared, RShared, Slave, RSlave}
                             then old(rootfsPropagation) else RSlave
      ensures edits == [] ==> rootfsPropagation == old(rootfsPropagation)
    {
      for i := 0 to |edits|
        invariant rootfsPropagation == EditedAll(old(rootfsPropagation), edits[..i])
      {
        assert edits[..i + 1][..i] == edits[..i];
        Apply(edits[i]);
      }
      assert edits[..|edits|] == edits;
      EditsJoin(old(rootfsPropagation), edits);
    }
  }
}

/** Reading a container log in the CRI format: one line per fragment, each with a timestamp, a stream
    and a tag saying whether the fragment is partial. Reading a log without following it puts the
    fragments together again. */
module CriLog {
  import opened Strings

  datatype Stream = Stdout | Stderr

  /** The limit no write may pass: `math.MaxInt64` bytes. */
  const UNLIMITED: nat := 0x7FFF_FFFF_FFFF_FFFF

  /** A parsed line; `stamp` is its timestamp as the viewer prints it. */
  datatype Message = Message(stamp: string, stream: Stream, text: string)

  /** `stamp` stands for reading a timestamp and formatting it again: `None` when it does not parse. */
  datatype Options = Options(timestamps: bool, stamp: string -> Option<string>)

  function StreamName(s: Stream): string { if s == Stdout then "stdout" else "stderr" }

  function StreamOf(name: string): Option<Stream> {
    if name == "stdout" then Some(Stdout) else if name == "stderr" then Some(Stderr) else None
  }

  // ----- one line -----

  predicate Partial(tag: string) { Before(tag, ':') == "P" }

  /** The text of a line after its tag; a partial line loses its newline. */
  function Content(tag: string, rest: string): string {
    if Partial(tag) && rest != "" && rest[|rest| - 1] == '\n' then rest[..|rest| - 1] else rest
  }

  /** A line is four fields separated by single spaces; the last may hold anything. */
  function ParseLine(stamp: string -> Option<string>, line: string): Option<Message> {
    if ' ' !in line then None
    else var time := stamp(Before(line, ' ')); if time.None? then None else ParseStream(time.value, After(line, ' '))
  }

  function ParseStream(time: string, rest: string): Option<Message> {
    if ' ' !in rest then None
    else
      var stream := StreamOf(Before(rest, ' '));
      if stream.None? then None else ParseTag(time, stream.value, After(rest, ' '))
  }

  function ParseTag(time: string, stream: Stream, rest: string): Option<Message> {
    if ' ' !in rest then None else Some(Message(time, stream, Content(Before(rest, ' '), After(rest, ' '))))
  }

  // ----- the whole log -----

  datatype Chunk = Chunk(stream: Stream, text: string)

  function LineOf(rest: string): string {
    if IndexOf(rest, '\n') < 0 then rest else rest[..IndexOf(rest, '\n') + 1]
  }

  /** A fragment ends a line when its text does, and also when it has none. */
  predicate EndsLine(text: string) { text == "" || text[|text| - 1] == '\n' }

  function Prefix(o: Options, m: Message, isNew: bool): string {
    if o.timestamps && isNew then m.stamp + [' '] else ""
  }

  function ChunkOf(o: Options, m: Message, isNew: bool): Chunk {
    Chunk(m.stream, Prefix(o, m, isNew) + m.text)
  }

  /** What is written for the unread part of a log: unparsable lines are skipped. */
  function Chunks(o: Options, rest: string, isNew: bool): seq<Chunk>
    decreases |rest|
  {
    if rest == "" then []
    else
      var line := LineOf(rest);
      match ParseLine(o.stamp, line)
      case None => Chunks(o, rest[|line|..], isNew)
      case Some(m) =>
        [ChunkOf(o, m, isNew)] + Chunks(o, rest[|line|..], EndsLine(m.text))
  }

  /** Only the first `left` parsed lines are written if a number was asked for. */
  function Taken(limited: bool, left: nat, chunks: seq<Chunk>): seq<Chunk> {
    if limited && left < |chunks| then chunks[..left] else chunks
  }

  /** What of it fits into `n` bytes. */
  function Fit(chunks: seq<Chunk>, n: nat): seq<Chunk> {
    if chunks == [] || n == 0 then []
    else if |chunks[0].text| > n then [chunks[0].(text := chunks[0].text[..n])]
    else [chunks[0]] + Fit(chunks[1..], n - |chunks[0].text|)
  }

  /** The bytes that reach one stream. */
  function TextOn(chunks: seq<Chunk>, s: Stream): string {
    if chunks == [] then ""
    else (if chunks[0].stream == s then chunks[0].text else "") + TextOn(chunks[1..], s)
  }

  function Size(chunks: seq<Chunk>): nat {
    if chunks == [] then 0 else |chunks[0].text| + Size(chunks[1..])
  }

  /** Below the limit nothing is cut. */
  lemma {:induction false} FitsWhole(chunks: seq<Chunk>, n: nat, s: Stream)
    requires Size(chunks) <= n
    ensures TextOn(Fit(chunks, n), s) == TextOn(chunks, s)
  {
    if chunks != [] {
      if n == 0 {
        FitsWhole(chunks[1..], n, s);
      } else {
        FitsWhole(chunks[1..], n - |chunks[0].text|, s);
        assert ([chunks[0]] + Fit(chunks[1..], n - |chunks[0].text|))[1..] == Fit(chunks[1..], n - |chunks[0].text|);
      }
    }
  }

  // ----- reassembly -----

  datatype Fragment = Fragment(time: string, tag: string, text: string)

  /** One line of a container's output: partial fragments and a final one. */
  datatype Logical = Logical(parts: seq<Fragment>, last: Fragment)

  predicate Plain(s: string) { ' ' !in s && '\n' !in s }

  predicate Sound(stamp: string -> Option<string>, f: Fragment) {
    Plain(f.time) && stamp(f.time).Some? && Plain(f.tag) && '\n' !in f.text
  }

  predicate SoundParts(stamp: string -> Option<string>, parts: seq<Fragment>) {
    forall k :: 0 <= k < |parts| ==> Sound(stamp, parts[k]) && Partial(parts[k].tag)
  }

  predicate SoundLine(stamp: string -> Option<string>, l: Logical) {
    SoundParts(stamp, l.parts) && Sound(stamp, l.last) && !Partial(l.last.tag)
  }

  predicate SoundLog(stamp: string -> Option<string>, log: seq<Logical>) {
    forall k :: 0 <= k < |log| ==> SoundLine(stamp, log[k])
  }

  /** The fields after the timestamp. */
  function Tail(s: Stream, f: Fragment): string { StreamName(s) + [' '] + (f.tag + [' '] + (f.text + ['\n'])) }

  /** How the runtime writes a fragment down. */
  function Encode(s: Stream, f: Fragment): string { f.time + [' '] + Tail(s, f) }

  function EncodeParts(s: Stream, parts: seq<Fragment>, rest: string): string {
    if parts == [] then rest else Encode(s, parts[0]) + EncodeParts(s, parts[1..], rest)
  }

  function EncodeLog(s: Stream, log: seq<Logical>): string {
    if log == [] then ""
    else EncodeParts(s, log[0].parts, Encode(s, log[0].last) + EncodeLog(s, log[1..]))
  }

  /** The text a fragment is written with. */
  function Shown(o: Options, f: Fragment, isNew: bool): string
    requires Sound(o.stamp, f)
  {
    Prefix(o, Message(o.stamp(f.time).value, Stdout, ""), isNew) + if Partial(f.tag) then f.text else f.text + ['\n']
  }

  /** A logical line as the viewer prints it: a prefix stands before the first fragment and before each
      one that follows an empty fragment. */
  function Actual(o: Options, parts: seq<Fragment>, last: Fragment, isNew: bool): string
    requires SoundParts(o.stamp, parts) && Sound(o.stamp, last)
  {
    if parts == [] then Shown(o, last, isNew)
    else Shown(o, parts[0], isNew) + Actual(o, parts[1..], last, parts[0].text == "")
  }

  function ActualLog(o: Options, log: seq<Logical>): string
    requires SoundLog(o.stamp, log)
  {
    if log == [] then "" else Actual(o, log[0].parts, log[0].last, true) + ActualLog(o, log[1..])
  }

  function Texts(parts: seq<Fragment>): string {
    if parts == [] then "" else parts[0].text + Texts(parts[1..])
  }

  /** The timestamp of a logical line's first fragment. */
  function First(l: Logical): Fragment { if l.parts == [] then l.last else l.parts[0] }

  /** What the container wrote: one timestamp at most, the text byte for byte, one newline. */
  function Original(o: Options, l: Logical): string
    requires SoundLine(o.stamp, l)
  {
    (if o.timestamps then o.stamp(First(l).time).value + [' '] else "")
      + (Texts(l.parts) + (l.last.text + ['\n']))
  }

  function OriginalLog(o: Options, log: seq<Logical>): string
    requires SoundLog(o.stamp, log)
  {
    if log == [] then "" else Original(o, log[0]) + OriginalLog(o, log[1..])
  }

  lemma StreamNamePlain(s: Stream)
    ensures Plain(StreamName(s)) && StreamOf(StreamName(s)) == Some(s)
  {
    var a, b := "stdout", "stderr";
    assert Plain(a) && Plain(b);
    assert a[3] != b[3];
  }

  lemma ParseTagEncoded(time: string, s: Stream, f: Fragment)
    requires Plain(f.tag)
    ensures ParseTag(time, s, f.tag + [' '] + (f.text + ['\n']))
      == Some(Message(time, s, if Partial(f.tag) then f.text else f.text + ['\n']))
  {
    CutAt(f.tag, ' ', f.text + ['\n']);
    assert (f.text + ['\n'])[..|f.text|] == f.text;
  }

  lemma ParseStreamEncoded(time: string, s: Stream, rest: string)
    ensures ParseStream(time, StreamName(s) + [' '] + rest) == ParseTag(time, s, rest)
  {
    StreamNamePlain(s);
    CutAt(StreamName(s), ' ', rest);
    if ' ' !in rest { assert ParseTag(time, s, rest) == None; }
  }

  /** Parsing undoes the runtime's writing of a fragment. */
  lemma ParseEncoded(stamp: string -> Option<string>, s: Stream, f: Fragment)
    requires Sound(stamp, f)
    ensures ParseLine(stamp, Encode(s, f))
      == Some(Message(stamp(f.time).value, s, if Partial(f.tag) then f.text else f.text + ['\n']))
  {
    CutAt(f.time, ' ', Tail(s, f));
    ParseStreamEncoded(stamp(f.time).value, s, f.tag + [' '] + (f.text + ['\n']));
    ParseTagEncoded(stamp(f.time).value, s, f);
  }

  lemma EncodedShape(s: Stream, f: Fragment)
    ensures Encode(s, f) == f.time + [' '] + (StreamName(s) + [' '] + (f.tag + [' '] + f.text)) + ['\n']
  {
  }

  /** The tags: `P` alone or before a colon says partial, and `F`, like anything else, does not. */
  lemma TagsMean(rest: string)
    ensures Partial("P") && Partial("P:" + rest) && !Partial("F") && !Partial("F:" + rest)
  {
    var p, f := "P", "F";
    CutAt(p, ':', rest);
    CutAt(f, ':', rest);
    assert p + [':'] + rest == "P:" + rest && f + [':'] + rest == "F:" + rest;
    assert p[0] == 'P' && f[0] == 'F';
    IndexOfFirst(p, ':');
    IndexOfFirst(f, ':');
  }

  /** A line as the runtime writes it, character by character. */
  function Written(time: string, stream: string, tag: string, text: string): string {
    time + " " + stream + " " + tag + " " + text + "\n"
  }

  lemma WrittenIsEncoded(s: Stream, f: Fragment)
    ensures Encode(s, f) == Written(f.time, if s == Stdout then "stdout" else "stderr", f.tag, f.text)
  {
    var n := StreamName(s);
    assert n == if s == Stdout then "stdout" else "stderr";
    assert f.time + [' '] + (n + [' '] + (f.tag + [' '] + (f.text + ['\n'])))
      == f.time + " " + n + " " + f.tag + " " + f.text + "\n";
  }

  /** Reading such a line: a full one keeps its newline, a partial one loses it. */
  lemma WrittenLinesParse(stamp: string -> Option<string>, time: string, text: string, more: string)
    requires Plain(time) && stamp(time).Some? && '\n' !in text && Plain(more)
    ensures ParseLine(stamp, Written(time, "stdout", "F", text))
      == Some(Message(stamp(time).value, Stdout, text + "\n"))
    ensures ParseLine(stamp, Written(time, "stderr", "F", text))
      == Some(Message(stamp(time).value, Stderr, text + "\n"))
    ensures ParseLine(stamp, Written(time, "stdout", "P", text)) == Some(Message(stamp(time).value, Stdout, text))
    ensures ParseLine(stamp, Written(time, "stderr", "P", text)) == Some(Message(stamp(time).value, Stderr, text))
    ensures ParseLine(stamp, Written(time, "stdout", "F:" + more, text))
      == Some(Message(stamp(time).value, Stdout, text + "\n"))
    ensures ParseLine(stamp, Written(time, "stdout", "P:" + more, text))
      == Some(Message(stamp(time).value, Stdout, text))
  {
    TagsMean(more);
    ParseWritten(stamp, Stdout, Fragment(time, "F", text));
    ParseWritten(stamp, Stderr, Fragment(time, "F", text));
    ParseWritten(stamp, Stdout, Fragment(time, "P", text));
    ParseWritten(stamp, Stderr, Fragment(time, "P", text));
    ParseWritten(stamp, Stdout, Fragment(time, "F:" + more, text));
    ParseWritten(stamp, Stdout, Fragment(time, "P:" + more, text));
  }

  lemma ParseWritten(stamp: string -> Option<string>, s: Stream, f: Fragment)
    requires Sound(stamp, f)
    ensures ParseLine(stamp, Written(f.time, if s == Stdout then "stdout" else "stderr", f.tag, f.text))
      == Some(Message(stamp(f.time).value, s, if Partial(f.tag) then f.text else f.text + "\n"))
  {
    WrittenIsEncoded(s, f);
    ParseEncoded(stamp, s, f);
  }

  /** The line at the head of an encoded log. */
  lemma LineOfEncoded(stamp: string -> Option<string>, s: Stream, f: Fragment, rest: string)
    requires Sound(stamp, f)
    ensures LineOf(Encode(s, f) + rest) == Encode(s, f)
    ensures (Encode(s, f) + rest)[|Encode(s, f)|..] == rest && Encode(s, f) + rest != ""
  {
    StreamNamePlain(s);
    EncodedShape(s, f);
    var body := f.time + [' '] + (StreamName(s) + [' '] + (f.tag + [' '] + f.text));
    assert '\n' !in body;
    IndexAfterPrefix(body, '\n', rest);
    assert (body + ['\n'] + rest)[..|body| + 1] == body + ['\n'];
  }

  /** One encoded fragment gives one chunk. */
  lemma ChunkOfEncoded(o: Options, s: Stream, f: Fragment, rest: string, isNew: bool)
    requires Sound(o.stamp, f)
    ensures Chunks(o, Encode(s, f) + rest, isNew)
      == [Chunk(s, Shown(o, f, isNew))] + Chunks(o, rest, !Partial(f.tag) || f.text == "")
  {
    LineOfEncoded(o.stamp, s, f, rest);
    ParseEncoded(o.stamp, s, f);
    EndOfText(f.text, Partial(f.tag));
  }

  lemma EndOfText(text: string, partial: bool)
    requires '\n' !in text
    ensures EndsLine(if partial then text else text + ['\n']) <==> !partial || text == ""
  {
  }

  lemma TextOnCons(c: Chunk, rest: seq<Chunk>, s: Stream)
    ensures TextOn([c] + rest, s) == (if c.stream == s then c.text else "") + TextOn(rest, s)
  {
    assert ([c] + rest)[1..] == rest;
  }

  lemma {:induction false} LineShown(o: Options, s: Stream, parts: seq<Fragment>, last: Fragment,
                                     rest: string, isNew: bool)
    requires SoundParts(o.stamp, parts) && Sound(o.stamp, last) && !Partial(last.tag)
    ensures TextOn(Chunks(o, EncodeParts(s, parts, Encode(s, last) + rest), isNew), s)
      == Actual(o, parts, last, isNew) + TextOn(Chunks(o, rest, true), s)
  {
    if parts == [] {
      ChunkOfEncoded(o, s, last, rest, isNew);
      TextOnCons(Chunk(s, Shown(o, last, isNew)), Chunks(o, rest, true), s);
    } else {
      var more, f := EncodeParts(s, parts[1..], Encode(s, last) + rest), parts[0];
      ChunkOfEncoded(o, s, f, more, isNew);
      TextOnCons(Chunk(s, Shown(o, f, isNew)), Chunks(o, more, f.text == ""), s);
      LineShown(o, s, parts[1..], last, rest, f.text == "");
      Assoc(Shown(o, f, isNew), Actual(o, parts[1..], last, f.text == ""), TextOn(Chunks(o, rest, true), s));
    }
  }

  /** What the viewer prints for a log of one stream. */
  lemma {:induction false} LogShown(o: Options, s: Stream, log: seq<Logical>)
    requires SoundLog(o.stamp, log)
    ensures TextOn(Chunks(o, EncodeLog(s, log), true), s) == ActualLog(o, log)
  {
    if log != [] {
      LineShown(o, s, log[0].parts, log[0].last, EncodeLog(s, log[1..]), true);
      LogShown(o, s, log[1..]);
    }
  }

  // ----- when that is what the container wrote -----

  /** No fragment but the last of a line is empty. */
  predicate Filled(parts: seq<Fragment>) { forall k :: 0 <= k < |parts| ==> parts[k].text != "" }

  predicate FilledLog(log: seq<Logical>) { forall k :: 0 <= k < |log| ==> Filled(log[k].parts) }

  lemma ShownInside(o: Options, f: Fragment)
    requires Sound(o.stamp, f)
    ensures Shown(o, f, false) == if Partial(f.tag) then f.text else f.text + ['\n']
  {
  }

  lemma RestCons(o: Options, parts: seq<Fragment>, last: Fragment)
    requires SoundParts(o.stamp, parts) && Sound(o.stamp, last) && parts != []
    requires !o.timestamps || parts[0].text != ""
    ensures Actual(o, parts, last, false) == parts[0].text + Actual(o, parts[1..], last, false)
  {
    ShownInside(o, parts[0]);
    NewOrNot(o, parts[1..], last);
  }

  /** The rest of a line, without a prefix of its own. */
  lemma {:induction false} RestReassembled(o: Options, parts: seq<Fragment>, last: Fragment)
    requires SoundParts(o.stamp, parts) && Sound(o.stamp, last) && !Partial(last.tag)
    requires !o.timestamps || Filled(parts)
    ensures Actual(o, parts, last, false) == Texts(parts) + (last.text + ['\n'])
  {
    if parts == [] {
      ShownInside(o, last);
      assert "" + (last.text + ['\n']) == last.text + ['\n'];
    } else {
      RestCons(o, parts, last);
      RestReassembled(o, parts[1..], last);
      Assoc(parts[0].text, Texts(parts[1..]), last.text + ['\n']);
    }
  }

  lemma {:induction false} RestLength(o: Options, parts: seq<Fragment>, last: Fragment)
    requires SoundParts(o.stamp, parts) && Sound(o.stamp, last) && !Partial(last.tag)
    ensures |Actual(o, parts, last, false)| >= |Texts(parts)| + |last.text| + 1
    ensures o.timestamps && !Filled(parts) ==> |Actual(o, parts, last, false)| > |Texts(parts)| + |last.text| + 1
  {
    if parts != [] {
      FilledCons(parts);
      RestLength(o, parts[1..], last);
      NewOrNot(o, parts[1..], last);
    }
  }

  lemma FilledCons(parts: seq<Fragment>)
    requires parts != []
    ensures Filled(parts) <==> parts[0].text != "" && Filled(parts[1..])
  {
    if parts[0].text != "" && Filled(parts[1..]) {
      forall k | 0 <= k < |parts| ensures parts[k].text != "" { assert k > 0 ==> parts[k] == parts[1..][k - 1]; }
    }
  }

  /** A prefix is all that tells a line's beginning from its middle. */
  lemma NewOrNot(o: Options, parts: seq<Fragment>, last: Fragment)
    requires SoundParts(o.stamp, parts) && Sound(o.stamp, last)
    ensures var f := if parts == [] then last else parts[0];
      Actual(o, parts, last, true)
        == Prefix(o, Message(o.stamp(f.time).value, Stdout, ""), true) + Actual(o, parts, last, false)
    ensures o.timestamps ==> |Actual(o, parts, last, true)| > |Actual(o, parts, last, false)|
    ensures !o.timestamps ==> Actual(o, parts, last, true) == Actual(o, parts, last, false)
  {
    if parts != [] {
      var f := parts[0];
      var prefix := Prefix(o, Message(o.stamp(f.time).value, Stdout, ""), true);
      Assoc(prefix, f.text, Actual(o, parts[1..], last, f.text == ""));
    }
  }

  lemma LineReassembled(o: Options, l: Logical)
    requires SoundLine(o.stamp, l)
    ensures |Actual(o, l.parts, l.last, true)| >= |Original(o, l)|
    ensures !o.timestamps || Filled(l.parts) ==> Actual(o, l.parts, l.last, true) == Original(o, l)
    ensures o.timestamps && !Filled(l.parts) ==> |Actual(o, l.parts, l.last, true)| > |Original(o, l)|
  {
    NewOrNot(o, l.parts, l.last);
    RestLength(o, l.parts, l.last);
    if !o.timestamps || Filled(l.parts) { RestReassembled(o, l.parts, l.last); }
  }

  lemma {:induction false} LogReassembled(o: Options, log: seq<Logical>)
    requires SoundLog(o.stamp, log)
    ensures |ActualLog(o, log)| >= |OriginalLog(o, log)|
    ensures !o.timestamps || FilledLog(log) ==> ActualLog(o, log) == OriginalLog(o, log)
    ensures o.timestamps && !FilledLog(log) ==> |ActualLog(o, log)| > |OriginalLog(o, log)|
  {
    if log != [] {
      LineReassembled(o, log[0]);
      LogReassembled(o, log[1..]);
      if Filled(log[0].parts) && FilledLog(log[1..]) {
        forall k | 0 <= k < |log| ensures Filled(log[k].parts) { assert k > 0 ==> log[k] == log[1..][k - 1]; }
      }
    }
  }

  /** Reassembly: however a container's lines were cut into fragments, reading the log of one stream
      gives back the original text, with the timestamp once per line if it is asked for. With
      timestamps this is so exactly when no partial fragment is empty; without them it always is. */
  lemma Reassembles(o: Options, s: Stream, log: seq<Logical>)
    requires SoundLog(o.stamp, log)
    ensures TextOn(Chunks(o, EncodeLog(s, log), true), s) == OriginalLog(o, log)
      <==> !o.timestamps || FilledLog(log)
  {
    LogShown(o, s, log);
    LogReassembled(o, log);
  }

  /** Lines as the runtime tags them: `P` on all fragments but the last, which has `F`. */
  predicate Tagged(stamp: string -> Option<string>, l: Logical) {
    && (forall k :: 0 <= k < |l.parts| ==> Sound(stamp, l.parts[k]) && l.parts[k].tag == "P")
    && Sound(stamp, l.last) && l.last.tag == "F"
  }

  predicate TaggedLog(stamp: string -> Option<string>, log: seq<Logical>) {
    forall k :: 0 <= k < |log| ==> Tagged(stamp, log[k])
  }

  lemma TaggedIsSound(stamp: string -> Option<string>, log: seq<Logical>)
    requires TaggedLog(stamp, log)
    ensures SoundLog(stamp, log)
  {
    TagsMean("");
    forall k | 0 <= k < |log| ensures SoundLine(stamp, log[k]) { assert Tagged(stamp, log[k]); }
  }

  /** Reassembly for the tags themselves: fragments with `P` up to one with `F` make a line. */
  lemma TaggedReassembles(o: Options, s: Stream, log: seq<Logical>)
    requires TaggedLog(o.stamp, log)
    ensures SoundLog(o.stamp, log)
    ensures TextOn(Chunks(o, EncodeLog(s, log), true), s) == OriginalLog(o, log) <==> !o.timestamps || FilledLog(log)
  {
    TaggedIsSound(o.stamp, log);
    Reassembles(o, s, log);
  }

  // ----- lines of any kind -----

  /** Four fields with single spaces between them, and what each must be. */
  lemma FourFieldsParse(stamp: string -> Option<string>, time: string, name: string, tag: string, rest: string)
    requires ' ' !in time && ' ' !in name && ' ' !in tag
    ensures ParseLine(stamp, time + " " + (name + " " + (tag + " " + rest))) ==
      if stamp(time).None? || (name != "stdout" && name != "stderr") then None
      else Some(Message(stamp(time).value, if name == "stdout" then Stdout else Stderr, Content(tag, rest)))
  {
    var third := tag + [' '] + rest;
    var second := name + [' '] + third;
    assert third == tag + " " + rest && second == name + " " + (tag + " " + rest);
    assert time + [' '] + second == time + " " + (name + " " + (tag + " " + rest));
    CutAt(tag, ' ', rest);
    CutAt(name, ' ', third);
    CutAt(time, ' ', second);
  }

  /** Fewer than four fields are no log line. */
  lemma FewerFieldsRefused(stamp: string -> Option<string>, time: string, name: string, tag: string)
    requires ' ' !in time && ' ' !in name && ' ' !in tag
    ensures ParseLine(stamp, time).None?
    ensures ParseLine(stamp, time + " " + name).None?
    ensures ParseLine(stamp, time + " " + (name + " " + tag)).None?
  {
    var second := name + [' '] + tag;
    assert second == name + " " + tag && time + [' '] + second == time + " " + (name + " " + tag);
    assert time + [' '] + name == time + " " + name;
    CutAt(name, ' ', tag);
    CutAt(time, ' ', name);
    CutAt(time, ' ', second);
  }

  /** What a fragment of a line keeps: a partial one everything but the newline, any other one everything. */
  lemma ContentText(tag: string, text: string)
    ensures Content(tag, text + "\n") == if Partial(tag) then text else text + "\n"
    ensures (text == "" || text[|text| - 1] != '\n') ==> Content(tag, text) == text
  {
    assert (text + "\n")[..|text|] == text;
  }

  /** A line that does not parse is passed over, wherever it stands: what is shown is what is shown without
      it. An empty line is one. */
  lemma UnparsedSkipped(o: Options, line: string, rest: string, isNew: bool)
    requires '\n' !in line && ParseLine(o.stamp, line + "\n").None?
    ensures Chunks(o, line + "\n" + rest, isNew) == Chunks(o, rest, isNew)
  {
    var text := line + ['\n'] + rest;
    assert text == line + "\n" + rest;
    IndexAfterPrefix(line, '\n', rest);
    assert text[..|line| + 1] == line + "\n" && text[|line| + 1..] == rest;
  }

  // ----- the limits -----

  /** Never more than the limit is written, and less only if there is no more. */
  lemma {:induction false} FitSize(chunks: seq<Chunk>, n: nat)
    ensures Size(Fit(chunks, n)) == if Size(chunks) <= n then Size(chunks) else n
  {
    if chunks != [] && n > 0 {
      if |chunks[0].text| <= n {
        FitSize(chunks[1..], n - |chunks[0].text|);
        var rest := Fit(chunks[1..], n - |chunks[0].text|);
        assert ([chunks[0]] + rest)[1..] == rest;
      } else {
        assert Fit(chunks, n)[1..] == [];
      }
    }
  }

  lemma TextOnOne(c: Chunk, s: Stream)
    ensures TextOn([c], s) == if c.stream == s then c.text else ""
  {
    TextOnCons(c, [], s);
    assert [c] + [] == [c];
  }

  lemma PrefixAfter(a: string, b: string, c: string)
    requires b <= c
    ensures a + b <= a + c
  {
  }

  /** And what is written on a stream is the beginning of what there is for it. */
  lemma {:induction false} FitIsPrefix(chunks: seq<Chunk>, n: nat, s: Stream)
    ensures TextOn(Fit(chunks, n), s) <= TextOn(chunks, s)
  {
    if chunks != [] && n > 0 {
      var c := chunks[0];
      if |c.text| <= n {
        var rest := Fit(chunks[1..], n - |c.text|);
        FitIsPrefix(chunks[1..], n - |c.text|, s);
        TextOnCons(c, rest, s);
        PrefixAfter(if c.stream == s then c.text else "", TextOn(rest, s), TextOn(chunks[1..], s));
      } else {
        var cut := c.(text := c.text[..n]);
        TextOnOne(cut, s);
        assert Fit(chunks, n) == [cut];
      }
    }
  }

  // ----- two streams in one log -----

  /** A line of the log: which stream wrote which fragment. */
  datatype Entry = Entry(stream: Stream, fragment: Fragment)

  predicate SoundEntries(stamp: string -> Option<string>, entries: seq<Entry>) {
    forall k :: 0 <= k < |entries| ==> Sound(stamp, entries[k].fragment)
  }

  function EncodeEntries(entries: seq<Entry>): string {
    if entries == [] then "" else Encode(entries[0].stream, entries[0].fragment) + EncodeEntries(entries[1..])
  }

  /** Whether the next fragment starts a line. */
  predicate Ends(f: Fragment) { !Partial(f.tag) || f.text == "" }

  /** For each stream, whether it is at the start of a line. */
  datatype Starts = Starts(out: bool, err: bool) {
    predicate At(s: Stream) { if s == Stdout then out else err }

    function Next(e: Entry): Starts {
      if e.stream == Stdout then Starts(Ends(e.fragment), err) else Starts(out, Ends(e.fragment))
    }
  }

  /** What is written when each stream keeps its own line state. */
  function OwnChunks(o: Options, entries: seq<Entry>, own: Starts): seq<Chunk>
    requires SoundEntries(o.stamp, entries)
  {
    if entries == [] then []
    else
      var e := entries[0];
      [Chunk(e.stream, Shown(o, e.fragment, own.At(e.stream)))] + OwnChunks(o, entries[1..], own.Next(e))
  }

  /** At every entry the one line state of the code is that of the entry's own stream. */
  predicate InStep(entries: seq<Entry>, isNew: bool, own: Starts) {
    entries == []
    || (isNew == own.At(entries[0].stream)
        && InStep(entries[1..], Ends(entries[0].fragment), own.Next(entries[0])))
  }

  lemma ShownDiffers(o: Options, f: Fragment, a: bool, b: bool)
    requires Sound(o.stamp, f)
    ensures Shown(o, f, a) == Shown(o, f, b) <==> !o.timestamps || a == b
  {
    assert o.timestamps && a != b ==> |Shown(o, f, a)| != |Shown(o, f, b)|;
  }

  lemma HeadAndRest<T>(x: T, s: seq<T>, y: T, t: seq<T>)
    ensures [x] + s == [y] + t <==> x == y && s == t
  {
    assert ([x] + s)[1..] == s && ([y] + t)[1..] == t;
    assert ([x] + s)[0] == x && ([y] + t)[0] == y;
  }

  lemma {:induction false} SharedOrOwn(o: Options, entries: seq<Entry>, isNew: bool, own: Starts)
    requires SoundEntries(o.stamp, entries)
    ensures Chunks(o, EncodeEntries(entries), isNew) == OwnChunks(o, entries, own)
      <==> !o.timestamps || InStep(entries, isNew, own)
  {
    if entries != [] {
      var e, rest := entries[0], entries[1..];
      ChunkOfEncoded(o, e.stream, e.fragment, EncodeEntries(rest), isNew);
      SharedOrOwn(o, rest, Ends(e.fragment), own.Next(e));
      ShownDiffers(o, e.fragment, isNew, own.At(e.stream));
      HeadAndRest(Chunk(e.stream, Shown(o, e.fragment, isNew)), Chunks(o, EncodeEntries(rest), Ends(e.fragment)),
                  Chunk(e.stream, Shown(o, e.fragment, own.At(e.stream))), OwnChunks(o, rest, own.Next(e)));
    }
  }

  /** Two streams in one log share a single line state. Each is printed as if it kept its own exactly
      when timestamps are off, or at every entry the shared state is that of the entry's stream. */
  lemma StreamsKeepApart(o: Options, entries: seq<Entry>)
    requires SoundEntries(o.stamp, entries)
    ensures Chunks(o, EncodeEntries(entries), true) == OwnChunks(o, entries, Starts(true, true))
      <==> !o.timestamps || InStep(entries, true, Starts(true, true))
  {
    SharedOrOwn(o, entries, true, Starts(true, true));
  }

  function Only(entries: seq<Entry>, s: Stream): seq<Entry> {
    if entries == [] then []
    else (if entries[0].stream == s then [entries[0]] else []) + Only(entries[1..], s)
  }

  lemma {:induction false} OnlySound(stamp: string -> Option<string>, entries: seq<Entry>, s: Stream)
    requires SoundEntries(stamp, entries)
    ensures SoundEntries(stamp, Only(entries, s))
  {
    if entries != [] { OnlySound(stamp, entries[1..], s); }
  }

  /** With line states of their own each stream's text is what a log of that stream alone would show. */
  lemma {:induction false} OwnIsAlone(o: Options, entries: seq<Entry>, own: Starts, s: Stream)
    requires SoundEntries(o.stamp, entries)
    ensures TextOn(OwnChunks(o, entries, own), s) == TextOn(Chunks(o, EncodeEntries(Only(entries, s)), own.At(s)), s)
  {
    if entries != [] {
      var e, rest := entries[0], entries[1..];
      var chunk := Chunk(e.stream, Shown(o, e.fragment, own.At(e.stream)));
      TextOnCons(chunk, OwnChunks(o, rest, own.Next(e)), s);
      OwnIsAlone(o, rest, own.Next(e), s);
      if e.stream == s {
        ChunkOfEncoded(o, s, e.fragment, EncodeEntries(Only(rest, s)), own.At(s));
        TextOnCons(chunk, Chunks(o, EncodeEntries(Only(rest, s)), Ends(e.fragment)), s);
        assert ([e] + Only(rest, s))[1..] == Only(rest, s);
      } else {
        assert [] + Only(rest, s) == Only(rest, s);
        assert "" + TextOn(OwnChunks(o, rest, own.Next(e)), s) == TextOn(OwnChunks(o, rest, own.Next(e)), s);
      }
    }
  }

  /** An instance of streams out of step: a line of one that starts inside a line of the other
      is printed without its timestamp. */
  lemma StreamsShareLines(o: Options, f: Fragment, g: Fragment)
    requires Sound(o.stamp, f) && Sound(o.stamp, g) && Partial(f.tag) && f.text != "" && !Partial(g.tag)
    ensures TextOn(Chunks(o, Encode(Stdout, f) + (Encode(Stderr, g) + ""), true), Stderr) == g.text + ['\n']
  {
    ChunkOfEncoded(o, Stdout, f, Encode(Stderr, g) + "", true);
    ChunkOfEncoded(o, Stderr, g, "", false);
    TextOnCons(Chunk(Stdout, Shown(o, f, true)), Chunks(o, Encode(Stderr, g) + "", false), Stderr);
    TextOnCons(Chunk(Stderr, Shown(o, g, false)), Chunks(o, "", true), Stderr);
  }

  // ----- the code -----

  /** The text up to the next delimiter, and what follows it. */
  method NextField(log: string) returns (found: bool, field: string, rest: string)
    ensures found <==> ' ' in log
    ensures found ==> field == Before(log, ' ') && rest == After(log, ' ')
  {
    Absent(log);
    var idx := IndexOf(log, ' ');
    if idx < 0 { return false, "", ""; }
    return true, log[..idx], log[idx + 1..];
  }

  method ParseContent(time: string, stream: Stream, given: string) returns (m: Option<Message>)
    ensures m == ParseTag(time, stream, given)
  {
    var log := given;
    var idx := IndexOf(log, ' ');
    Absent(log);
    if idx < 0 { return None; }
    Trimmed(log, idx);
    var tags := Split(log[..idx], ':');
    if tags[0] == "P" && |log| > 0 && log[|log| - 1] == '\n' {
      log := log[..|log| - 1];
    }
    m := Some(Message(time, stream, log[idx + 1..]));
  }

  /** `ParseCRILog`. */
  method ParseCRILog(stamp: string -> Option<string>, line: string) returns (m: Option<Message>)
    ensures m == ParseLine(stamp, line)
  {
    var found, field, log := NextField(line);
    if !found { return None; }
    var time := stamp(field);
    if time.None? { return None; }
    found, field, log := NextField(log);
    if !found { return None; }
    var stream := StreamOf(field);
    if stream.None? { return None; }
    m := ParseContent(time.value, stream.value, log);
  }

  lemma Absent(s: string)
    ensures IndexOf(s, ' ') < 0 <==> ' ' !in s
    ensures var i := IndexOf(s, ' '); i >= 0 ==> s[i] == ' ' && Before(s, ' ') == s[..i] && After(s, ' ') == s[i + 1..]
  {
    IndexOfFirst(s, ' ');
  }

  /** Trimming the newline before or after taking the text is the same. */
  lemma Trimmed(log: string, idx: int)
    requires 0 <= idx < |log| && log[idx] == ' '
    ensures var rest := log[idx + 1..];
      (rest != "" && rest[|rest| - 1] == '\n' <==> log[|log| - 1] == '\n')
      && (log[|log| - 1] == '\n' ==> log[..|log| - 1][idx + 1..] == rest[..|rest| - 1])
  {
  }

  class LogWriter {
    const opts: Options
    var stdout: string
    var stderr: string
    var remain: int

    constructor (opts: Options)
      ensures this.opts == opts && stdout == "" && stderr == "" && remain == UNLIMITED
    {
      this.opts, stdout, stderr, remain := opts, "", "", UNLIMITED;
    }

    function On(s: Stream): string
      reads this
    {
      if s == Stdout then stdout else stderr
    }

    /** `write`; true is the error for having reached the limit. */
    method Write(m: Message, addPrefix: bool) returns (full: bool)
      requires remain > 0
      modifies this
      ensures var cut := Cut(Prefix(opts, m, addPrefix) + m.text, old(remain));
        && stdout == old(stdout) + (if m.stream == Stdout then cut else "")
        && stderr == old(stderr) + (if m.stream == Stderr then cut else "")
        && remain == old(remain) - |cut| && remain >= 0
      ensures full <==> remain <= 0
    {
      var line := m.text;
      if opts.timestamps && addPrefix { line := (m.stamp + [' ']) + line; }
      assert line == Prefix(opts, m, addPrefix) + m.text;
      if |line| > remain { line := line[..remain]; }
      match m.stream {
        case Stdout => stdout := stdout + line;
        case Stderr => stderr := stderr + line;
      }
      remain := remain - |line|;
      full := remain <= 0;
    }

    /** What has been written, and `more` in the room that is left, make up `all`. */
    ghost predicate Due(all: seq<Chunk>, more: seq<Chunk>)
      reads this
    {
      && remain >= 0
      && Progress(all, Stdout, stdout, more, remain)
      && Progress(all, Stderr, stderr, more, remain)
    }

    lemma DueEnd(all: seq<Chunk>, more: seq<Chunk>)
      requires Due(all, more) && (more == [] || remain == 0)
      ensures stdout == TextOn(Fit(all, UNLIMITED), Stdout) && stderr == TextOn(Fit(all, UNLIMITED), Stderr)
    {
    }

    /** A write as a step of reading: the message is the first of what is due. */
    method WriteNext(m: Message, isNew: bool, ghost all: seq<Chunk>, ghost next: seq<Chunk>) returns (full: bool)
      requires remain > 0 && Due(all, [ChunkOf(opts, m, isNew)] + next)
      modifies this
      ensures Due(all, next) && (full <==> remain <= 0)
    {
      ghost var c, room, out, err := ChunkOf(opts, m, isNew), remain, stdout, stderr;
      full := Write(m, isNew);
      ProgressStep(all, Stdout, out, stdout, c, next, room);
      ProgressStep(all, Stderr, err, stderr, c, next, room);
    }
  }

  /** What has been written and what is still to come make up the whole. */
  ghost predicate Progress(all: seq<Chunk>, s: Stream, written: string, more: seq<Chunk>, remain: nat) {
    TextOn(Fit(all, UNLIMITED), s) == written + TextOn(Fit(more, remain), s)
  }

  function Cut(text: string, n: nat): string { if |text| > n then text[..n] else text }

  /** One written line, and the rest in the room that is left. */
  lemma FitStep(c: Chunk, rest: seq<Chunk>, n: nat, s: Stream)
    requires n > 0
    ensures TextOn(Fit([c] + rest, n), s)
      == (if c.stream == s then Cut(c.text, n) else "") + TextOn(Fit(rest, n - |Cut(c.text, n)|), s)
  {
    assert ([c] + rest)[1..] == rest;
    if |c.text| > n {
      assert Fit([c] + rest, n) == [c.(text := c.text[..n])];
    } else {
      TextOnCons(c, Fit(rest, n - |c.text|), s);
    }
  }

  lemma ProgressStep(all: seq<Chunk>, s: Stream, before: string, after: string, c: Chunk, more: seq<Chunk>, remain: nat)
    requires Progress(all, s, before, [c] + more, remain) && remain > 0
    requires after == before + if c.stream == s then Cut(c.text, remain) else ""
    ensures Progress(all, s, after, more, remain - |Cut(c.text, remain)|)
  {
    FitStep(c, more, remain, s);
    var cut := if c.stream == s then Cut(c.text, remain) else "";
    Assoc(before, cut, TextOn(Fit(more, remain - |Cut(c.text, remain)|), s));
  }

  lemma TakenStep(limited: bool, left: nat, c: Chunk, more: seq<Chunk>)
    requires limited ==> left > 0
    ensures Taken(limited, left, [c] + more) == [c] + Taken(limited, if limited then left - 1 else left, more)
  {
  }

  lemma ChunksStep(o: Options, rest: string, isNew: bool)
    requires rest != ""
    ensures match ParseLine(o.stamp, LineOf(rest))
            case None => Chunks(o, rest, isNew) == Chunks(o, rest[|LineOf(rest)|..], isNew)
            case Some(m) =>
              Chunks(o, rest, isNew) == [ChunkOf(o, m, isNew)] + Chunks(o, rest[|LineOf(rest)|..], EndsLine(m.text))
  {
  }

  /** What is still to be written when `left` lines may be. */
  ghost function Remaining(o: Options, limited: bool, left: nat, rest: string, isNew: bool): seq<Chunk> {
    Taken(limited, left, Chunks(o, rest, isNew))
  }

  /** Reading and parsing one line. */
  method ReadMessage(o: Options, given: string, ghost isNew: bool, limited: bool, left: nat)
    returns (m: Option<Message>, rest: string)
    requires given != "" && (limited ==> left > 0)
    ensures |rest| < |given| && (IndexOf(given, '\n') < 0 ==> rest == "")
    ensures m.None? ==> Remaining(o, limited, left, given, isNew) == Remaining(o, limited, left, rest, isNew)
    ensures m.Some? ==>
      Remaining(o, limited, left, given, isNew)
        == [ChunkOf(o, m.value, isNew)]
           + Remaining(o, limited, if limited then left - 1 else left, rest, EndsLine(m.value.text))
  {
    var line := LineOf(given);
    rest := given[|line|..];
    m := ParseCRILog(o.stamp, line);
    ChunksStep(o, given, isNew);
    if m.Some? { TakenStep(limited, left, ChunkOf(o, m.value, isNew), Chunks(o, rest, EndsLine(m.value.text))); }
  }

  /** `ReadLogs` without following, from where the tail search has set the file to; `tail` is the
      number of lines asked for, or 0. */
  method ReadLogs(o: Options, log: string, tail: nat) returns (w: LogWriter)
    ensures fresh(w)
    ensures var all := Chunks(o, log, true);
      var chunks := Fit(if tail > 0 && tail < |all| then all[..tail] else all, 0x7FFF_FFFF_FFFF_FFFF);
      w.stdout == TextOn(chunks, Stdout) && w.stderr == TextOn(chunks, Stderr)
  {
    w := ReadAll(o, log, tail);
  }

  /** The loop over the lines. */
  method ReadAll(o: Options, log: string, tail: nat) returns (w: LogWriter)
    ensures fresh(w)
    ensures var chunks := Fit(Remaining(o, tail > 0, tail, log, true), UNLIMITED);
      w.stdout == TextOn(chunks, Stdout) && w.stderr == TextOn(chunks, Stderr)
  {
    w := new LogWriter(o);
    var rest, stop, isNew, left := log, false, true, tail;
    ghost var all := Remaining(o, tail > 0, tail, log, true);
    ghost var more := all;
    while !(stop || (tail > 0 && left == 0))
      invariant fresh(w) && w.opts == o && w.remain > 0
      invariant stop ==> rest == ""
      invariant more == Remaining(o, tail > 0, left, rest, isNew)
      invariant w.Due(all, more)
      decreases |rest|, !stop
    {
      if IndexOf(rest, '\n') < 0 { stop := true; }
      if rest == "" { continue; }
      var m, unread := ReadMessage(o, rest, isNew, tail > 0, left);
      rest := unread;
      if m.None? { continue; }
      if tail > 0 { left := left - 1; }
      more := Remaining(o, tail > 0, left, rest, EndsLine(m.value.text));
      var full := w.WriteNext(m.value, isNew, all, more);
      if full { break; }
      isNew := if |m.value.text| > 0 then m.value.text[|m.value.text| - 1] == '\n' else true;
    }
    w.DueEnd(all, more);
  }
}

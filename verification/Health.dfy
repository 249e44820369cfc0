/** Health checking: the status kept for a container, the log of its probes, and what inspecting it
    shows. */
module Health {
  import opened Strings

  datatype Status = Starting | Healthy | Unhealthy

  datatype State = State(status: Status, streak: nat)

  /** `start` is counted from the container's creation. */
  datatype Probe = Probe(start: int, exitCode: int, output: string)

  datatype Config = Config(retries: int, startPeriod: int)

  const MAX_LOG_ENTRIES: nat := 5
  const MAX_OUTPUT_FOR_INSPECT: nat := 4096
  const MARK: string := "... [truncated]"

  // ----- the status over a history of probes -----

  predicate Passed(p: Probe) { p.exitCode == 0 }

  /** A failure counts once the start period is over. */
  predicate Counts(c: Config, p: Probe) { !Passed(p) && p.start >= c.startPeriod }

  /** The probes since the last one that passed. */
  function SincePass(history: seq<Probe>): seq<Probe> {
    if history == [] || Passed(history[|history| - 1]) then []
    else SincePass(history[..|history| - 1]) + [history[|history| - 1]]
  }

  function Failures(c: Config, probes: seq<Probe>): nat {
    if probes == [] then 0 else (if Counts(c, probes[0]) then 1 else 0) + Failures(c, probes[1..])
  }

  /** The failures it takes; even without retries it takes one. */
  function Tolerated(c: Config): nat { if c.retries < 1 then 1 else c.retries }

  predicate EverPassed(history: seq<Probe>) { exists i :: 0 <= i < |history| && Passed(history[i]) }

  /** The state promised for a history. */
  ghost function Promised(c: Config, history: seq<Probe>): State {
    var failures := Failures(c, SincePass(history));
    State(if failures >= Tolerated(c) then Unhealthy else if EverPassed(history) then Healthy else Starting, failures)
  }

  /** What one probe does to the state. */
  function Next(c: Config, s: State, p: Probe): State {
    if Passed(p) then State(Healthy, 0)
    else if p.start < c.startPeriod then s
    else State(if s.streak + 1 >= c.retries then Unhealthy else s.status, s.streak + 1)
  }

  function StateAfter(c: Config, history: seq<Probe>): State {
    if history == [] then State(Starting, 0)
    else Next(c, StateAfter(c, history[..|history| - 1]), history[|history| - 1])
  }

  lemma {:induction false} FailuresSnoc(c: Config, probes: seq<Probe>, p: Probe)
    ensures Failures(c, probes + [p]) == Failures(c, probes) + if Counts(c, p) then 1 else 0
  {
    if probes == [] {
      assert probes + [p] == [p];
    } else {
      FailuresSnoc(c, probes[1..], p);
      assert (probes + [p])[1..] == probes[1..] + [p];
    }
  }

  lemma EverPassedSnoc(history: seq<Probe>)
    requires history != []
    ensures EverPassed(history) <==> EverPassed(history[..|history| - 1]) || Passed(history[|history| - 1])
  {
    var n := |history| - 1;
    if i :| 0 <= i < n && Passed(history[..n][i]) { assert Passed(history[i]); }
    if i :| 0 <= i < |history| && Passed(history[i]) { assert i < n ==> history[..n][i] == history[i]; }
  }

  /** Over every history of probes the streak is the number of failures outside the start period since
      the last pass, and the container is unhealthy exactly when that number is reached that it takes. */
  lemma {:induction false} StatusAsPromised(c: Config, history: seq<Probe>)
    ensures StateAfter(c, history) == Promised(c, history)
  {
    if history != [] {
      var n := |history| - 1;
      StatusAsPromised(c, history[..n]);
      EverPassedSnoc(history);
      FailuresSnoc(c, SincePass(history[..n]), history[n]);
    }
  }

  /** A probe that exits with zero makes the container healthy, whatever came before. */
  lemma PassHeals(c: Config, history: seq<Probe>, p: Probe)
    requires p.exitCode == 0
    ensures StateAfter(c, history + [p]) == State(Healthy, 0)
  {
    assert (history + [p])[..|history|] == history;
  }

  /** Failures in the start period change nothing, whatever came before. */
  lemma {:induction false} EarlyFailuresIgnored(c: Config, history: seq<Probe>, early: seq<Probe>)
    requires forall i :: 0 <= i < |early| ==> early[i].exitCode != 0 && early[i].start < c.startPeriod
    ensures StateAfter(c, history + early) == StateAfter(c, history)
  {
    if early == [] {
      assert history + early == history;
    } else {
      var n := |early| - 1;
      EarlyFailuresIgnored(c, history, early[..n]);
      assert (history + early)[..|history| + n] == history + early[..n];
    }
  }

  /** After a pass, failures outside the start period are counted, and make the container unhealthy exactly
      when there are as many as the configured retries, or one if there are to be none. */
  lemma {:induction false} FailuresAfterPass(c: Config, history: seq<Probe>, pass: Probe, failed: seq<Probe>)
    requires pass.exitCode == 0
    requires forall i :: 0 <= i < |failed| ==> failed[i].exitCode != 0 && failed[i].start >= c.startPeriod
    ensures StateAfter(c, history + [pass] + failed)
      == State(if failed != [] && |failed| >= c.retries then Unhealthy else Healthy, |failed|)
  {
    if failed == [] {
      PassHeals(c, history, pass);
      assert history + [pass] + failed == history + [pass];
    } else {
      var n := |failed| - 1;
      FailuresAfterPass(c, history, pass, failed[..n]);
      assert (history + [pass] + failed)[..|history| + 1 + n] == history + [pass] + failed[..n];
    }
  }

  // ----- the log -----

  /** How a result is written as one line, and read again; JSON in the source. */
  datatype Codec = Codec(encode: Probe -> string, decode: string -> Option<Probe>)

  /** The codec gives the probe back and does not break the line. */
  predicate Faithful(codec: Codec, p: Probe) {
    codec.decode(codec.encode(p)) == Some(p) && '\n' !in codec.encode(p)
  }

  predicate AllFaithful(codec: Codec, probes: seq<Probe>) {
    forall i :: 0 <= i < |probes| ==> Faithful(codec, probes[i])
  }

  function LogText(codec: Codec, probes: seq<Probe>): string {
    if probes == [] then ""
    else LogText(codec, probes[..|probes| - 1]) + (codec.encode(probes[|probes| - 1]) + ['\n'])
  }

  /** Complete lines that decode, in order; an incomplete last line is not read. */
  function Decoded(codec: Codec, text: string): seq<Probe>
    decreases |text|
  {
    var i := IndexOf(text, '\n');
    if i < 0 then []
    else
      var p := codec.decode(text[..i]);
      (if p.Some? then [p.value] else []) + Decoded(codec, text[i + 1..])
  }

  lemma DecodedHead(codec: Codec, line: string, rest: string)
    requires '\n' !in line
    ensures Decoded(codec, line + ['\n'] + rest)
      == (if codec.decode(line).Some? then [codec.decode(line).value] else []) + Decoded(codec, rest)
  {
    IndexAfterPrefix(line, '\n', rest);
    var text := line + ['\n'] + rest;
    assert text[..|line|] == line && text[|line| + 1..] == rest;
  }

  lemma {:induction false} DecodedAppend(codec: Codec, probes: seq<Probe>, rest: string)
    requires AllFaithful(codec, probes)
    ensures Decoded(codec, LogText(codec, probes) + rest) == probes + Decoded(codec, rest)
  {
    if probes == [] {
      assert "" + rest == rest;
    } else {
      var n := |probes| - 1;
      var line := codec.encode(probes[n]);
      assert Faithful(codec, probes[n]);
      DecodedHead(codec, line, rest);
      DecodedAppend(codec, probes[..n], line + ['\n'] + rest);
      Assoc(LogText(codec, probes[..n]), line + ['\n'], rest);
      Assoc(probes[..n], [probes[n]], Decoded(codec, rest));
      assert probes[..n] + [probes[n]] == probes;
    }
  }

  /** Reading the log gives back every result that was written, in order, and ignores the beginning of
      a line still being written. */
  lemma LogReadsBack(codec: Codec, probes: seq<Probe>, torn: string)
    requires AllFaithful(codec, probes) && '\n' !in torn
    ensures Decoded(codec, LogText(codec, probes) + torn) == probes
  {
    DecodedAppend(codec, probes, torn);
    IndexOfFirst(torn, '\n');
  }

  // ----- the output buffer -----

  function Concat(writes: seq<string>): string {
    if writes == [] then "" else Concat(writes[..|writes| - 1]) + writes[|writes| - 1]
  }

  function Kept(text: string, max: nat): string { if |text| > max then text[..max] else text }

  /** A write came when the buffer was full, or did not fit. */
  predicate Overflows(writes: seq<string>, max: nat) {
    writes != [] && (
      || Overflows(writes[..|writes| - 1], max)
      || |Concat(writes[..|writes| - 1])| >= max
      || |Concat(writes)| > max)
  }

  predicate NoEmptyWrite(writes: seq<string>) { forall i :: 0 <= i < |writes| ==> writes[i] != "" }

  /** Short of empty writes, the buffer reports a truncation exactly when something was lost. */
  lemma {:induction false} OverflowIsLoss(writes: seq<string>, max: nat)
    ensures |Concat(writes)| > max ==> Overflows(writes, max)
    ensures NoEmptyWrite(writes) ==> (Overflows(writes, max) <==> |Concat(writes)| > max)
  {
    if writes != [] { OverflowIsLoss(writes[..|writes| - 1], max); }
  }

  /** In general it reports one exactly when something was lost or a write came while it was full. */
  lemma {:induction false} OverflowExactly(writes: seq<string>, max: nat)
    ensures Overflows(writes, max) <==>
      |Concat(writes)| > max || exists i :: 0 <= i < |writes| && |Concat(writes[..i])| >= max
  {
    if writes != [] {
      var n := |writes| - 1;
      OverflowExactly(writes[..n], max);
      if i :| 0 <= i < n && |Concat(writes[..n][..i])| >= max { assert writes[..n][..i] == writes[..i]; }
      if i :| 0 <= i < |writes| && |Concat(writes[..i])| >= max {
        assert i < n ==> writes[..n][..i] == writes[..i];
        assert i == n ==> writes[..i] == writes[..n];
      }
    }
  }

  class ResizableBuffer {
    const maxSize: nat
    var buf: string
    var truncated: bool
    ghost var writes: seq<string>

    ghost predicate Valid()
      reads this
    {
      buf == Kept(Concat(writes), maxSize) && (truncated <==> Overflows(writes, maxSize))
    }

    constructor (maxSize: nat)
      ensures Valid() && this.maxSize == maxSize && writes == []
    {
      this.maxSize, buf, truncated, writes := maxSize, "", false, [];
    }

    /** The number of bytes reported as written. */
    method Write(p: string) returns (n: nat)
      requires Valid()
      modifies this
      ensures Valid() && writes == old(writes) + [p]
      ensures n == if old(|buf|) >= maxSize then |p| else |buf| - old(|buf|)
    {
      ghost var before := Concat(writes);
      writes := writes + [p];
      assert writes[..|writes| - 1] == old(writes);
      KeptMore(before, p, maxSize);
      var remaining := maxSize - |buf|;
      if remaining <= 0 {
        truncated := true;
        return |p|;
      }
      var q := p;
      if |q| > remaining {
        truncated := true;
        q := q[..remaining];
      }
      buf := buf + q;
      n := |q|;
    }

    method String() returns (s: string)
      requires Valid()
      ensures s == Kept(Concat(writes), maxSize) + if Overflows(writes, maxSize) then MARK else ""
    {
      s := buf;
      if truncated { s := s + MARK; } else { s := s + ""; }
    }
  }

  lemma KeptMore(a: string, p: string, max: nat)
    ensures Kept(a + p, max)
      == if |a| >= max then Kept(a, max) else a + if |p| > max - |a| then p[..max - |a|] else p
  {
    if |a| < max && |p| > max - |a| { assert (a + p)[..max] == a + p[..max - |a|]; }
    if |a| >= max { assert (a + p)[..max] == a[..max]; }
  }

  // ----- inspecting -----

  function Shortened(p: Probe): Probe {
    if |p.output| > MAX_OUTPUT_FOR_INSPECT then p.(output := p.output[..MAX_OUTPUT_FOR_INSPECT] + MARK) else p
  }

  function Min(a: nat, b: nat): nat { if a < b then a else b }

  /** The last five results, newest first, with long outputs cut. */
  predicate Inspected(probes: seq<Probe>, shown: seq<Probe>) {
    && |shown| == Min(MAX_LOG_ENTRIES, |probes|)
    && forall k :: 0 <= k < |shown| ==> shown[k] == Shortened(probes[|probes| - 1 - k])
  }

  /** `Inspected` says all there is to say about what is shown. */
  lemma InspectedIsUnique(probes: seq<Probe>, a: seq<Probe>, b: seq<Probe>)
    requires Inspected(probes, a) && Inspected(probes, b)
    ensures a == b
  {
  }

  /** The numbers themselves: five results, and 4096 bytes of output each. */
  lemma ShownOutput(probes: seq<Probe>, shown: seq<Probe>, k: nat)
    requires Inspected(probes, shown) && k < |shown|
    ensures |shown| == if |probes| < 5 then |probes| else 5
    ensures var p := probes[|probes| - 1 - k];
      && shown[k].start == p.start && shown[k].exitCode == p.exitCode
      && shown[k].output == if |p.output| <= 4096 then p.output else p.output[..4096] + "... [truncated]"
  {
    assert shown[k] == Shortened(probes[|probes| - 1 - k]);
  }

  method ReadLog(codec: Codec, text: string) returns (logs: seq<Probe>)
    ensures logs == Decoded(codec, text)
  {
    logs := [];
    var rest := text;
    while IndexOf(rest, '\n') >= 0
      invariant logs + Decoded(codec, rest) == Decoded(codec, text)
      decreases |rest|
    {
      var i := IndexOf(rest, '\n');
      var p := codec.decode(rest[..i]);
      Assoc(logs, if p.Some? then [p.value] else [], Decoded(codec, rest[i + 1..]));
      rest := rest[i + 1..];
      if p.None? {
        assert logs + [] == logs;
        continue;
      }
      logs := logs + [p.value];
    }
  }

  predicate Mirrored(before: seq<Probe>, after: seq<Probe>) {
    |after| == |before| && forall k :: 0 <= k < |after| ==> after[k] == before[|before| - 1 - k]
  }

  predicate EachShortened(before: seq<Probe>, after: seq<Probe>) {
    |after| == |before| && forall k :: 0 <= k < |after| ==> after[k] == Shortened(before[k])
  }

  /** The last five. */
  function Recent(all: seq<Probe>): seq<Probe> {
    if |all| > MAX_LOG_ENTRIES then all[|all| - MAX_LOG_ENTRIES..] else all
  }

  lemma InspectedSteps(all: seq<Probe>, reversed: seq<Probe>, shown: seq<Probe>)
    requires Mirrored(Recent(all), reversed) && EachShortened(reversed, shown)
    ensures Inspected(all, shown)
  {
    forall k | 0 <= k < |shown| ensures shown[k] == Shortened(all[|all| - 1 - k]) {
      assert reversed[k] == Recent(all)[|Recent(all)| - 1 - k];
    }
  }

  /** The first and the last `i` entries have changed places. */
  predicate Turned(before: seq<Probe>, now: seq<Probe>, i: nat) {
    && |now| == |before|
    && forall k {:trigger now[k]} :: 0 <= k < |now| ==>
      now[k] == if k < i || k >= |before| - i then before[|before| - 1 - k] else before[k]
  }

  lemma TurnStep(before: seq<Probe>, now: seq<Probe>, i: nat)
    requires Turned(before, now, i) && i < |now| - 1 - i
    ensures Turned(before, now[i := now[|now| - 1 - i]][|now| - 1 - i := now[i]], i + 1)
  {
    var j := |now| - 1 - i;
    assert now[i] == before[i] && now[j] == before[j];
    var next := now[i := now[j]][j := now[i]];
    forall k | 0 <= k < |next|
      ensures next[k] == if k < i + 1 || k >= |before| - (i + 1) then before[|before| - 1 - k] else before[k]
    {
      assert k != i && k != j ==> next[k] == now[k];
    }
  }

  lemma TurnEnd(before: seq<Probe>, now: seq<Probe>, i: nat)
    requires Turned(before, now, i) && i >= |now| - 1 - i
    ensures Mirrored(before, now)
  {
  }

  /** The reversal in place, from both ends to the middle. */
  method ReverseLogs(logs: array<Probe>)
    modifies logs
    ensures Mirrored(old(logs[..]), logs[..])
  {
    var i, j := 0, logs.Length - 1;
    ghost var before := logs[..];
    while i < j
      invariant 0 <= i && i + j == logs.Length - 1
      invariant Turned(before, logs[..], i)
    {
      TurnStep(before, logs[..], i);
      ghost var now := logs[..];
      logs[i], logs[j] := logs[j], logs[i];
      assert logs[..] == now[i := now[j]][j := now[i]];
      i, j := i + 1, j - 1;
    }
    TurnEnd(before, logs[..], i);
  }

  method Shorten(p: Probe) returns (r: Probe)
    ensures r == Shortened(p)
  {
    r := p;
    if |p.output| > MAX_OUTPUT_FOR_INSPECT {
      var buffer := new ResizableBuffer(MAX_OUTPUT_FOR_INSPECT);
      var n := buffer.Write(p.output);
      assert buffer.writes == [p.output] && Concat([p.output]) == "" + p.output == p.output by {
        assert [p.output][..0] == [];
      }
      var s := buffer.String();
      r := p.(output := s);
    }
  }

  method ShortenLogs(logs: array<Probe>)
    modifies logs
    ensures EachShortened(old(logs[..]), logs[..])
  {
    for i := 0 to logs.Length
      invariant forall k :: 0 <= k < i ==> logs[k] == Shortened(old(logs[k]))
      invariant forall k :: i <= k < logs.Length ==> logs[k] == old(logs[k])
    {
      var r := Shorten(logs[i]);
      logs[i] := r;
    }
  }

  method ToArray(logs: seq<Probe>) returns (a: array<Probe>)
    ensures fresh(a) && a[..] == logs
  {
    a := new Probe[|logs|](i requires 0 <= i < |logs| => logs[i]);
  }

  /** The log part of `ReadHealthStatusForInspect`. */
  method ReadForInspect(codec: Codec, text: string) returns (shown: array<Probe>)
    ensures fresh(shown) && Inspected(Decoded(codec, text), shown[..])
  {
    var logs := ReadLog(codec, text);
    ghost var all := logs;
    var n := |logs|;
    if n > MAX_LOG_ENTRIES { logs := logs[n - MAX_LOG_ENTRIES..]; }
    shown := ToArray(logs);
    ReverseLogs(shown);
    ghost var reversed := shown[..];
    ShortenLogs(shown);
    InspectedSteps(all, reversed, shown[..]);
  }

  // ----- the container -----

  class Container {
    /** The health label and the log file. */
    var health: Option<State>
    var log: string
    const config: Config
    const codec: Codec
    ghost var history: seq<Probe>

    ghost predicate Valid()
      reads this
    {
      && log == LogText(codec, history)
      && (if health.Some? then health.value == StateAfter(config, history) else history == [])
    }

    /** A missing label counts as starting, with no failures. */
    function Current(): State
      reads this
    {
      if health.Some? then health.value else State(Starting, 0)
    }

    constructor (config: Config, codec: Codec)
      ensures Valid() && history == [] && this.config == config && this.codec == codec
    {
      this.config, this.codec := config, codec;
      health, log, history := None, "", [];
    }

    /** `updateHealthStatus`. */
    method UpdateHealthStatus(p: Probe)
      requires Valid()
      modifies this
      ensures Valid() && history == old(history) + [p]
      ensures health == Some(Promised(config, history))
      ensures p.exitCode == 0 ==> health == Some(State(Healthy, 0))
      ensures p.exitCode != 0 && p.start < config.startPeriod ==> health.value == old(Current())
      ensures p.exitCode != 0 && p.start >= config.startPeriod ==>
        && health.value.streak == old(Current()).streak + 1
        && health.value.status == if health.value.streak >= config.retries then Unhealthy else old(Current()).status
      ensures log == old(log) + (codec.encode(p) + "\n")
    {
      var status, streak := Starting, 0;
      if health.Some? { status, streak := health.value.status, health.value.streak; }
      history := history + [p];
      assert history[..|history| - 1] == old(history);
      StatusAsPromised(config, history);
      if p.exitCode == 0 {
        status, streak := Healthy, 0;
      } else if !(p.start < config.startPeriod) {
        streak := streak + 1;
        if streak >= config.retries { status := Unhealthy; }
      }
      health := Some(State(status, streak));
      log := log + (codec.encode(p) + ['\n']);
    }

    /** Inspecting shows the last probes themselves, when the codec is faithful. */
    method Inspect() returns (shown: array<Probe>)
      requires Valid() && AllFaithful(codec, history)
      ensures fresh(shown) && Inspected(history, shown[..])
    {
      LogReadsBack(codec, history, "");
      assert log + "" == log;
      shown := ReadForInspect(codec, log);
    }
  }
}

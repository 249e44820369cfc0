/** Building a resolver configuration and reading it. The line patterns are modelled as what they match:
    blanks, a keyword, then an address or a list of words. */
module ResolvConf {
  import opened Strings

  datatype Kind = IP | IPv4 | IPv6

  const SEARCH: string := "search"
  const NAMESERVER: string := "nameserver"
  const OPTIONS: string := "options"

  // ----- characters -----

  /** What `\s` matches. */
  predicate Blank(c: char) { c == ' ' || c == '\t' || c == '\n' || c == '\U{000C}' || c == '\r' }

  /** What separates fields. */
  predicate Space(c: char) {
    || Blank(c) || c == '\U{000B}' || c == '\U{0085}' || c == '\U{00A0}' || c == '\U{1680}'
    || '\U{2000}' <= c <= '\U{200A}' || c == '\U{2028}' || c == '\U{2029}' || c == '\U{202F}'
    || c == '\U{205F}' || c == '\U{3000}'
  }

  predicate Hex(c: char) { Digit(c) || 'a' <= c <= 'f' || 'A' <= c <= 'F' }

  predicate WordChar(c: char) { Digit(c) || 'a' <= c <= 'z' || 'A' <= c <= 'Z' || c == '_' }

  predicate NoBlank(s: string) { forall i :: 0 <= i < |s| ==> !Blank(s[i]) }

  predicate NoSpace(s: string) { forall i :: 0 <= i < |s| ==> !Space(s[i]) }

  // ----- addresses -----

  function Value(s: string): nat { if s == "" then 0 else Value(s[..|s| - 1]) * 10 + DigitValue(s[|s| - 1]) }

  function DigitValue(c: char): nat { if Digit(c) then (c - '0') as nat else 0 }

  /** One to three digits, at most 255. */
  predicate NumBlock(s: string) {
    1 <= |s| <= 3 && (forall i :: 0 <= i < |s| ==> Digit(s[i])) && Value(s) <= 255
  }

  predicate HexBlock(s: string) { |s| <= 4 && forall i :: 0 <= i < |s| ==> Hex(s[i]) }

  predicate IsIPv4(s: string) {
    |Split(s, '.')| == 4 && forall i :: 0 <= i < |Split(s, '.')| ==> NumBlock(Split(s, '.')[i])
  }

  predicate Zone(s: string) {
    '%' in s ==> After(s, '%') != "" && forall i :: 0 <= i < |After(s, '%')| ==> WordChar(After(s, '%')[i])
  }

  /** Three to eight groups of up to four hexadecimal digits, and a zone: more than IPv6 addresses. */
  predicate IsIPv6(s: string) {
    && Zone(s)
    && 3 <= |Split(Before(s, '%'), ':')| <= 8
    && forall i :: 0 <= i < |Split(Before(s, '%'), ':')| ==> HexBlock(Split(Before(s, '%'), ':')[i])
  }

  predicate Address(s: string, kind: Kind) {
    match kind
    case IP => IsIPv4(s) || IsIPv6(s)
    case IPv4 => IsIPv4(s)
    case IPv6 => IsIPv6(s)
  }

  // ----- lines -----

  function SkipBlanks(s: string): string {
    if s != "" && Blank(s[0]) then SkipBlanks(s[1..]) else s
  }

  function DropBlanks(s: string): string {
    if s != "" && Blank(s[|s| - 1]) then DropBlanks(s[..|s| - 1]) else s
  }

  /** What follows blanks and the keyword; no blank need follow it. */
  function Following(line: string, keyword: string): Option<string> {
    var t := SkipBlanks(line);
    if keyword <= t then Some(SkipBlanks(t[|keyword|..])) else None
  }

  /** The address of a `nameserver` line. */
  function AddressIn(line: string, kind: Kind): Option<string> {
    var f := Following(line, NAMESERVER);
    if f.Some? && Address(DropBlanks(f.value), kind) then Some(DropBlanks(f.value)) else None
  }

  function WordLength(s: string): (n: nat)
    ensures n <= |s| && (s != "" && !Space(s[0]) ==> n > 0)
  {
    if s == "" || Space(s[0]) then 0 else 1 + WordLength(s[1..])
  }

  /** `strings.Fields`. */
  function Fields(s: string): seq<string>
    decreases |s|
  {
    if s == "" then []
    else if Space(s[0]) then Fields(s[1..])
    else [s[..WordLength(s)]] + Fields(s[WordLength(s)..])
  }

  // ----- reading -----

  function Uncommented(lines: seq<string>): seq<string> {
    if lines == [] then [] else [Before(lines[0], '#')] + Uncommented(lines[1..])
  }

  function Lines(content: string): seq<string> { Uncommented(Split(content, '\n')) }

  function OfLine(line: string, kind: Kind): seq<string> {
    var a := AddressIn(line, kind);
    if a.Some? then [a.value] else []
  }

  function Addresses(lines: seq<string>, kind: Kind): seq<string> {
    if lines == [] then [] else OfLine(lines[0], kind) + Addresses(lines[1..], kind)
  }

  /** The words of the last line with the keyword. */
  function LastWords(lines: seq<string>, keyword: string): seq<string> {
    if lines == [] then []
    else
      var f := Following(lines[|lines| - 1], keyword);
      if f.Some? then Fields(f.value) else LastWords(lines[..|lines| - 1], keyword)
  }

  // ----- building -----

  function SearchLines(search: seq<string>): seq<string> {
    if |search| > 0 && Trimmed(Join(search, ' ')) != "." then [SEARCH + [' '] + Join(search, ' ')] else []
  }

  function Trimmed(s: string): string { TrimRight(TrimLeft(s, ' '), ' ') }

  function NameserverLines(dns: seq<string>): seq<string> {
    if dns == [] then [] else [NAMESERVER + [' '] + dns[0]] + NameserverLines(dns[1..])
  }

  function OptionLines(options: seq<string>): seq<string> {
    if |options| > 0 && Trimmed(Join(options, ' ')) != "" then [OPTIONS + [' '] + Join(options, ' ')] else []
  }

  /** Each line with its newline. */
  function Unlines(lines: seq<string>): string {
    if lines == [] then "" else lines[0] + ['\n'] + Unlines(lines[1..])
  }

  function BuiltLines(dns: seq<string>, search: seq<string>, options: seq<string>): seq<string> {
    SearchLines(search) + (NameserverLines(dns) + OptionLines(options))
  }

  function Built(dns: seq<string>, search: seq<string>, options: seq<string>): string {
    Unlines(BuiltLines(dns, search, options))
  }

  // ----- what reads back -----

  predicate Word(s: string) { s != "" && NoSpace(s) && '#' !in s }

  predicate Words(list: seq<string>) { forall i :: 0 <= i < |list| ==> Word(list[i]) }

  predicate AllAddresses(list: seq<string>, kind: Kind) { forall i :: 0 <= i < |list| ==> Address(list[i], kind) }

  predicate Readable(dns: seq<string>, search: seq<string>, options: seq<string>) {
    AllAddresses(dns, IP) && Words(search) && Words(options) && search != ["."]
  }

  function Filter(dns: seq<string>, kind: Kind): seq<string> {
    if dns == [] then []
    else (if Address(dns[0], kind) then [dns[0]] else []) + Filter(dns[1..], kind)
  }

  // ----- addresses hold no blank, newline or comment -----

  /** No blank and no comment sign. */
  predicate Solid(s: string) { NoBlank(s) && '#' !in s }

  lemma SolidAround(a: string, c: char, b: string)
    requires Solid(a) && Solid(b) && !Blank(c) && c != '#'
    ensures Solid(a + [c] + b)
  {
  }

  lemma {:induction false} JoinSolid(parts: seq<string>, c: char)
    requires !Blank(c) && c != '#' && forall i :: 0 <= i < |parts| ==> Solid(parts[i])
    ensures Solid(Join(parts, c))
  {
    if |parts| > 1 {
      JoinSolid(parts[1..], c);
      SolidAround(parts[0], c, Join(parts[1..], c));
    }
  }

  lemma IPv4Solid(s: string)
    requires IsIPv4(s)
    ensures Solid(s) && s != ""
  {
    JoinSolid(Split(s, '.'), '.');
    JoinSplit(s, '.');
  }

  lemma GroupsSolid(h: string)
    requires |Split(h, ':')| >= 3 && forall i :: 0 <= i < |Split(h, ':')| ==> HexBlock(Split(h, ':')[i])
    ensures Solid(h) && h != ""
  {
    JoinSolid(Split(h, ':'), ':');
    JoinSplit(h, ':');
  }

  lemma IPv6Solid(s: string)
    requires IsIPv6(s)
    ensures Solid(s) && s != ""
  {
    var h, z := Before(s, '%'), After(s, '%');
    GroupsSolid(h);
    IndexOfFirst(s, '%');
    if '%' in s {
      assert s == h + ['%'] + z;
      assert Solid(z);
      SolidAround(h, '%', z);
    }
  }

  lemma AddressSolid(s: string, kind: Kind)
    requires Address(s, kind)
    ensures Solid(s) && s != ""
  {
    if IsIPv4(s) { IPv4Solid(s); } else { IPv6Solid(s); }
  }

  // ----- keywords -----

  predicate Keyword(k: string) { k != "" && Solid(k) }

  lemma Keywords()
    ensures Keyword(SEARCH) && Keyword(NAMESERVER) && Keyword(OPTIONS)
    ensures SEARCH[0] == 's' && NAMESERVER[0] == 'n' && OPTIONS[0] == 'o'
  {
  }

  lemma FollowingOwn(k: string, text: string)
    requires Keyword(k)
    ensures Following(k + [' '] + text, k) == Some(SkipBlanks(text))
  {
    var line := k + [' '] + text;
    assert !Blank(line[0]) by { assert line[0] == k[0]; }
    assert line[|k|..] == [' '] + text;
    assert ([' '] + text)[1..] == text;
  }

  lemma FollowingOther(k: string, text: string, other: string)
    requires Keyword(k) && other != "" && other[0] != k[0]
    ensures Following(k + [' '] + text, other) == None
  {
    var line := k + [' '] + text;
    assert !Blank(line[0]) && line[0] == k[0];
  }

  // ----- words -----

  lemma {:induction false} WordThenSpace(w: string, rest: string)
    requires NoSpace(w) && (rest == "" || Space(rest[0]))
    ensures WordLength(w + rest) == |w|
  {
    if w != "" {
      assert (w + rest)[1..] == w[1..] + rest;
      WordThenSpace(w[1..], rest);
    } else {
      assert w + rest == rest;
    }
  }

  lemma FieldsHead(w: string, rest: string)
    requires w != "" && NoSpace(w) && (rest == "" || Space(rest[0]))
    ensures Fields(w + rest) == [w] + Fields(rest)
  {
    WordThenSpace(w, rest);
    assert (w + rest)[..|w|] == w && (w + rest)[|w|..] == rest;
    assert !Space((w + rest)[0]) by { assert (w + rest)[0] == w[0]; }
  }

  /** Splitting a joined list of words at spaces gives the words back. */
  lemma {:induction false} FieldsJoin(words: seq<string>)
    requires Words(words)
    ensures Fields(Join(words, ' ')) == words
  {
    if |words| == 1 {
      FieldsHead(words[0], "");
      assert words[0] + "" == words[0];
    } else if |words| > 1 {
      var rest := [' '] + Join(words[1..], ' ');
      FieldsHead(words[0], rest);
      assert rest[1..] == Join(words[1..], ' ');
      Assoc(words[0], [' '], Join(words[1..], ' '));
      FieldsJoin(words[1..]);
    }
  }

  lemma {:induction false} WordLengthStops(s: string)
    ensures NoSpace(s[..WordLength(s)])
  {
    if s != "" && !Space(s[0]) {
      WordLengthStops(s[1..]);
      assert s[..WordLength(s)] == [s[0]] + s[1..][..WordLength(s[1..])];
    }
  }

  /** Every field is a word. */
  lemma {:induction false} FieldsAreWords(s: string)
    requires '#' !in s
    ensures Words(Fields(s))
    decreases |s|
  {
    if s != "" {
      if Space(s[0]) {
        FieldsAreWords(s[1..]);
      } else {
        WordLengthStops(s);
        FieldsAreWords(s[WordLength(s)..]);
      }
    }
  }

  lemma {:induction false} SkipBlanksPart(s: string)
    requires '#' !in s
    ensures '#' !in SkipBlanks(s)
  {
    if s != "" && Blank(s[0]) { SkipBlanksPart(s[1..]); }
  }

  // ----- text of words -----

  predicate Printable(s: string) { '\n' !in s && '#' !in s }

  predicate AllPrintable(lines: seq<string>) { forall i :: 0 <= i < |lines| ==> Printable(lines[i]) }

  lemma {:induction false} JoinedWords(words: seq<string>)
    requires Words(words) && words != []
    ensures var j := Join(words, ' ');
      Printable(j) && j != "" && !Space(j[0]) && !Space(j[|j| - 1]) && (|words| > 1 ==> ' ' in j)
  {
    if |words| > 1 {
      JoinedWords(words[1..]);
      var t := Join(words[1..], ' ');
      var j := words[0] + [' '] + t;
      assert j[0] == words[0][0] && j[|j| - 1] == t[|t| - 1] && j[|words[0]|] == ' ';
    }
  }

  lemma TrimmedSolid(s: string)
    requires s != "" && s[0] != ' ' && s[|s| - 1] != ' '
    ensures Trimmed(s) == s
  {
  }

  /** For words, the line is left out just for the empty list and for a single dot. */
  lemma SearchLinesOfWords(search: seq<string>)
    requires Words(search)
    ensures SearchLines(search)
      == if search == [] || search == ["."] then [] else [SEARCH + [' '] + Join(search, ' ')]
  {
    if search != [] {
      JoinedWords(search);
      TrimmedSolid(Join(search, ' '));
    }
  }

  lemma OptionLinesOfWords(options: seq<string>)
    requires Words(options)
    ensures OptionLines(options) == if options == [] then [] else [OPTIONS + [' '] + Join(options, ' ')]
  {
    if options != [] {
      JoinedWords(options);
      TrimmedSolid(Join(options, ' '));
    }
  }

  // ----- lines of built text -----

  lemma {:induction false} UnlinesIsJoin(lines: seq<string>)
    ensures Join(lines + [""], '\n') == Unlines(lines)
  {
    if lines != [] {
      UnlinesIsJoin(lines[1..]);
      JoinCons(lines[0], lines[1..] + [""], '\n');
      assert lines + [""] == [lines[0]] + (lines[1..] + [""]);
    } else {
      assert lines + [""] == [""];
    }
  }

  lemma {:induction false} UncommentedPrintable(lines: seq<string>)
    requires AllPrintable(lines)
    ensures Uncommented(lines) == lines
  {
    if lines != [] {
      IndexOfFirst(lines[0], '#');
      UncommentedPrintable(lines[1..]);
    }
  }

  /** Reading the lines of a built text gives the lines it was built from, and an empty one. */
  lemma LinesOfUnlines(lines: seq<string>)
    requires AllPrintable(lines)
    ensures Lines(Unlines(lines)) == lines + [""]
  {
    UnlinesIsJoin(lines);
    SplitJoin(lines + [""], '\n');
    UncommentedPrintable(lines + [""]);
  }

  lemma {:induction false} NameserversPrintable(dns: seq<string>)
    requires AllAddresses(dns, IP)
    ensures AllPrintable(NameserverLines(dns))
  {
    if dns != [] {
      Keywords();
      AddressSolid(dns[0], IP);
      SolidPrintable(NAMESERVER, dns[0]);
      NameserversPrintable(dns[1..]);
    }
  }

  lemma SolidPrintable(k: string, text: string)
    requires Keyword(k) && Solid(text)
    ensures Printable(k + [' '] + text)
  {
    var line := k + [' '] + text;
    forall i | 0 <= i < |line| ensures line[i] != '\n' && line[i] != '#' {
      if i < |k| {
        assert !Blank(k[i]) && k[i] in k;
      } else if i > |k| {
        assert !Blank(text[i - |k| - 1]) && text[i - |k| - 1] in text;
      }
    }
  }

  lemma PrintableLine(k: string, text: string)
    requires Keyword(k) && Printable(text)
    ensures Printable(k + [' '] + text)
  {
    assert forall i :: 0 <= i < |k| ==> !Blank(k[i]);
  }

  lemma BuiltPrintable(dns: seq<string>, search: seq<string>, options: seq<string>)
    requires AllAddresses(dns, IP) && Words(search) && Words(options)
    ensures AllPrintable(BuiltLines(dns, search, options))
  {
    Keywords();
    NameserversPrintable(dns);
    if search != [] { JoinedWords(search); PrintableLine(SEARCH, Join(search, ' ')); }
    if options != [] { JoinedWords(options); PrintableLine(OPTIONS, Join(options, ' ')); }
  }

  // ----- reading each part of the built lines -----

  lemma {:induction false} AddressesAppend(a: seq<string>, b: seq<string>, kind: Kind)
    ensures Addresses(a + b, kind) == Addresses(a, kind) + Addresses(b, kind)
  {
    if a == [] {
      assert a + b == b;
    } else {
      AddressesAppend(a[1..], b, kind);
      assert (a + b)[1..] == a[1..] + b;
      Assoc(OfLine(a[0], kind), Addresses(a[1..], kind), Addresses(b, kind));
    }
  }

  lemma {:induction false} LastWordsAppend(a: seq<string>, b: seq<string>, k: string)
    requires forall i :: 0 <= i < |b| ==> Following(b[i], k) == None
    ensures LastWords(a + b, k) == LastWords(a, k)
  {
    if b == [] {
      assert a + b == a;
    } else {
      assert (a + b)[..|a + b| - 1] == a + b[..|b| - 1];
      LastWordsAppend(a, b[..|b| - 1], k);
    }
  }

  lemma TrimAddress(s: string, kind: Kind)
    requires Address(s, kind)
    ensures SkipBlanks(s) == s && DropBlanks(s) == s
  {
    AddressSolid(s, kind);
  }

  lemma {:induction false} AddressesOfNameservers(dns: seq<string>, kind: Kind)
    requires AllAddresses(dns, IP)
    ensures Addresses(NameserverLines(dns), kind) == Filter(dns, kind)
  {
    if dns != [] {
      Keywords();
      FollowingOwn(NAMESERVER, dns[0]);
      TrimAddress(dns[0], IP);
      AddressesOfNameservers(dns[1..], kind);
    }
  }

  lemma {:induction false} NoAddresses(lines: seq<string>, kind: Kind)
    requires forall i :: 0 <= i < |lines| ==> Following(lines[i], NAMESERVER) == None
    ensures Addresses(lines, kind) == []
  {
    if lines != [] { NoAddresses(lines[1..], kind); }
  }

  lemma {:induction false} NameserversOther(dns: seq<string>, k: string)
    requires k != "" && k[0] != 'n'
    ensures forall i :: 0 <= i < |NameserverLines(dns)| ==> Following(NameserverLines(dns)[i], k) == None
  {
    if dns != [] {
      Keywords();
      FollowingOther(NAMESERVER, dns[0], k);
      NameserversOther(dns[1..], k);
    }
  }

  lemma {:induction false} FilterAll(dns: seq<string>, kind: Kind)
    requires AllAddresses(dns, kind)
    ensures Filter(dns, kind) == dns
  {
    if dns != [] { FilterAll(dns[1..], kind); }
  }

  lemma OptionsOther(options: seq<string>, k: string)
    requires k != "" && k[0] != 'o'
    ensures forall i :: 0 <= i < |OptionLines(options)| ==> Following(OptionLines(options)[i], k) == None
    ensures Following("", k) == None
  {
    Keywords();
    FollowingOther(OPTIONS, Join(options, ' '), k);
  }

  lemma SearchOther(search: seq<string>, k: string)
    requires k != "" && k[0] != 's'
    ensures forall i :: 0 <= i < |SearchLines(search)| ==> Following(SearchLines(search)[i], k) == None
  {
    Keywords();
    FollowingOther(SEARCH, Join(search, ' '), k);
  }

  lemma WordsOfLine(k: string, words: seq<string>)
    requires Keyword(k) && Words(words) && words != []
    ensures Following(k + [' '] + Join(words, ' '), k).Some?
    ensures Fields(Following(k + [' '] + Join(words, ' '), k).value) == words
  {
    FollowingOwn(k, Join(words, ' '));
    JoinedWords(words);
    FieldsJoin(words);
  }

  /** The nameservers of each kind, in their order. */
  lemma NameserversReadBack(dns: seq<string>, search: seq<string>, options: seq<string>, kind: Kind)
    requires AllAddresses(dns, IP) && Words(search) && Words(options)
    ensures Addresses(Lines(Built(dns, search, options)), kind) == Filter(dns, kind)
  {
    Keywords();
    BuiltPrintable(dns, search, options);
    LinesOfUnlines(BuiltLines(dns, search, options));
    var s, n, o := SearchLines(search), NameserverLines(dns), OptionLines(options);
    AddressesAppend(s + (n + o), [""], kind);
    AddressesAppend(s, n + o, kind);
    AddressesAppend(n, o, kind);
    SearchOther(search, NAMESERVER);
    OptionsOther(options, NAMESERVER);
    NoAddresses(s, kind);
    NoAddresses(o, kind);
    NoAddresses([""], kind);
    AddressesOfNameservers(dns, kind);
  }

  /** The search list, except that a single dot is not written. */
  lemma SearchReadsBack(dns: seq<string>, search: seq<string>, options: seq<string>)
    requires AllAddresses(dns, IP) && Words(search) && Words(options)
    ensures LastWords(Lines(Built(dns, search, options)), SEARCH) == if search == ["."] then [] else search
  {
    Keywords();
    BuiltPrintable(dns, search, options);
    LinesOfUnlines(BuiltLines(dns, search, options));
    var s, n, o := SearchLines(search), NameserverLines(dns), OptionLines(options);
    NameserversOther(dns, SEARCH);
    OptionsOther(options, SEARCH);
    LastWordsAppend(s + (n + o), [""], SEARCH);
    LastWordsAppend(s, n + o, SEARCH);
    SearchLinesOfWords(search);
    if search != [] { WordsOfLine(SEARCH, search); }
  }

  lemma OptionsReadBack(dns: seq<string>, search: seq<string>, options: seq<string>)
    requires AllAddresses(dns, IP) && Words(search) && Words(options)
    ensures LastWords(Lines(Built(dns, search, options)), OPTIONS) == options
  {
    Keywords();
    BuiltPrintable(dns, search, options);
    LinesOfUnlines(BuiltLines(dns, search, options));
    var s, n, o := SearchLines(search), NameserverLines(dns), OptionLines(options);
    NameserversOther(dns, OPTIONS);
    SearchOther(search, OPTIONS);
    LastWordsAppend(s + (n + o), [""], OPTIONS);
    OptionLinesOfWords(options);
    if options == [] {
      LastWordsAppend([], s + (n + o), OPTIONS);
      assert [] + (s + (n + o)) == s + (n + o);
    } else {
      WordsOfLine(OPTIONS, options);
      LastLine(s + n, OPTIONS + [' '] + Join(options, ' '), OPTIONS);
      Assoc(s, n, o);
    }
  }

  lemma LastLine(before: seq<string>, line: string, k: string)
    requires Following(line, k).Some?
    ensures LastWords(before + [line], k) == Fields(Following(line, k).value)
  {
  }

  // ----- what is read is always readable -----

  lemma {:induction false} AddressesAreAddresses(lines: seq<string>, kind: Kind)
    ensures AllAddresses(Addresses(lines, kind), kind)
  {
    if lines != [] { AddressesAreAddresses(lines[1..], kind); }
  }

  lemma {:induction false} UncommentedAt(lines: seq<string>, i: nat)
    requires i < |Uncommented(lines)|
    ensures '#' !in Uncommented(lines)[i]
  {
    IndexOfFirst(lines[0], '#');
    if i > 0 { UncommentedAt(lines[1..], i - 1); }
  }

  lemma FollowingPart(line: string, k: string)
    requires '#' !in line
    ensures Following(line, k).Some? ==> '#' !in Following(line, k).value
  {
    SkipBlanksPart(line);
    var t := SkipBlanks(line);
    if k <= t { SkipBlanksPart(t[|k|..]); }
  }

  lemma {:induction false} LastWordsAreWords(lines: seq<string>, k: string)
    requires forall i :: 0 <= i < |lines| ==> '#' !in lines[i]
    ensures Words(LastWords(lines, k))
  {
    if lines != [] {
      var line := lines[|lines| - 1];
      FollowingPart(line, k);
      if Following(line, k).Some? { FieldsAreWords(Following(line, k).value); }
      LastWordsAreWords(lines[..|lines| - 1], k);
    }
  }

  lemma ReadWords(content: string, k: string)
    ensures Words(LastWords(Lines(content), k))
  {
    var lines := Lines(content);
    forall i | 0 <= i < |lines| ensures '#' !in lines[i] { UncommentedAt(Split(content, '\n'), i); }
    LastWordsAreWords(lines, k);
  }

  /** The round trip, for every three lists: reading the built text gives the three lists back exactly
      when the servers are addresses, the domains and options are words, and the search list is not a
      single dot. */
  lemma BuildThenRead(dns: seq<string>, search: seq<string>, options: seq<string>)
    ensures var lines := Lines(Built(dns, search, options));
      Readable(dns, search, options)
      <==> Addresses(lines, IP) == dns && LastWords(lines, SEARCH) == search && LastWords(lines, OPTIONS) == options
  {
    var content := Built(dns, search, options);
    AddressesAreAddresses(Lines(content), IP);
    ReadWords(content, SEARCH);
    ReadWords(content, OPTIONS);
    if AllAddresses(dns, IP) && Words(search) && Words(options) {
      NameserversReadBack(dns, search, options, IP);
      FilterAll(dns, IP);
      SearchReadsBack(dns, search, options);
      OptionsReadBack(dns, search, options);
    }
  }

  // ----- on the texts themselves -----

  /** An IPv4 address has dots and no colon, an IPv6 address colons; either is an address. */
  lemma KindsOfAddresses(s: string)
    ensures Address(s, IPv4) ==> '.' in s && ':' !in s
    ensures Address(s, IPv6) ==> ':' in s
    ensures Address(s, IP) <==> Address(s, IPv4) || Address(s, IPv6)
  {
    if IsIPv4(s) { Dotted(s); }
    if IsIPv6(s) {
      var h := Before(s, '%');
      if ':' !in h { SplitOne(h, ':'); }
      assert ':' in h ==> ':' in s;
    }
  }

  lemma {:induction false} JoinHasOnly(parts: seq<string>, c: char, d: char)
    requires c != d && forall i :: 0 <= i < |parts| ==> d !in parts[i]
    ensures d !in Join(parts, c)
  {
    if |parts| > 1 { JoinHasOnly(parts[1..], c, d); }
  }

  lemma Dotted(s: string)
    requires IsIPv4(s)
    ensures '.' in s && ':' !in s
  {
    if '.' !in s { SplitOne(s, '.'); }
    JoinSplit(s, '.');
    JoinHasOnly(Split(s, '.'), '.', ':');
  }

  lemma NumBlockPlain(s: string)
    requires NumBlock(s)
    ensures '.' !in s && ':' !in s
  {
  }

  /** The numbers of an address: one to three digits, at most 255. */
  lemma NumBlockExactly(a: char, b: char, c: char)
    ensures NumBlock([a]) <==> '0' <= a <= '9'
    ensures NumBlock([a, b]) <==> '0' <= a <= '9' && '0' <= b <= '9'
    ensures NumBlock([a, b, c]) <==>
      && '0' <= a <= '9' && '0' <= b <= '9' && '0' <= c <= '9'
      && 100 * (a - '0') as nat + 10 * (b - '0') as nat + (c - '0') as nat <= 255
    ensures !NumBlock("")
  {
    assert [a][..0] == "" && [a, b][..1] == [a] && [a, b, c][..2] == [a, b];
    assert Value("") == 0 && Value([a]) == DigitValue(a) && Value([a, b]) == DigitValue(a) * 10 + DigitValue(b);
    assert [a][0] == a && [a, b][0] == a && [a, b][1] == b;
    assert [a, b, c][0] == a && [a, b, c][1] == b && [a, b, c][2] == c;
  }

  /** An IPv4 address is four numbers with dots between them. */
  lemma DottedNumbers(parts: seq<string>)
    requires parts != [] && forall i :: 0 <= i < |parts| ==> '.' !in parts[i]
    ensures Address(Join(parts, '.'), IPv4) <==> |parts| == 4 && forall i :: 0 <= i < |parts| ==> NumBlock(parts[i])
  {
    SplitJoin(parts, '.');
  }

  /** An IPv6 address without a zone is three to eight groups of up to four hexadecimal digits with colons
      between them. */
  lemma ColonGroups(groups: seq<string>)
    requires groups != [] && forall i :: 0 <= i < |groups| ==> ':' !in groups[i] && '%' !in groups[i]
    ensures Address(Join(groups, ':'), IPv6) <==>
      3 <= |groups| <= 8 && forall i :: 0 <= i < |groups| ==> HexBlock(groups[i])
  {
    var s := Join(groups, ':');
    SplitJoin(groups, ':');
    JoinHasOnly(groups, ':', '%');
    IndexOfFirst(s, '%');
  }

  lemma HexBlocks(s: string)
    ensures HexBlock(s) <==> |s| <= 4 && HexDigits(s)
  {
  }

  predicate HexDigits(s: string) {
    forall i :: 0 <= i < |s| ==> '0' <= s[i] <= '9' || 'a' <= s[i] <= 'f' || 'A' <= s[i] <= 'F'
  }

  /** A zone is at least one letter, digit or underscore. */
  lemma Zones(h: string, zone: string)
    requires '%' !in h
    ensures Address(h + "%" + zone, IPv6) <==> Address(h, IPv6) && zone != "" && LettersOrDigits(zone)
  {
    CutAt(h, '%', zone);
    assert h + ['%'] + zone == h + "%" + zone;
    IndexOfFirst(h, '%');
    assert LettersOrDigits(zone) <==> forall i :: 0 <= i < |zone| ==> WordChar(zone[i]);
  }

  predicate LettersOrDigits(s: string) {
    forall i :: 0 <= i < |s| ==>
      '0' <= s[i] <= '9' || 'a' <= s[i] <= 'z' || 'A' <= s[i] <= 'Z' || s[i] == '_'
  }

  /** The blanks of the line patterns, and the further characters that separate words. */
  lemma Blanks(c: char)
    ensures Blank(c) <==> c in {' ', '\t', '\n', '\r', '\U{000C}'}
    ensures Space(c) <==>
      || c in {' ', '\t', '\n', '\r', '\U{000B}', '\U{000C}', '\U{0085}', '\U{00A0}', '\U{1680}'}
      || '\U{2000}' <= c <= '\U{200A}'
      || c in {'\U{2028}', '\U{2029}', '\U{202F}', '\U{205F}', '\U{3000}'}
  {
  }

  lemma {:induction false} TrimLeftAll(s: string)
    ensures TrimLeft(s, ' ') == "" <==> forall i :: 0 <= i < |s| ==> s[i] == ' '
    ensures TrimLeft(s, ' ') != "" ==> TrimLeft(s, ' ')[0] != ' '
  {
    if s != "" && s[0] == ' ' {
      TrimLeftAll(s[1..]);
      assert forall i :: 0 < i < |s| ==> s[i] == s[1..][i - 1];
    }
  }

  lemma {:induction false} TrimRightKeeps(s: string)
    requires s != "" && s[0] != ' '
    ensures TrimRight(s, ' ') != ""
  {
    if s[|s| - 1] == ' ' { TrimRightKeeps(s[..|s| - 1]); }
  }

  predicate OnlySpaces(s: string) { forall i :: 0 <= i < |s| ==> s[i] == ' ' }

  lemma TrimmedBlank(s: string)
    ensures Trimmed(s) == "" <==> OnlySpaces(s)
  {
    TrimLeftAll(s);
    if TrimLeft(s, ' ') != "" { TrimRightKeeps(TrimLeft(s, ' ')); }
  }

  /** Options of nothing but spaces are not written. */
  lemma BlankOptionsLeftOut(options: seq<string>)
    ensures OptionLines(options) == [] <==> OnlySpaces(Join(options, ' '))
  {
    TrimmedBlank(Join(options, ' '));
    if options == [] {
      assert Join(options, ' ') == "";
    } else if Trimmed(Join(options, ' ')) != "" {
      assert |OptionLines(options)| == 1;
    }
  }

  /** What is written for one domain, one server and one option. */
  lemma BuiltText(dns: string, domain: string, option: string)
    requires Word(domain) && domain != "." && Word(option)
    ensures Built([dns], [domain], [option]) ==
      "search " + domain + "\n" + ("nameserver " + dns + "\n" + ("options " + option + "\n"))
  {
    SearchLinesOfWords([domain]);
    OptionLinesOfWords([option]);
    var s, n, o := SEARCH + [' '] + domain, NAMESERVER + [' '] + dns, OPTIONS + [' '] + option;
    assert SearchLines([domain]) == [s] && OptionLines([option]) == [o];
    assert [dns][1..] == [] && NameserverLines([dns]) == [n];
    assert BuiltLines([dns], [domain], [option]) == [s, n, o];
    UnlinesThree(s, n, o);
    assert s == "search " + domain && n == "nameserver " + dns && o == "options " + option;
  }

  lemma UnlinesThree(a: string, b: string, c: string)
    ensures Unlines([a, b, c]) == a + "\n" + (b + "\n" + (c + "\n"))
  {
    assert [a, b, c][1..] == [b, c] && [b, c][1..] == [c] && [c][1..] == [];
    assert Unlines([c]) == c + "\n" + "";
  }

  // ----- the code -----

  lemma UnlinesAppend(a: seq<string>, line: string)
    ensures Unlines(a + [line]) == Unlines(a) + line + ['\n']
  {
    if a == [] {
      assert a + [line] == [line];
      assert [line][1..] == [];
    } else {
      UnlinesAppend(a[1..], line);
      assert (a + [line])[1..] == a[1..] + [line];
      Grouped(a[0], Unlines(a[1..]), line);
    }
  }

  lemma Grouped(a: string, b: string, c: string)
    ensures a + ['\n'] + (b + c + ['\n']) == a + ['\n'] + b + c + ['\n']
  {
  }

  lemma {:induction false} NameserverLinesSnoc(dns: seq<string>, d: string)
    ensures NameserverLines(dns + [d]) == NameserverLines(dns) + [NAMESERVER + [' '] + d]
  {
    if dns == [] {
      assert dns + [d] == [d];
    } else {
      NameserverLinesSnoc(dns[1..], d);
      assert (dns + [d])[1..] == dns[1..] + [d];
    }
  }

  /** The content `Build` writes. */
  method Build(dns: seq<string>, search: seq<string>, options: seq<string>) returns (content: string)
    ensures content == Built(dns, search, options)
  {
    content := "";
    ghost var lines: seq<string> := [];
    if |search| > 0 {
      var text := Join(search, ' ');
      if Trimmed(text) != "." {
        UnlinesAppend(lines, SEARCH + [' '] + text);
        content := content + (SEARCH + [' '] + text) + ['\n'];
        lines := lines + [SEARCH + [' '] + text];
      }
    }
    ghost var first := lines;
    for i := 0 to |dns|
      invariant content == Unlines(lines) && lines == first + NameserverLines(dns[..i])
    {
      var line := NAMESERVER + [' '] + dns[i];
      NameserverLinesSnoc(dns[..i], dns[i]);
      assert dns[..i + 1] == dns[..i] + [dns[i]];
      Assoc(first, NameserverLines(dns[..i]), [line]);
      UnlinesAppend(lines, line);
      content := content + line + ['\n'];
      lines := lines + [line];
    }
    assert dns[..|dns|] == dns;
    if |options| > 0 {
      var text := Join(options, ' ');
      if Trimmed(text) != "" {
        UnlinesAppend(lines, OPTIONS + [' '] + text);
        content := content + (OPTIONS + [' '] + text) + ['\n'];
        lines := lines + [OPTIONS + [' '] + text];
      }
    }
    Assoc(first, NameserverLines(dns), OptionLines(options));
    assert lines == BuiltLines(dns, search, options);
  }

  lemma {:induction false} UncommentedSnoc(lines: seq<string>, line: string)
    ensures Uncommented(lines + [line]) == Uncommented(lines) + [Before(line, '#')]
  {
    if lines == [] {
      assert lines + [line] == [line];
    } else {
      UncommentedSnoc(lines[1..], line);
      assert (lines + [line])[1..] == lines[1..] + [line];
    }
  }

  method GetLines(content: string) returns (output: seq<string>)
    ensures output == Lines(content)
  {
    var lines := Split(content, '\n');
    output := [];
    for i := 0 to |lines|
      invariant output == Uncommented(lines[..i])
    {
      UncommentedSnoc(lines[..i], lines[i]);
      assert lines[..i + 1] == lines[..i] + [lines[i]];
      var comment := IndexOf(lines[i], '#');
      output := output + [if comment == -1 then lines[i] else lines[i][..comment]];
    }
    assert lines[..|lines|] == lines;
  }

  lemma AddressesSnoc(lines: seq<string>, i: nat, kind: Kind)
    requires i < |lines|
    ensures Addresses(lines[..i + 1], kind) == Addresses(lines[..i], kind) + OfLine(lines[i], kind)
  {
    AddressesAppend(lines[..i], [lines[i]], kind);
    assert lines[..i + 1] == lines[..i] + [lines[i]];
    assert Addresses([lines[i]], kind) == OfLine(lines[i], kind) + [];
  }

  method GetNameservers(content: string, kind: Kind) returns (servers: seq<string>)
    ensures servers == Addresses(Lines(content), kind)
  {
    var lines := GetLines(content);
    servers := [];
    for i := 0 to |lines|
      invariant servers == Addresses(lines[..i], kind)
    {
      AddressesSnoc(lines, i, kind);
      var ns := AddressIn(lines[i], kind);
      if ns.Some? { servers := servers + [ns.value]; }
    }
    assert lines[..|lines|] == lines;
  }

  /** `GetSearchDomains` and `GetOptions`, which differ in the keyword. */
  method GetWords(content: string, keyword: string) returns (words: seq<string>)
    ensures words == LastWords(Lines(content), keyword)
  {
    var lines := GetLines(content);
    words := [];
    for i := 0 to |lines|
      invariant words == LastWords(lines[..i], keyword)
    {
      assert lines[..i + 1][..i] == lines[..i];
      var f := Following(lines[i], keyword);
      if f.Some? { words := Fields(f.value); }
    }
    assert lines[..|lines|] == lines;
  }
}

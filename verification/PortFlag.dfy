/** `ParseFlagP`: publishing ports from a text such as `127.0.0.1:3000-3001:8080-8081/tcp`. Reading a
    range of ports (`nat.ParsePortRange`) and an IP address (`net.ParseIP`) are foreign. */
module PortFlag {
  import opened Strings
  import opened PortAllocator

  datatype PortMapping = PortMapping(hostPort: int, containerPort: int, protocol: string, hostIP: string)

  datatype FlagError =
    | InvalidProtocol
    | UnexpectedSlashes
    | NoPort
    | InvalidContainerPort
    | NotForRootless
    | CannotAllocate
    | InvalidHostPort
    | CannotReadUsed
    | AlreadyAllocated(port: nat)
    | InvalidRanges
    | InvalidIP

  datatype Result<+T> = Ok(value: T) | Err(error: FlagError)

  /** What the parser asks of its surroundings. A range of ports is not empty and ends at 65535. */
  datatype World = World(
    rootless: bool,
    used: (string, string) -> Option<set<nat>>,
    range: string -> Option<(nat, nat)>,
    isIP: string -> bool)

  ghost predicate Sane(w: World) {
    forall t :: w.range(t).Some? ==> w.range(t).value.0 <= w.range(t).value.1 <= 65535
  }

  // ----- splitting the text -----

  predicate KnownProtocol(p: string) { p == "tcp" || p == "udp" || p == "sctp" }

  /** `net.SplitHostPort`. */
  function SplitHostPort(s: string): Option<(string, string)> {
    var i := LastIndexOf(s, ':');
    if i < 0 then None
    else if s[0] == '[' then
      var end := IndexOf(s, ']');
      if end < 0 || end + 1 != i then None
      else if '[' in s[1..] || ']' in s[end + 1..] then None
      else Some((s[1..end], s[i + 1..]))
    else if ':' in s[..i] || '[' in s || ']' in s then None
    else Some((s[..i], s[i + 1..]))
  }

  /** `splitParts`: address, host ports and container ports. */
  function SplitParts(raw: string): (string, string, string) {
    var last := LastIndexOf(raw, ':');
    if last < 0 then ("", "", raw)
    else
      match SplitHostPort(raw[..last])
      case None => ("", raw[..last], raw[last + 1..])
      case Some((addr, port)) => (addr, port, raw[last + 1..])
  }

  // ----- specification -----

  /** The decision: container range, first host port, protocol and address as written. */
  datatype Plan = Plan(first: nat, last: nat, host: nat, protocol: string, ip: string)

  function ProtocolOf(s: string): Result<string> {
    var parts := Split(s, '/');
    if |parts| == 1 then Ok("tcp")
    else if |parts| > 2 then Err(UnexpectedSlashes)
    else if KnownProtocol(Lower(parts[1])) then Ok(Lower(parts[1])) else Err(InvalidProtocol)
  }

  /** The least port in use among those wanted. */
  function FirstUsed(used: set<nat>, lo: nat, hi: nat): Option<nat>
    decreases hi - lo
  {
    if lo > hi then None else if lo in used then Some(lo) else FirstUsed(used, lo + 1, hi)
  }

  function HostStart(w: World, cursor: nat, ip: string, hostText: string, protocol: string, first: nat, last: nat)
    : Result<nat>
    requires first <= last
  {
    if hostText == "" then
      if w.rootless then Err(NotForRootless)
      else
        match w.used(ip, protocol)
        case None => Err(CannotAllocate)
        case Some(used) =>
          match Allocate(cursor, used, last - first + 1)
          case None => Err(CannotAllocate)
          case Some(s) => Ok(s)
    else
      match w.range(hostText)
      case None => Err(InvalidHostPort)
      case Some((lo, hi)) =>
        match w.used(ip, protocol)
        case None => Err(CannotReadUsed)
        case Some(used) =>
          match FirstUsed(used, lo, hi)
          case Some(p) => Err(AlreadyAllocated(p))
          case None => if last - first != hi - lo && first != last then Err(InvalidRanges) else Ok(lo)
  }

  /** What the text asks for, before any host port is chosen. */
  datatype Request = Request(protocol: string, ip: string, hostText: string, first: nat, last: nat)

  function Asked(s: string, w: World): Result<Request> {
    match ProtocolOf(s)
    case Err(e) => Err(e)
    case Ok(protocol) =>
      var (ip, hostText, containerText) := SplitParts(Split(s, '/')[0]);
      if containerText == "" then Err(NoPort)
      else
        match w.range(containerText)
        case None => Err(InvalidContainerPort)
        case Some((first, last)) =>
          if first > last then Err(InvalidContainerPort) else Ok(Request(protocol, ip, hostText, first, last))
  }

  function Chosen(q: Request, w: World, cursor: nat): Result<nat>
    requires q.first <= q.last
  {
    HostStart(w, cursor, q.ip, q.hostText, q.protocol, q.first, q.last)
  }

  function Decide(s: string, w: World, cursor: nat): Result<Plan> {
    match Asked(s, w)
    case Err(e) => Err(e)
    case Ok(q) =>
      match Chosen(q, w, cursor)
      case Err(e) => Err(e)
      case Ok(host) =>
        if q.ip != "" && !w.isIP(q.ip) then Err(InvalidIP) else Ok(Plan(q.first, q.last, host, q.protocol, q.ip))
  }

  lemma {:induction false} FirstUsedIsLeast(used: set<nat>, lo: nat, hi: nat)
    ensures match FirstUsed(used, lo, hi)
      case None => forall p :: lo <= p <= hi ==> p !in used
      case Some(p) => lo <= p <= hi && p in used && forall q :: lo <= q < p ==> q !in used
    decreases hi - lo
  {
    if lo <= hi && lo !in used { FirstUsedIsLeast(used, lo + 1, hi); }
  }

  /** A decision never hands out a port that is in use, and covers the whole container range. */
  lemma DecidedPortsAreFree(s: string, w: World, cursor: nat)
    requires Sane(w) && Decide(s, w, cursor).Ok?
    ensures var p := Decide(s, w, cursor).value;
      && p.first <= p.last <= 65535 && KnownProtocol(p.protocol) && (p.ip == "" || w.isIP(p.ip))
      && w.used(p.ip, p.protocol).Some?
      && forall q :: p.host <= q <= p.host + (p.last - p.first) ==> q !in w.used(p.ip, p.protocol).value
  {
    var (ip, hostText, containerText) := SplitParts(Split(s, '/')[0]);
    var p := Decide(s, w, cursor).value;
    var used := w.used(p.ip, p.protocol).value;
    if hostText == "" {
      FirstFitIsFirst(used, cursor, p.last - p.first + 1);
    } else {
      var (lo, hi) := w.range(hostText).value;
      FirstUsedIsLeast(used, lo, hi);
    }
  }

  // ----- printing -----

  /** Text without the characters that structure a published port. */
  predicate PlainText(t: string) { ':' !in t && '/' !in t && '[' !in t && ']' !in t }

  /** An address, in brackets when it has colons. */
  function PrintAddress(ip: string): string {
    if ip == "" then "" else if ':' in ip then "[" + ip + "]:" else ip + ":"
  }

  function Print(ip: string, hostText: string, containerText: string, protocol: string): string {
    PrintAddress(ip) + hostText + ":" + containerText + "/" + protocol
  }

  predicate PrintableAddress(ip: string) { '/' !in ip && '[' !in ip && ']' !in ip }

  predicate Bare(s: string) { '[' !in s && ']' !in s }

  lemma SplitHostPortPlain(ip: string, hostText: string)
    requires Bare(ip) && ':' !in ip && Bare(hostText) && ':' !in hostText
    ensures SplitHostPort(ip + ":" + hostText) == Some((ip, hostText))
  {
    var s := ip + [':'] + hostText;
    LastIndexBeforeSuffix(ip, ':', hostText);
    assert s[..|ip|] == ip && s[|ip| + 1..] == hostText;
    assert s[0] == if ip == "" then ':' else ip[0];
    assert ip != "" ==> ip[0] in ip;
  }

  lemma SplitHostPortBrackets(ip: string, hostText: string)
    requires Bare(ip) && Bare(hostText) && ':' !in hostText
    ensures SplitHostPort("[" + ip + "]:" + hostText) == Some((ip, hostText))
  {
    var s := "[" + ip + "]:" + hostText;
    var h := "[" + ip;
    assert s == h + [']'] + (":" + hostText);
    IndexAfterPrefix(h, ']', ":" + hostText);
    assert s == (h + "]") + [':'] + hostText;
    LastIndexBeforeSuffix(h + "]", ':', hostText);
    assert s[1..|h|] == ip;
    assert s[|h| + 1..] == ":" + hostText;
    assert s[1..] == ip + "]" + ":" + hostText;
    assert s[|h| + 2..] == hostText;
  }

  /** The forms of an address with a port, and no others: a plain address, or anything in brackets. */
  lemma SplitHostPortExactly(s: string, ip: string, hostText: string)
    ensures SplitHostPort(s) == Some((ip, hostText)) <==>
      && Bare(ip) && Bare(hostText) && ':' !in hostText
      && ((':' !in ip && s == ip + ":" + hostText) || s == "[" + ip + "]:" + hostText)
  {
    if Bare(ip) && Bare(hostText) && ':' !in hostText {
      SplitHostPortBrackets(ip, hostText);
      if ':' !in ip { SplitHostPortPlain(ip, hostText); }
    }
    if SplitHostPort(s) == Some((ip, hostText)) { SplitHostPortForms(s, ip, hostText); }
  }

  lemma SplitHostPortForms(s: string, ip: string, hostText: string)
    requires SplitHostPort(s) == Some((ip, hostText))
    ensures Bare(ip) && Bare(hostText) && ':' !in hostText
    ensures (':' !in ip && s == ip + ":" + hostText) || s == "[" + ip + "]:" + hostText
  {
    LastIndexOfLast(s, ':');
    IndexOfFirst(s, ']');
    var i := LastIndexOf(s, ':');
    if s[0] == '[' {
      var end := IndexOf(s, ']');
      assert s == s[..1] + s[1..end] + s[end..i + 1] + s[i + 1..];
      assert s[..1] == "[" && s[end..i + 1] == "]:";
      assert forall c :: c in ip ==> c in s[1..] && c in s[..end];
      assert forall c :: c in hostText ==> c in s[1..] && c in s[end + 1..];
    } else {
      assert s == s[..i] + [s[i]] + s[i + 1..];
    }
  }

  lemma NoColon(t: string)
    requires ':' !in t
    ensures SplitHostPort(t) == None
  {
    LastIndexOfLast(t, ':');
  }

  /** The printed parts are read back, whatever the address: IPv4, IPv6 or none. */
  lemma SplitPartsPrinted(ip: string, hostText: string, containerText: string)
    requires PrintableAddress(ip) && PlainText(hostText) && PlainText(containerText)
    ensures SplitParts(PrintAddress(ip) + hostText + ":" + containerText) == (ip, hostText, containerText)
  {
    var addr := PrintAddress(ip) + hostText;
    var raw := addr + [':'] + containerText;
    LastIndexBeforeSuffix(addr, ':', containerText);
    assert raw[..|addr|] == addr && raw[|addr| + 1..] == containerText;
    if ip == "" {
      assert addr == hostText;
      NoColon(hostText);
    } else if ':' in ip {
      SplitHostPortBrackets(ip, hostText);
    } else {
      SplitHostPortPlain(ip, hostText);
    }
  }

  /** What is neither form is host ports without an address; without a colon there are container ports only. */
  lemma SplitPartsOtherwise(addr: string, containerText: string)
    requires ':' !in containerText && SplitHostPort(addr) == None
    ensures SplitParts(addr + ":" + containerText) == ("", addr, containerText)
    ensures SplitParts(containerText) == ("", "", containerText)
  {
    var raw := addr + [':'] + containerText;
    LastIndexBeforeSuffix(addr, ':', containerText);
    assert raw == addr + ":" + containerText && raw[..|addr|] == addr && raw[|addr| + 1..] == containerText;
    LastIndexOfLast(containerText, ':');
  }

  lemma LowerKnown(p: string)
    requires KnownProtocol(p)
    ensures Lower(p) == p && '/' !in p
  {
  }

  lemma SplitPrinted(body: string, protocol: string)
    requires '/' !in body && KnownProtocol(protocol)
    ensures Split(body + "/" + protocol, '/') == [body, protocol]
  {
    LowerKnown(protocol);
    assert body + "/" + protocol == body + ['/'] + protocol;
    SplitHead(body, '/', protocol);
    SplitOne(protocol, '/');
  }

  /** Reading a printed mapping back decides exactly what was printed: same container range, same
      address and protocol, and the first of the host ports that were printed. */
  lemma ReadsBack(w: World, cursor: nat, ip: string, hostText: string, containerText: string, protocol: string,
                  lo: nat, hi: nat, first: nat, last: nat)
    requires PrintableAddress(ip) && (ip == "" || w.isIP(ip)) && KnownProtocol(protocol)
    requires PlainText(hostText) && hostText != "" && w.range(hostText) == Some((lo, hi))
    requires PlainText(containerText) && containerText != "" && w.range(containerText) == Some((first, last))
    requires first <= last && (hi - lo == last - first || first == last)
    requires w.used(ip, protocol).Some? && forall p :: lo <= p <= hi ==> p !in w.used(ip, protocol).value
    ensures Decide(Print(ip, hostText, containerText, protocol), w, cursor) == Ok(Plan(first, last, lo, protocol, ip))
  {
    var body := PrintAddress(ip) + hostText + ":" + containerText;
    assert '/' !in body;
    SplitPrinted(body, protocol);
    LowerKnown(protocol);
    SplitPartsPrinted(ip, hostText, containerText);
    var used := w.used(ip, protocol).value;
    FirstUsedIsLeast(used, lo, hi);
    assert FirstUsed(used, lo, hi) == None;
  }

  /** Without a protocol it is TCP. */
  lemma DefaultIsTcp(body: string, w: World, cursor: nat)
    requires '/' !in body
    ensures Decide(body, w, cursor) == Decide(body + "/tcp", w, cursor)
  {
    SplitOne(body, '/');
    SplitPrinted(body, "tcp");
    LowerKnown("tcp");
    assert body + "/tcp" == body + "/" + "tcp";
  }

  /** More than one slash, or a protocol that is not known. */
  lemma RefusedProtocols(body: string, protocol: string, more: string, w: World, cursor: nat)
    requires '/' !in body && '/' !in protocol
    ensures Decide(body + "/" + protocol + "/" + more, w, cursor) == Err(UnexpectedSlashes)
    ensures Lower(protocol) !in {"tcp", "udp", "sctp"} ==>
      Decide(body + "/" + protocol, w, cursor) == Err(InvalidProtocol)
  {
    SplitHead(body, '/', protocol);
    SplitOne(protocol, '/');
    assert body + ['/'] + protocol == body + "/" + protocol;
    SplitHead(body, '/', protocol + ['/'] + more);
    SplitHead(protocol, '/', more);
    assert body + ['/'] + (protocol + ['/'] + more) == body + "/" + protocol + "/" + more;
  }

  /** A mapping printed without a protocol is read back as one for TCP. */
  lemma BareReadsBack(w: World, cursor: nat, ip: string, hostText: string, containerText: string,
                      lo: nat, hi: nat, first: nat, last: nat)
    requires PrintableAddress(ip) && (ip == "" || w.isIP(ip))
    requires PlainText(hostText) && hostText != "" && w.range(hostText) == Some((lo, hi))
    requires PlainText(containerText) && containerText != "" && w.range(containerText) == Some((first, last))
    requires first <= last && (hi - lo == last - first || first == last)
    requires w.used(ip, "tcp").Some? && forall p :: lo <= p <= hi ==> p !in w.used(ip, "tcp").value
    ensures Decide(PrintAddress(ip) + hostText + ":" + containerText, w, cursor) == Ok(Plan(first, last, lo, "tcp", ip))
  {
    BareText(ip, hostText, containerText);
    DefaultIsTcp(PrintAddress(ip) + hostText + ":" + containerText, w, cursor);
    ReadsBack(w, cursor, ip, hostText, containerText, "tcp", lo, hi, first, last);
  }

  lemma BareText(ip: string, hostText: string, containerText: string)
    requires PrintableAddress(ip) && PlainText(hostText) && PlainText(containerText)
    ensures var body := PrintAddress(ip) + hostText + ":" + containerText;
      '/' !in body && body + "/tcp" == Print(ip, hostText, containerText, "tcp")
  {
  }

  /** Three protocols are known, in small letters or capitals. */
  lemma Protocols(p: string)
    ensures KnownProtocol(p) <==> p == "tcp" || p == "udp" || p == "sctp"
    ensures Lower("TCP") == "tcp" && Lower("UDP") == "udp" && Lower("SCTP") == "sctp"
  {
  }

  /** Named host ports: which are refused, and for what. One container port takes the first of several host
      ports; otherwise the ranges must be equally long. */
  lemma NamedHostPorts(q: Request, w: World, cursor: nat, lo: nat, hi: nat)
    requires q.first <= q.last && q.hostText != ""
    ensures w.range(q.hostText).None? ==> Chosen(q, w, cursor) == Err(InvalidHostPort)
    ensures w.range(q.hostText).Some? && w.used(q.ip, q.protocol).None? ==> Chosen(q, w, cursor) == Err(CannotReadUsed)
    ensures w.range(q.hostText) == Some((lo, hi)) && w.used(q.ip, q.protocol).Some? ==>
      var used, r := w.used(q.ip, q.protocol).value, Chosen(q, w, cursor);
      if exists p :: lo <= p <= hi && p in used then r.Err? && r.error.AlreadyAllocated?
      else r == if hi - lo == q.last - q.first || q.first == q.last then Ok(lo) else Err(InvalidRanges)
  {
    if w.used(q.ip, q.protocol).Some? { FirstUsedIsLeast(w.used(q.ip, q.protocol).value, lo, hi); }
  }

  /** No host ports: a block is allocated, but never without root privileges. */
  lemma UnnamedHostPorts(q: Request, w: World, cursor: nat)
    requires q.first <= q.last && q.hostText == ""
    ensures w.rootless ==> Chosen(q, w, cursor) == Err(NotForRootless)
    ensures !w.rootless && w.used(q.ip, q.protocol).None? ==> Chosen(q, w, cursor) == Err(CannotAllocate)
    ensures !w.rootless && w.used(q.ip, q.protocol).Some? ==>
      var block := Allocate(cursor, w.used(q.ip, q.protocol).value, q.last - q.first + 1);
      Chosen(q, w, cursor) == if block.Some? then Ok(block.value) else Err(CannotAllocate)
  {
  }

  /** What a text asks for, part by part. */
  lemma AskedParts(ip: string, hostText: string, containerText: string, w: World)
    requires PrintableAddress(ip) && PlainText(hostText) && PlainText(containerText)
    ensures var body := PrintAddress(ip) + hostText + ":" + containerText;
      Asked(body, w) ==
        if containerText == "" then Err(NoPort)
        else if w.range(containerText).None? || w.range(containerText).value.0 > w.range(containerText).value.1
        then Err(InvalidContainerPort)
        else Ok(Request("tcp", ip, hostText, w.range(containerText).value.0, w.range(containerText).value.1))
  {
    var body := PrintAddress(ip) + hostText + ":" + containerText;
    assert '/' !in body;
    SplitOne(body, '/');
    SplitPartsPrinted(ip, hostText, containerText);
  }

  // ----- the parser -----

  /** The mappings of a plan: the container's ports in order, on consecutive host ports. */
  ghost predicate Maps(p: Plan, mr: seq<PortMapping>) {
    && |mr| == p.last - p.first + 1
    && forall i :: 0 <= i < |mr| ==>
      mr[i] == PortMapping(p.host + i, p.first + i, p.protocol, if p.ip == "" then "0.0.0.0" else p.ip)
  }

  /** Order is kept and no two container ports share a host port, nor two host ports a container port. */
  lemma MappingIsOneToOne(p: Plan, mr: seq<PortMapping>, i: nat, j: nat)
    requires p.first <= p.last && Maps(p, mr) && i < |mr| && j < |mr|
    ensures mr[i].hostPort < mr[j].hostPort <==> mr[i].containerPort < mr[j].containerPort
    ensures mr[i].hostPort == mr[j].hostPort <==> i == j
    ensures mr[i].hostPort - mr[i].containerPort == mr[j].hostPort - mr[j].containerPort
    ensures mr[0].containerPort == p.first && mr[|mr| - 1].containerPort == p.last && mr[0].hostPort == p.host
    ensures mr[i].protocol == p.protocol && mr[i].hostIP == if p.ip == "" then "0.0.0.0" else p.ip
  {
  }

  /** Choosing the first host port: allocated when none is named, checked against those in use otherwise. */
  method ChooseHost(w: World, alloc: Allocator, ip: string, hostText: string, protocol: string, first: nat, last: nat)
    returns (r: Result<nat>)
    requires first <= last && Sane(w)
    modifies alloc
    ensures r == HostStart(w, old(alloc.allocateStart), ip, hostText, protocol, first, last)
    ensures hostText != "" || r.Err? ==> alloc.allocateStart == old(alloc.allocateStart)
    ensures hostText == "" && r.Ok? ==> alloc.allocateStart == r.value + (last - first + 1)
  {
    if hostText == "" {
      if w.rootless { return Err(NotForRootless); }
      var used := w.used(ip, protocol);
      if used.None? { return Err(CannotAllocate); }
      var block := alloc.PortAllocate(used.value, last - first + 1);
      if block.None? { return Err(CannotAllocate); }
      r := Ok(block.value.0);
    } else {
      var range := w.range(hostText);
      if range.None? { return Err(InvalidHostPort); }
      var (lo, hi) := range.value;
      var used := w.used(ip, protocol);
      if used.None? { return Err(CannotReadUsed); }
      var i: nat := lo;
      while i <= hi
        invariant lo <= i && (lo <= hi ==> i <= hi + 1)
        invariant FirstUsed(used.value, lo, hi) == FirstUsed(used.value, i, hi)
        decreases (hi as int) - i
      {
        if i in used.value { return Err(AlreadyAllocated(i)); }
        i := i + 1;
      }
      if last - first != hi - lo {
        if last != first { return Err(InvalidRanges); }
      }
      r := Ok(lo);
    }
  }

  /** The loop over the container's ports; each round looks at the address again. */
  method BuildMappings(w: World, p: Plan) returns (r: Result<seq<PortMapping>>)
    requires p.first <= p.last
    ensures if p.ip != "" && !w.isIP(p.ip) then r == Err(InvalidIP) else r.Ok? && Maps(p, r.value)
  {
    var mr: seq<PortMapping> := [];
    var i := 0;
    while i <= p.last - p.first
      invariant 0 <= i <= p.last - p.first + 1
      invariant |mr| == i && (i > 0 ==> p.ip == "" || w.isIP(p.ip))
      invariant forall k :: 0 <= k < i ==>
        mr[k] == PortMapping(p.host + k, p.first + k, p.protocol, if p.ip == "" then "0.0.0.0" else p.ip)
    {
      var hostIP := "0.0.0.0";
      if p.ip != "" {
        if !w.isIP(p.ip) { return Err(InvalidIP); }
        hostIP := p.ip;
      }
      mr := mr + [PortMapping(p.host + i, p.first + i, p.protocol, hostIP)];
      i := i + 1;
    }
    r := Ok(mr);
  }

  /** The block that parsing takes from the allocator, if no host port is named: it is taken before the
      address is looked at. */
  function Reserved(s: string, w: World, cursor: nat): Option<(nat, nat)> {
    match Asked(s, w)
    case Err(_) => None
    case Ok(q) =>
      if q.hostText != "" then None
      else
        match Chosen(q, w, cursor)
        case Err(_) => None
        case Ok(host) => Some((host, host + (q.last - q.first)))
  }

  /** With host ports named nothing is taken; without them it is the block that is allocated, whatever the
      address. */
  lemma ReservedParts(ip: string, hostText: string, containerText: string, w: World, cursor: nat,
                      first: nat, last: nat)
    requires PrintableAddress(ip) && PlainText(hostText) && PlainText(containerText) && containerText != ""
    requires w.range(containerText) == Some((first, last)) && first <= last
    ensures var taken := Reserved(PrintAddress(ip) + hostText + ":" + containerText, w, cursor);
      if hostText != "" || w.rootless || w.used(ip, "tcp").None? then taken == None
      else
        var block := Allocate(cursor, w.used(ip, "tcp").value, last - first + 1);
        taken == if block.Some? then Some((block.value, block.value + (last - first))) else None
  {
    AskedParts(ip, hostText, containerText, w);
    UnnamedHostPorts(Request("tcp", ip, "", first, last), w, cursor);
  }

  /** The first part of `ParseFlagP`, which only reads the text. */
  method ReadRequest(s: string, w: World) returns (r: Result<Request>)
    requires Sane(w)
    ensures r == Asked(s, w)
  {
    var proto := "tcp";
    var splitBySlash := Split(s, '/');
    if |splitBySlash| == 2 {
      proto := Lower(splitBySlash[1]);
      if !KnownProtocol(proto) { return Err(InvalidProtocol); }
    } else if |splitBySlash| != 1 {
      return Err(UnexpectedSlashes);
    }
    var (ip, hostPort, containerPort) := SplitParts(splitBySlash[0]);
    if containerPort == "" { return Err(NoPort); }
    var range := w.range(containerPort);
    if range.None? { return Err(InvalidContainerPort); }
    var (startPort, endPort) := range.value;
    r := Ok(Request(proto, ip, hostPort, startPort, endPort));
  }

  /** `ParseFlagP`. */
  method ParseFlagP(s: string, w: World, alloc: Allocator) returns (r: Result<seq<PortMapping>>)
    requires Sane(w)
    modifies alloc
    ensures match Decide(s, w, old(alloc.allocateStart))
      case Err(e) => r == Err(e)
      case Ok(plan) => r.Ok? && Maps(plan, r.value)
    ensures alloc.allocateStart == match Reserved(s, w, old(alloc.allocateStart))
      case None => old(alloc.allocateStart)
      case Some(block) => block.1 + 1
  {
    var request := ReadRequest(s, w);
    if request.Err? { return Err(request.error); }
    var q := request.value;
    var host := ChooseHost(w, alloc, q.ip, q.hostText, q.protocol, q.first, q.last);
    if host.Err? { return Err(host.error); }
    r := BuildMappings(w, Plan(q.first, q.last, host.value, q.protocol, q.ip));
  }
}

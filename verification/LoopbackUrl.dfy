/**
  Literal-loopback base URLs: what is accepted, and that printing an accepted URL and parsing it again changes
  nothing.
 */
module LoopbackUrl {
  import opened Results
  import opened Ascii
  import opened Bytes
  import opened Decimals
  import opened Utf8

  datatype BaseUrl = BaseUrl(host: bytes, port: nat, basePath: bytes, ipv6: bool)

  const SCHEME: bytes := [0x68, 0x74, 0x74, 0x70, 0x3A, 0x2F, 0x2F]
  const LOCALHOST_6: bytes := [0x3A, 0x3A, 0x31]

  // ---------------------------------------------------------------- searching

  function Find(s: bytes, c: byte, from: nat): (r: Option<nat>)
    requires from <= |s|
    ensures r.Some? ==> from <= r.value < |s| && s[r.value] == c && c !in s[from..r.value]
    ensures r.None? ==> c !in s[from..]
    decreases |s| - from
  {
    if from == |s| then None
    else if s[from] == c then Some(from)
    else
      var r := Find(s, c, from + 1);
      assert s[from..] == [s[from]] + s[from + 1..];
      assert r.Some? ==> s[from..r.value] == [s[from]] + s[from + 1..r.value];
      r
  }

  lemma {:induction false} FindIs(s: bytes, c: byte, from: nat, at: nat)
    requires from <= at < |s| && s[at] == c && c !in s[from..at]
    ensures Find(s, c, from) == Some(at)
    decreases at - from
  {
    if from < at {
      assert s[from..at][0] == s[from] && s[from + 1..at] == s[from..at][1..];
      FindIs(s, c, from + 1, at);
    }
  }

  lemma FindNone(s: bytes, c: byte)
    requires c !in s
    ensures Find(s, c, 0) == None
  {
    assert s[0..] == s;
  }

  // ---------------------------------------------------------------- ports

  function ParsePort(text: bytes): Option<nat> {
    if text == [] then Some(80)
    else if |text| > 5 || !AllDigits(text) then None
    else if |text| > 1 && text[0] == ZERO then None
    else if Decimal(text) == 0 || Decimal(text) > 65535 then None
    else Some(Decimal(text))
  }

  lemma PortRoundTrip(port: nat)
    requires 1 <= port <= 65535
    ensures ParsePort(Print(port)) == Some(port)
  {
    PrintedValue(port);
    PrintedShort(port);
  }

  /** Apart from the empty text, a port text is accepted exactly when it is the canonical decimal of a port. */
  lemma PortExact(text: bytes)
    requires text != []
    ensures ParsePort(text).Some? <==> exists port: nat :: 1 <= port <= 65535 && text == Print(port)
  {
    if ParsePort(text).Some? {
      ValuePrinted(text);
    }
    if exists port: nat :: 1 <= port <= 65535 && text == Print(port) {
      var port: nat :| 1 <= port <= 65535 && text == Print(port);
      PortRoundTrip(port);
    }
  }

  // ---------------------------------------------------------------- IPv4 literals

  /** Canonical decimals separated by dots. */
  function Dotted(os: seq<nat>): bytes
    requires os != []
  {
    if |os| == 1 then Print(os[0]) else Print(os[0]) + ([DOT] + Dotted(os[1..]))
  }

  predicate AreOctets(os: seq<nat>) {
    forall i :: 0 <= i < |os| ==> os[i] <= 255
  }

  predicate OctetOk(part: bytes) {
    Canonical(part) && Decimal(part) <= 255
  }

  /** The octets from `start` on, `left` of them, each ended by a dot but the last. */
  predicate OctetsOk(host: bytes, start: nat, left: nat)
    requires start <= |host| && left >= 1
    decreases left
  {
    if left == 1 then OctetOk(host[start..])
    else
      match Find(host, DOT, start)
      case None => false
      case Some(end) => OctetOk(host[start..end]) && OctetsOk(host, end + 1, left - 1)
  }

  predicate Loopback4(host: bytes) {
    && OctetsOk(host, 0, 4)
    && var end := Find(host, DOT, 0).value;
       Decimal(host[..end]) == 127
  }

  method ValidIpv4Loopback(host: bytes) returns (ok: bool)
    ensures ok <==> exists os: seq<nat> :: |os| == 4 && os[0] == 127 && AreOctets(os) && host == Dotted(os)
    ensures ok <==> Loopback4(host)
  {
    LoopbackExact(host);
    hide Decimal, AllDigits, Find, AreOctets, Dotted;
    var octets := new nat[4](_ => 0);
    var start := 0;
    for index := 0 to 4
      invariant index < 4 ==> start <= |host| && (OctetsOk(host, 0, 4) <==> OctetsOk(host, start, 4 - index))
      invariant index == 4 ==> OctetsOk(host, 0, 4)
      invariant index == 0 ==> start == 0
      invariant index > 0 ==> Find(host, DOT, 0).Some? && octets[0] == DigitsValue(host[..Find(host, DOT, 0).value])
    {
      var found := Find(host, DOT, start);
      if index != 3 && found.None? {
        return false;
      }
      var end := if index == 3 then |host| else found.value;
      if end == start {
        return false;
      }
      var part := host[start..end];
      assert index == 3 ==> part == host[start..];
      assert index == 0 ==> part == host[..end];
      if |part| > 1 && part[0] == ZERO {
        return false;
      }
      if !AllDigits(part) {
        return false;
      }
      var value := Decimal(part);
      if value > 255 {
        return false;
      }
      octets[index] := value;
      start := end + 1;
    }
    return octets[0] == 127;
  }

  function DigitsValue(s: bytes): nat {
    if AllDigits(s) then Decimal(s) else 0
  }

  /** What the octets read are. */
  lemma {:induction false} OctetsFound(host: bytes, start: nat, left: nat) returns (os: seq<nat>)
    requires start <= |host| && left >= 1 && OctetsOk(host, start, left)
    ensures |os| == left && AreOctets(os) && host[start..] == Dotted(os)
    ensures left > 1 ==> os[0] == Decimal(host[start..Find(host, DOT, start).value])
    decreases left
  {
    hide Find, Decimal, Print, AllDigits, Canonical, OctetOk;
    if left == 1 {
      PartValue(host[start..]);
      os := [Decimal(host[start..])];
    } else {
      var end := Find(host, DOT, start).value;
      PartValue(host[start..end]);
      var rest := OctetsFound(host, end + 1, left - 1);
      os := [Decimal(host[start..end])] + rest;
      assert os[1..] == rest;
      assert host[start..] == host[start..end] + ([DOT] + host[end + 1..]);
    }
  }

  lemma PartValue(part: bytes)
    requires OctetOk(part)
    ensures AllDigits(part) && Decimal(part) <= 255 && Print(Decimal(part)) == part
  {
    ValuePrinted(part);
  }

  lemma NoDot(s: bytes, c: byte)
    requires AllDigits(s) && !IsDigit(c)
    ensures c !in s
  {
  }

  /** Octets printed with dots are read back. */
  lemma {:induction false} OctetsRead(host: bytes, start: nat, os: seq<nat>)
    requires start <= |host| && os != [] && AreOctets(os) && host[start..] == Dotted(os)
    ensures OctetsOk(host, start, |os|)
    ensures |os| > 1 ==> Find(host, DOT, start) == Some(start + |Print(os[0])|)
    ensures |os| > 1 ==> host[start..start + |Print(os[0])|] == Print(os[0])
    decreases |os|
  {
    var first := Print(os[0]);
    PrintedOctet(os[0]);
    hide Find, Decimal, Print, AllDigits, Canonical, OctetOk;
    if |os| > 1 {
      var end := start + |first|;
      DotAfter(host, start, first, Dotted(os[1..]));
      hide Dotted;
      FindIs(host, DOT, start, end);
      OctetsRead(host, end + 1, os[1..]);
    }
  }

  lemma PrintedOctet(n: nat)
    ensures n <= 255 ==> OctetOk(Print(n))
    ensures DOT !in Print(n)
  {
    PrintedValue(n);
    NoDot(Print(n), DOT);
  }

  lemma DotAfter(host: bytes, start: nat, first: bytes, rest: bytes)
    requires start <= |host| && host[start..] == first + ([DOT] + rest)
    ensures var end := start + |first|;
            end < |host| && host[start..end] == first && host[end] == DOT && host[end + 1..] == rest
  {
    var end := start + |first|;
    assert host[start..end] == host[start..][..|first|];
    assert host[end] == host[start..][|first|];
    assert host[end + 1..] == host[start..][|first| + 1..];
  }

  /** The check accepts exactly the canonical texts of addresses in 127/8. */
  lemma LoopbackExact(host: bytes)
    ensures Loopback4(host) <==>
            exists os: seq<nat> :: |os| == 4 && os[0] == 127 && AreOctets(os) && host == Dotted(os)
  {
    hide Dotted, Print, Decimal, AreOctets, Find;
    if Loopback4(host) {
      var os := OctetsFound(host, 0, 4);
      assert host[0..] == host;
    }
    if exists os: seq<nat> :: |os| == 4 && os[0] == 127 && AreOctets(os) && host == Dotted(os) {
      var os: seq<nat> :| |os| == 4 && os[0] == 127 && AreOctets(os) && host == Dotted(os);
      assert host[0..] == host;
      OctetsRead(host, 0, os);
      PrintedValue(127);
    }
  }

  // ---------------------------------------------------------------- paths

  /** A "." or ".." segment starts after the slash at `i`. */
  predicate DotSegment(path: bytes, i: nat)
    requires i < |path|
  {
    && path[i] == SLASH
    && ((i + 1 < |path| && path[i + 1] == DOT && (i + 2 == |path| || path[i + 2] == SLASH))
        || (i + 2 < |path| && path[i + 1] == DOT && path[i + 2] == DOT && (i + 3 == |path| || path[i + 3] == SLASH)))
  }

  /** An absolute path of plain segments: none empty but perhaps the last, none "." or "..", no escapes. */
  predicate PathOk(path: bytes) {
    && path != [] && path[0] == SLASH && BACKSLASH !in path && 0x25 !in path
    && (forall i :: 0 <= i < |path| - 1 ==> path[i] == SLASH ==> path[i + 1] != SLASH)
    && forall i :: 0 <= i < |path| ==> !DotSegment(path, i)
  }

  method ValidPath(path: bytes) returns (ok: bool)
    ensures ok <==> PathOk(path)
  {
    if |path| == 0 || path[0] != SLASH {
      return false;
    }
    for i := 0 to |path| - 1
      invariant forall j :: 0 <= j < i ==> path[j] == SLASH ==> path[j + 1] != SLASH
    {
      if path[i] == SLASH && path[i + 1] == SLASH {
        return false;
      }
    }
    if BACKSLASH in path || 0x25 in path {
      return false;
    }
    var start := 1;
    while start <= |path|
      invariant 1 <= start <= |path| && path[start - 1] == SLASH
      invariant forall i :: 0 <= i < start - 1 ==> !DotSegment(path, i)
      decreases |path| - start
    {
      var found := Find(path, SLASH, start);
      var end := if found.Some? then found.value else |path|;
      var part := path[start..end];
      SegmentPart(path, start, end);
      if part == [DOT] || part == [DOT, DOT] {
        return false;
      }
      if found.None? {
        break;
      }
      start := end + 1;
    }
    return true;
  }

  lemma SegmentPart(path: bytes, start: nat, end: nat)
    requires 1 <= start <= end <= |path| && path[start - 1] == SLASH && SLASH !in path[start..end]
    requires end < |path| ==> path[end] == SLASH
    ensures DotSegment(path, start - 1) <==> path[start..end] == [DOT] || path[start..end] == [DOT, DOT]
    ensures forall i :: start <= i < end ==> !DotSegment(path, i)
  {
    var part := path[start..end];
    assert forall i :: start <= i < end ==> path[i] == part[i - start] && path[i] != SLASH;
    if DotSegment(path, start - 1) {
      if start < end && (start + 1 == |path| || path[start + 1] == SLASH) {
        assert end == start + 1;
      }
    }
  }

  // ---------------------------------------------------------------- the whole URL

  predicate HasControl(s: bytes) {
    exists i :: 0 <= i < |s| && (s[i] <= 0x1F || s[i] == 0x7F)
  }

  /** No control characters, no query and no fragment. */
  predicate Plain(s: bytes) {
    !HasControl(s) && 0x3F !in s && 0x23 !in s
  }

  /** An authority's host, whether it is the IPv6 literal, and its port text. */
  datatype Authority = Authority(host: bytes, ipv6: bool, portText: bytes)

  function SplitAuthority(authority: bytes): Option<Authority>
    requires authority != []
  {
    if authority[0] == OPEN_BRACKET then
      match Find(authority, CLOSE_BRACKET, 0)
      case None => None
      case Some(close) =>
        if authority[1..close] != LOCALHOST_6 then None
        else if close + 1 == |authority| then Some(Authority(LOCALHOST_6, true, []))
        else if authority[close + 1] != COLON then None
        else Some(Authority(LOCALHOST_6, true, authority[close + 2..]))
    else
      match Find(authority, COLON, 0)
      case None => if Loopback4(authority) then Some(Authority(authority, false, [])) else None
      case Some(colon) =>
        if COLON in authority[colon + 1..] || !Loopback4(authority[..colon]) then None
        else Some(Authority(authority[..colon], false, authority[colon + 1..]))
  }

  /** A path without the slash it may end in. */
  function StripSlash(path: bytes): bytes {
    if |path| > 1 && path[|path| - 1] == SLASH then path[..|path| - 1] else path
  }

  /** `parseLoopbackBaseUrl` after the scheme has been recognised. */
  function ParseRest(rest: bytes): Result<BaseUrl> {
    var slash := Find(rest, SLASH, 0);
    var authority := if slash.Some? then rest[..slash.value] else rest;
    var path := if slash.Some? then rest[slash.value..] else [SLASH];
    if authority == [] || 0x40 in authority || !PathOk(path) then Err(InvalidUrl)
    else
      match SplitAuthority(authority)
      case None => Err(InvalidUrl)
      case Some(a) =>
        match ParsePort(a.portText)
        case None => Err(InvalidUrl)
        case Some(port) => Ok(BaseUrl(a.host, port, StripSlash(path), a.ipv6))
  }

  function Parse(input: bytes): Result<BaseUrl> {
    if input == [] || !Valid(input) || !Plain(input) then Err(InvalidUrl)
    else if !(SCHEME <= input) then Err(InvalidUrl)
    else ParseRest(input[|SCHEME|..])
  }

  function HostText(r: BaseUrl): bytes {
    if r.ipv6 then [OPEN_BRACKET] + r.host + [CLOSE_BRACKET] else r.host
  }

  function AuthorityText(r: BaseUrl): bytes {
    HostText(r) + (if r.port == 80 then [] else [COLON] + Print(r.port))
  }

  /** What the transport's constructor prints before it parses it again. */
  function Canonicalised(r: BaseUrl): bytes {
    SCHEME + (AuthorityText(r) + r.basePath)
  }

  // ---------------------------------------------------------------- exactly which URLs are accepted

  /** How a port may be spelled: left out or left empty when it is 80, or in canonical decimal. */
  predicate PortSpelling(text: bytes, port: nat) {
    (port == 80 && (text == [] || text == [COLON])) || text == [COLON] + Print(port)
  }

  /** How a base path may be spelled: as it is, with a slash more, or left out when it is the root. */
  predicate PathSpelling(text: bytes, path: bytes) {
    text == path || (path == [SLASH] && text == []) || (|path| > 1 && text == path + [SLASH])
  }

  /** `input` is the scheme, the host, a spelling of the port and a spelling of the path of an acceptable URL. */
  ghost predicate Spells(input: bytes, r: BaseUrl, port: bytes, path: bytes) {
    Accepted(r) && PortSpelling(port, r.port) && PathSpelling(path, r.basePath)
    && input == SCHEME + ((HostText(r) + port) + path)
  }

  /** What an accepted URL consists of. */
  ghost predicate Accepted(r: BaseUrl) {
    && 1 <= r.port <= 65535
    && (if r.ipv6 then r.host == LOCALHOST_6 else Loopback4(r.host))
    && PathOk(r.basePath) && StripSlash(r.basePath) == r.basePath && Plain(r.basePath) && Valid(r.basePath)
  }

  lemma PlainPart(s: bytes, i: nat, j: nat)
    requires Plain(s) && i <= j <= |s|
    ensures Plain(s[i..j])
  {
    assert forall k :: 0 <= k < j - i ==> s[i..j][k] == s[i + k];
  }

  /** Dropping the last slash keeps a path a path. */
  lemma StrippedPath(path: bytes)
    requires PathOk(path) && Plain(path) && Valid(path)
    ensures var p := StripSlash(path); PathOk(p) && StripSlash(p) == p && Plain(p) && Valid(p)
  {
    var p := StripSlash(path);
    if p != path {
      assert p == path[0..|path| - 1];
      PlainPart(path, 0, |path| - 1);
      assert path == p + [SLASH] + [];
      ValidCut(p, SLASH, []);
      assert |path| >= 3 by {
        assert path[0] == SLASH && |path| > 1;
      }
      forall i | 0 <= i < |p| ensures !DotSegment(p, i) {
        assert !DotSegment(path, i);
      }
      assert path[|path| - 2] != SLASH;
    }
  }

  lemma PathOfRest(input: bytes, slash: nat)
    requires Plain(input) && Valid(input) && slash < |input| && input[slash] == SLASH
    ensures Plain(input[slash..]) && Valid(input[slash..])
  {
    PlainPart(input, slash, |input|);
    assert input[slash..] == input[slash..|input|];
    var path := input[slash..];
    assert input == input[..slash] + [SLASH] + path[1..];
    AsciiCut(Ready, input[..slash], SLASH, path[1..]);
    assert path == [SLASH] + path[1..];
    assert Run(Ready, path) == Run(Ready, path[1..]);
  }

  lemma RootPath()
    ensures PathOk([SLASH]) && Plain([SLASH]) && Valid([SLASH]) && StripSlash([SLASH]) == [SLASH]
  {
    assert Run(Ready, [SLASH]) == Run(Ready, [SLASH][1..]);
  }

  /** A port text stands behind a colon, or nothing stands there at all. */
  predicate PortPart(port: bytes, text: bytes) {
    (port == [] && text == []) || port == [COLON] + text
  }

  /** What a successful split says about the authority's text. */
  lemma SplitSound(authority: bytes) returns (port: bytes)
    requires authority != [] && SplitAuthority(authority).Some?
    ensures var a := SplitAuthority(authority).value;
            && (if a.ipv6 then a.host == LOCALHOST_6 else Loopback4(a.host)) && PortPart(port, a.portText)
            && authority == HostText(BaseUrl(a.host, 80, [], a.ipv6)) + port
  {
    hide Loopback4, Find;
    var a := SplitAuthority(authority).value;
    if a.ipv6 {
      port := SplitSound6(authority);
    } else if Find(authority, COLON, 0).None? {
      port := [];
    } else {
      port := [COLON] + a.portText;
      assert authority == a.host + port;
    }
  }

  lemma SplitSound6(authority: bytes) returns (port: bytes)
    requires authority != [] && SplitAuthority(authority).Some? && SplitAuthority(authority).value.ipv6
    ensures var a := SplitAuthority(authority).value;
            PortPart(port, a.portText) && authority == ([OPEN_BRACKET] + LOCALHOST_6 + [CLOSE_BRACKET]) + port
  {
    hide Loopback4;
    var a, close := SplitAuthority(authority).value, Find(authority, CLOSE_BRACKET, 0).value;
    assert close != 0;
    assert authority[..close + 1] == [authority[0]] + authority[1..close] + [CLOSE_BRACKET];
    port := authority[close + 1..];
    assert authority == authority[..close + 1] + port;
    if close + 1 != |authority| {
      assert port == [COLON] + a.portText;
    }
  }

  /** An accepted port text, behind its colon if there is one, spells the port. */
  lemma PortSound(text: bytes, port: bytes)
    requires ParsePort(text).Some? && PortPart(port, text)
    ensures 1 <= ParsePort(text).value <= 65535 && PortSpelling(port, ParsePort(text).value)
  {
    if text == [] {
      assert [COLON] + text == [COLON];
    } else {
      ValuePrinted(text);
    }
  }

  lemma PathSound(path: bytes)
    requires PathOk(path)
    ensures PathSpelling(path, StripSlash(path))
  {
    var p := StripSlash(path);
    assert |path| >= 2 ==> path[1] != SLASH;
    if p != path {
      assert path == p + [SLASH];
    }
  }

  /** The authority and the path of a URL after its scheme; no path stands for the root. */
  function AuthorityOf(rest: bytes): bytes {
    var slash := Find(rest, SLASH, 0);
    if slash.Some? then rest[..slash.value] else rest
  }

  function PathOf(rest: bytes): bytes {
    var slash := Find(rest, SLASH, 0);
    if slash.Some? then rest[slash.value..] else []
  }

  function FullPath(path: bytes): bytes {
    if path == [] then [SLASH] else path
  }

  lemma RestSplits(rest: bytes)
    ensures rest == AuthorityOf(rest) + PathOf(rest)
    ensures PathOf(rest) != [] ==> PathOf(rest)[0] == SLASH
    ensures ParseRest(rest)
            == var authority, full := AuthorityOf(rest), FullPath(PathOf(rest));
               if authority == [] || 0x40 in authority || !PathOk(full) then Err(InvalidUrl)
               else
                 match SplitAuthority(authority)
                 case None => Err(InvalidUrl)
                 case Some(a) =>
                   match ParsePort(a.portText)
                   case None => Err(InvalidUrl)
                   case Some(port) => Ok(BaseUrl(a.host, port, StripSlash(full), a.ipv6))
  {
    hide PathOk, SplitAuthority, ParsePort, StripSlash;
  }

  /** The path of plain, valid input is plain and valid. */
  lemma PathClean(input: bytes)
    requires Plain(input) && Valid(input) && SCHEME <= input
    ensures var full := FullPath(PathOf(input[|SCHEME|..])); Plain(full) && Valid(full)
  {
    var rest := input[|SCHEME|..];
    var slash := Find(rest, SLASH, 0);
    hide Plain, Valid, Find;
    if slash.Some? {
      var at := |SCHEME| + slash.value;
      assert input[at..] == rest[slash.value..] && input[at] == SLASH;
      PathOfRest(input, at);
    } else {
      RootPath();
    }
  }

  /** Whatever parses is a spelling of what it parses to. */
  lemma ParseSound(input: bytes) returns (port: bytes, path: bytes)
    requires Parse(input).Ok?
    ensures Spells(input, Parse(input).value, port, path)
  {
    var rest := input[|SCHEME|..];
    PathClean(input);
    assert input == SCHEME + rest;
    hide *;
    ParseIsRest(input);
    RestSplits(rest);
    path := PathOf(rest);
    var authority, full := AuthorityOf(rest), FullPath(path);
    port := SplitSound(authority);
    var a := SplitAuthority(authority).value;
    PortSound(a.portText, port);
    FullSpelling(path);
    StrippedPath(full);
    SpellsIs(input, BaseUrl(a.host, ParsePort(a.portText).value, StripSlash(full), a.ipv6), port, path);
  }

  lemma ParseIsRest(input: bytes)
    requires Parse(input).Ok?
    ensures SCHEME <= input && Parse(input) == ParseRest(input[|SCHEME|..])
  {
    hide ParseRest;
  }

  lemma SpellsIs(input: bytes, r: BaseUrl, port: bytes, path: bytes)
    requires 1 <= r.port <= 65535 && (if r.ipv6 then r.host == LOCALHOST_6 else Loopback4(r.host))
    requires PathOk(r.basePath) && StripSlash(r.basePath) == r.basePath && Plain(r.basePath) && Valid(r.basePath)
    requires PortSpelling(port, r.port) && PathSpelling(path, r.basePath)
    requires input == SCHEME + ((HostText(BaseUrl(r.host, 80, [], r.ipv6)) + port) + path)
    ensures Spells(input, r, port, path)
  {
    hide Loopback4, PathOk, StripSlash, Plain, Valid, PortSpelling, PathSpelling;
  }

  lemma FullSpelling(path: bytes)
    requires PathOk(FullPath(path))
    ensures PathSpelling(path, StripSlash(FullPath(path)))
  {
    if path == [] {
      RootSpelling();
    } else {
      PathSound(path);
    }
  }

  lemma RootSpelling()
    ensures StripSlash([SLASH]) == [SLASH] && PathSpelling([], [SLASH])
  {
  }

  // printing

  lemma QuadCharacters(host: bytes)
    requires Loopback4(host)
    ensures host != [] && forall i :: 0 <= i < |host| ==> host[i] == DOT || IsDigit(host[i])
  {
    hide Decimal;
    LoopbackExact(host);
    var os: seq<nat> :| |os| == 4 && os[0] == 127 && AreOctets(os) && host == Dotted(os);
    DottedCharacters(os);
  }

  lemma {:induction false} DottedCharacters(os: seq<nat>)
    requires os != []
    ensures Dotted(os) != [] && forall i :: 0 <= i < |Dotted(os)| ==> Dotted(os)[i] == DOT || IsDigit(Dotted(os)[i])
    decreases |os|
  {
    hide Print;
    if |os| > 1 {
      DottedCharacters(os[1..]);
    }
  }

  /** Every octet of a spelled authority is one of a few ASCII characters. */
  predicate AuthorityOctet(b: byte) {
    IsDigit(b) || b == DOT || b == COLON || b == OPEN_BRACKET || b == CLOSE_BRACKET
  }

  lemma AuthorityCharacters(r: BaseUrl, port: bytes)
    requires Accepted(r) && PortSpelling(port, r.port)
    ensures HostText(r) + port != []
    ensures forall i :: 0 <= i < |HostText(r) + port| ==> AuthorityOctet((HostText(r) + port)[i])
  {
    hide Print, PathOk, Plain, Valid, Loopback4, Decimal;
    if !r.ipv6 {
      QuadCharacters(r.host);
    }
  }

  lemma {:induction false} AsciiValid(a: bytes, b: bytes)
    requires (forall i :: 0 <= i < |a| ==> a[i] <= 0x7F) && Valid(b)
    ensures Valid(a + b)
    decreases |a|
  {
    if a == [] {
      assert a + b == b;
    } else {
      assert (a + b)[1..] == a[1..] + b;
      AsciiValid(a[1..], b);
    }
  }

  /** A spelling of an acceptable path is plain and valid, and means that path. */
  lemma PathMeans(text: bytes, path: bytes)
    requires PathOk(path) && StripSlash(path) == path && Plain(path) && Valid(path) && PathSpelling(text, path)
    ensures Plain(text) && Valid(text) && (text == [] || text[0] == SLASH)
    ensures PathOk(FullPath(text)) && StripSlash(FullPath(text)) == path
  {
    if text == [] {
      RootPath();
      assert Run(Ready, []) == Ready;
    } else if text != path {
      SlashMore(path);
    }
  }

  lemma SlashMore(path: bytes)
    requires PathOk(path) && StripSlash(path) == path && Plain(path) && Valid(path) && |path| > 1
    ensures var more := path + [SLASH]; Plain(more) && Valid(more) && PathOk(more) && StripSlash(more) == path
  {
    var more := path + [SLASH];
    RootPath();
    ValidConcat(path, [SLASH]);
    hide Valid, Run;
    forall i | 0 <= i < |more| ensures !DotSegment(more, i) {
      if i < |path| {
        assert !DotSegment(path, i);
      }
    }
    assert more[..|more| - 1] == path;
  }

  lemma PlainConcat(a: bytes, b: bytes)
    requires (forall i :: 0 <= i < |a| ==> AuthorityOctet(a[i]) || a[i] in SCHEME) && Plain(b)
    ensures Plain(a + b)
  {
    assert forall i :: 0 <= i < |a + b| ==> (a + b)[i] == if i < |a| then a[i] else b[i - |a|];
    assert 0x3F !in a && 0x23 !in a;
  }

  /** A spelled URL passes the first checks, and its parts are found where they were put. */
  lemma SpelledParts(authority: bytes, path: bytes)
    requires authority != [] && forall i :: 0 <= i < |authority| ==> AuthorityOctet(authority[i])
    requires Plain(path) && Valid(path) && (path == [] || path[0] == SLASH)
    ensures var rest := authority + path;
            && Valid(SCHEME + rest) && Plain(SCHEME + rest) && SCHEME <= SCHEME + rest
            && (SCHEME + rest)[|SCHEME|..] == rest && 0x40 !in authority
            && (path == [] ==> Find(rest, SLASH, 0) == None && rest == authority)
            && (path != [] ==> Find(rest, SLASH, 0) == Some(|authority|)
                               && rest[..|authority|] == authority && rest[|authority|..] == path)
  {
    var rest := authority + path;
    AsciiValid(SCHEME + authority, path);
    assert (SCHEME + authority) + path == SCHEME + rest;
    hide Valid, Run;
    PlainConcat(SCHEME + authority, path);
    if path == [] {
      assert rest == authority;
      FindNone(rest, SLASH);
    } else {
      assert rest[0..|authority|] == authority;
      FindIs(rest, SLASH, 0, |authority|);
    }
  }

  /** A spelled authority splits into the host and a text of the port. */
  lemma SpelledAuthority(r: BaseUrl, port: bytes)
    requires Accepted(r) && PortSpelling(port, r.port) && HostText(r) + port != []
    ensures var text := if port == [] then [] else port[1..];
            && SplitAuthority(HostText(r) + port) == Some(Authority(r.host, r.ipv6, text))
            && ParsePort(text) == Some(r.port)
  {
    hide Print, PathOk, Plain, Valid, Decimal, StripSlash, AllDigits;
    var text := if port == [] then [] else port[1..];
    PortRoundTrip(r.port);
    assert (text == [] && r.port == 80) || text == Print(r.port);
    assert PortPart(port, text);
    if r.ipv6 {
      SpelledAuthority6(r, port, text);
    } else {
      QuadCharacters(r.host);
      NoColon(r.port);
      SpelledAuthority4(r, port, text);
    }
  }

  lemma NoColon(port: nat)
    ensures COLON !in Print(port)
  {
    NoDot(Print(port), COLON);
  }

  lemma SpelledAuthority6(r: BaseUrl, port: bytes, text: bytes)
    requires r.ipv6 && r.host == LOCALHOST_6 && PortPart(port, text)
    requires HostText(r) + port != []
    ensures SplitAuthority(HostText(r) + port) == Some(Authority(r.host, r.ipv6, text))
  {
    hide Loopback4, Find;
    var a := HostText(r) + port;
    var bracketed := [OPEN_BRACKET] + r.host + [CLOSE_BRACKET];
    assert a[..5] == bracketed && a[0..4] == [OPEN_BRACKET] + LOCALHOST_6 && a[1..4] == LOCALHOST_6;
    FindIs(a, CLOSE_BRACKET, 0, 4);
    if port != [] {
      assert a[6..] == text;
    } else {
      assert a == bracketed;
    }
  }

  lemma SpelledAuthority4(r: BaseUrl, port: bytes, text: bytes)
    requires !r.ipv6 && Loopback4(r.host) && r.host != [] && PortPart(port, text)
    requires COLON !in text && HostText(r) + port != []
    requires forall i :: 0 <= i < |r.host| ==> r.host[i] == DOT || IsDigit(r.host[i])
    ensures SplitAuthority(HostText(r) + port) == Some(Authority(r.host, r.ipv6, text))
  {
    hide Loopback4;
    var a := HostText(r) + port;
    assert COLON !in r.host;
    if port == [] {
      assert a == r.host;
      FindNone(a, COLON);
    } else {
      hide Find;
      assert a[0..|r.host|] == r.host == a[..|r.host|] && a[|r.host|] == COLON;
      assert a[|r.host| + 1..] == text;
      FindIs(a, COLON, 0, |r.host|);
    }
  }

  /** Every spelling of an acceptable URL parses to it. */
  lemma ParseComplete(input: bytes, r: BaseUrl, port: bytes, path: bytes)
    requires Spells(input, r, port, path)
    ensures Parse(input) == Ok(r)
  {
    SpellsMeans(input, r, port, path);
    hide *;
    var authority, text := HostText(r) + port, if port == [] then [] else port[1..];
    AuthorityCharacters(r, port);
    PathMeans(path, r.basePath);
    SpelledParts(authority, path);
    SpelledAuthority(r, port);
    SpelledSplits(authority, path);
    RestSplits(authority + path);
    SpelledParses(authority + path);
  }

  lemma SpellsMeans(input: bytes, r: BaseUrl, port: bytes, path: bytes)
    requires Spells(input, r, port, path)
    ensures Accepted(r) && PortSpelling(port, r.port) && PathSpelling(path, r.basePath)
    ensures input == SCHEME + ((HostText(r) + port) + path)
    ensures PathOk(r.basePath) && StripSlash(r.basePath) == r.basePath && Plain(r.basePath) && Valid(r.basePath)
  {
  }

  lemma SpelledSplits(authority: bytes, path: bytes)
    requires var rest := authority + path;
             if path == [] then Find(rest, SLASH, 0) == None
             else Find(rest, SLASH, 0) == Some(|authority|)
    ensures AuthorityOf(authority + path) == authority && PathOf(authority + path) == path
  {
    hide Find;
    assert authority + [] == authority;
  }

  lemma SpelledParses(rest: bytes)
    requires Valid(SCHEME + rest) && Plain(SCHEME + rest) && (SCHEME + rest)[|SCHEME|..] == rest
    ensures Parse(SCHEME + rest) == ParseRest(rest)
  {
    hide Valid, Plain, ParseRest;
  }

  /** A URL parses to `r` exactly when it is a spelling of the acceptable URL `r`. */
  lemma ParseExact(input: bytes, r: BaseUrl)
    ensures Parse(input) == Ok(r) <==> exists port, path :: Spells(input, r, port, path)
  {
    hide Parse, Spells;
    if Parse(input) == Ok(r) {
      var port, path := ParseSound(input);
    }
    if exists port, path :: Spells(input, r, port, path) {
      var port, path :| Spells(input, r, port, path);
      ParseComplete(input, r, port, path);
    }
  }

  /** An accepted URL starts with `http://` and has no control character, no `#` or `?`, and no `%` or `\\`. */
  lemma AcceptedOctets(input: bytes, i: nat)
    requires Parse(input).Ok? && i < |input|
    ensures 0x20 <= input[i] && input[i] != 0x7F && input[i] != 0x23 && input[i] != 0x3F
    ensures input[i] != 0x25 && input[i] != 0x5C
    ensures |input| >= 8 && input[..7] == [0x68, 0x74, 0x74, 0x70, 0x3A, 0x2F, 0x2F]
  {
    PlainOctets(input, i);
    hide *;
    var port, path := ParseSound(input);
    SpellsMeans(input, Parse(input).value, port, path);
    var authority := HostText(Parse(input).value) + port;
    AuthorityCharacters(Parse(input).value, port);
    UnescapedPath(path, Parse(input).value.basePath);
    PartsUnescaped(input, authority, path);
  }

  lemma PlainOctets(input: bytes, i: nat)
    requires Parse(input).Ok? && i < |input|
    ensures 0x20 <= input[i] && input[i] != 0x7F && input[i] != 0x23 && input[i] != 0x3F
  {
    hide ParseRest, Valid;
  }

  lemma UnescapedPath(text: bytes, path: bytes)
    requires PathOk(path) && PathSpelling(text, path)
    ensures BACKSLASH !in text && 0x25 !in text
  {
    hide DotSegment;
  }

  lemma PartsUnescaped(input: bytes, authority: bytes, path: bytes)
    requires input == SCHEME + (authority + path) && authority != []
    requires forall i :: 0 <= i < |authority| ==> AuthorityOctet(authority[i])
    requires BACKSLASH !in path && 0x25 !in path
    ensures forall i :: 0 <= i < |input| ==> input[i] != 0x25 && input[i] != 0x5C
    ensures |input| >= 8 && input[..7] == [0x68, 0x74, 0x74, 0x70, 0x3A, 0x2F, 0x2F]
  {
  }

  // ---------------------------------------------------------------- the fixpoint

  /** Printing an accepted URL and parsing that gives the same URL, so the transport's own recheck never refuses one. */
  lemma ParsePrintFixpoint(input: bytes)
    requires Parse(input).Ok?
    ensures Parse(Canonicalised(Parse(input).value)) == Parse(input)
  {
    hide Parse, Accepted;
    var port, path := ParseSound(input);
    PrintedParses(Parse(input).value);
  }

  lemma PrintedParses(r: BaseUrl)
    requires Accepted(r)
    ensures Parse(Canonicalised(r)) == Ok(r)
  {
    hide Accepted, Parse, HostText, Print;
    ParseComplete(Canonicalised(r), r, if r.port == 80 then [] else [COLON] + Print(r.port), r.basePath);
  }

  /** Two accepted URLs that print alike are alike. */
  lemma PrintInjective(a: BaseUrl, b: BaseUrl)
    requires Accepted(a) && Accepted(b) && Canonicalised(a) == Canonicalised(b)
    ensures a == b
  {
    hide Accepted, Canonicalised, Parse;
    PrintedParses(a);
    PrintedParses(b);
  }
}

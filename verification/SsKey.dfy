/** parse_ss_key: an ss:// share link to the fields of a server, or the reason it is refused. */
module SsKey {
  import opened Common
  import opened Text
  import Base64
  import Utf8

  const METHODS: set<string> := {
    "aes-128-gcm",
    "aes-256-gcm",
    "chacha20-poly1305",
    "chacha20-ietf-poly1305",
    "xchacha20-ietf-poly1305",
    "2022-blake3-aes-128-gcm",
    "2022-blake3-aes-256-gcm",
    "2022-blake3-chacha20-poly1305"
  }

  datatype Error =
    | NotSsKey
    | PluginUnsupported
    | PrefixUnsupported
    | BadCredentials
    | BadLegacyJson
    | BadLegacyPort
    | NoPasswordPart
    | GarbledHostPort
    | PortNotDecimal
    | PortOutOfRange
    | NoUsableServer
    | UnsupportedMethod
    | EmptyPassword

  datatype Key = Key(name: string, host: string, port: int, cipher: string, password: string)

  /** The server fields before the checks at the end. */
  datatype Server = Server(host: string, port: int, cipher: string, password: string)

  /** A legacy JSON object: absent members are empty, port is None when int() refuses it. */
  datatype Legacy = Legacy(cipher: string, password: string, server: string, port: Option<int>)

  type OneDigit = n: nat | n < 10

  /** What str.isdigit and int make of a character: no digit, a digit without a decimal value, or its value. */
  datatype DigitKind = NoDigit | NotDecimal | Worth(value: OneDigit)

  /** Percent decoding, query parsing, JSON and the digits beyond ASCII are not modelled; any functions will do. */
  datatype Library = Library(
    unquote: string -> string,
    foreignDigit: char -> DigitKind,
    asksPlugin: string -> bool,
    asksPrefix: string -> bool,
    legacy: string -> Option<Legacy>)

  type Parsed = Result<Key, Error>

  // ── Splitting ──────────────────────────────────────────────────────────────

  datatype Parts = Parts(rest: string, query: string, name: Option<string>)

  function NonEmpty(s: string): Option<string> {
    if s == "" then None else Some(s)
  }

  /** The display name: the site's attribution behind " / " is dropped. */
  function NameOf(lib: Library, fragment: string): Option<string> {
    var name := Trim(lib.unquote(fragment));
    var cut := Find(name, " / ");
    if cut < |name| then NonEmpty(Trim(name[..cut])) else NonEmpty(name)
  }

  /** _split_fragment_query: the fragment first, then the query. */
  function SplitFragmentQuery(lib: Library, rest: string): Parts {
    var (front, fragment) := Cut(rest, '#');
    var (body, query) := Cut(front, '?');
    Parts(body, OrEmpty(query), Name(lib, fragment))
  }

  function OrEmpty(s: Option<string>): string {
    if s.Some? then s.value else ""
  }

  function Name(lib: Library, fragment: Option<string>): Option<string> {
    if fragment.Some? then NameOf(lib, fragment.value) else None
  }

  predicate AllDigits(s: string) {
    forall c <- s :: IsDigit(c)
  }

  function KindOf(lib: Library, c: char): DigitKind {
    if IsDigit(c) then Worth(DigitValue(c))
    else if c as int < 128 then NoDigit
    else lib.foreignDigit(c)
  }

  /** int() of a text of digits; None when one of them has no decimal value. */
  function NumberOf(lib: Library, s: string): Option<nat> {
    if s == "" then Some(0)
    else
      var front, last := NumberOf(lib, s[..|s| - 1]), KindOf(lib, s[|s| - 1]);
      if front.Some? && last.Worth? then Some(10 * front.value + last.value) else None
  }

  function CheckHostPort(lib: Library, host: string, port: string): Result<(string, int), Error> {
    if host == "" || port == "" || exists c <- port :: KindOf(lib, c).NoDigit? then Err(GarbledHostPort)
    else
      match NumberOf(lib, port)
      case None => Err(PortNotDecimal)
      case Some(n) => if 1 <= n <= 65535 then Ok((host, n)) else Err(PortOutOfRange)
  }

  /** _parse_host_port: [host]:port, or host:port at the last colon. */
  function ParseHostPort(lib: Library, text: string): Result<(string, int), Error> {
    if text != "" && text[0] == '[' then
      var end := First(text, ']');
      if end + 1 >= |text| || text[end + 1] != ':' then Err(GarbledHostPort)
      else CheckHostPort(lib, text[1..end], text[end + 2..])
    else
      var colon := Last(text, ':');
      if colon < 0 then Err(GarbledHostPort) else CheckHostPort(lib, text[..colon], text[colon + 1..])
  }

  // ── Credentials ────────────────────────────────────────────────────────────

  function DecodeText(text: string): Result<string, Error> {
    match Base64.LooseDecode(text)
    case Ok(bytes) => Ok(Utf8.Decode(bytes))
    case Err(_) => Err(BadCredentials)
  }

  predicate IsJson(decoded: string) {
    var t := TrimLeft(decoded);
    t != "" && t[0] == '{'
  }

  /** userinfo@host:port, where the userinfo may be a legacy JSON object that names the host itself. */
  function FromUserinfo(lib: Library, decoded: string, hostPart: string): Result<Server, Error> {
    if IsJson(decoded) then
      match lib.legacy(decoded)
      case None => Err(BadLegacyJson)
      case Some(l) =>
        if l.server != "" then
          if l.port.None? then Err(BadLegacyPort) else Ok(Server(l.server, l.port.value, l.cipher, l.password))
        else if hostPart == "" then Ok(Server("", 0, l.cipher, l.password))
        else WithHost(ParseHostPort(lib, hostPart), l.cipher, l.password)
    else
      var (cipher, password) := Cut(decoded, ':');
      if password.None? then Err(NoPasswordPart)
      else WithHost(ParseHostPort(lib, hostPart), cipher, password.value)
  }

  function WithHost(at: Result<(string, int), Error>, cipher: string, password: string): Result<Server, Error> {
    match at
    case Ok((host, port)) => Ok(Server(host, port, cipher, password))
    case Err(e) => Err(e)
  }

  function FromLegacy(lib: Library, decoded: string): Result<Server, Error> {
    match lib.legacy(decoded)
    case None => Err(BadLegacyJson)
    case Some(l) =>
      if l.port.None? then Err(BadLegacyPort) else Ok(Server(l.server, l.port.value, l.cipher, l.password))
  }

  function ServerOf(lib: Library, rest: string): Result<Server, Error> {
    var at := Last(rest, '@');
    var decoded := DecodeText(if at < 0 then rest else rest[..at]);
    match decoded
    case Err(e) => Err(e)
    case Ok(text) => if at < 0 then FromLegacy(lib, text) else FromUserinfo(lib, text, rest[at + 1..])
  }

  function Endpoint(host: string, port: nat): string {
    host + ":" + Decimal(port)
  }

  function Checked(s: Server, name: Option<string>): Parsed {
    var cipher := Trim(Lower(s.cipher));
    if s.host == "" || !(1 <= s.port <= 65535) then Err(NoUsableServer)
    else if cipher !in METHODS then Err(UnsupportedMethod)
    else if s.password == "" then Err(EmptyPassword)
    else
      Ok(Key(if name.Some? then name.value else Endpoint(s.host, s.port), s.host, s.port, cipher, s.password))
  }

  predicate HasScheme(text: string) {
    |text| >= 5 && Lower(text[..5]) == "ss://"
  }

  /** What a link means. */
  function Meaning(lib: Library, url: string): Parsed {
    var text := Trim(url);
    if !HasScheme(text) then Err(NotSsKey)
    else
      var parts := SplitFragmentQuery(lib, text[5..]);
      if parts.query != "" && lib.asksPlugin(parts.query) then Err(PluginUnsupported)
      else if parts.query != "" && lib.asksPrefix(parts.query) then Err(PrefixUnsupported)
      else
        match ServerOf(lib, parts.rest)
        case Err(e) => Err(e)
        case Ok(server) => Checked(server, parts.name)
  }

  /** The userinfo branch of parse_ss_key: locals start empty and fill up on the way. */
  method ReadUserinfo(lib: Library, decoded: string, hostPart: string) returns (r: Result<Server, Error>)
    ensures r == FromUserinfo(lib, decoded, hostPart)
  {
    var host, port, cipher, password := "", 0, "", "";
    if IsJson(decoded) {
      var legacy := lib.legacy(decoded);
      if legacy.None? { return Err(BadLegacyJson); }
      cipher, password := legacy.value.cipher, legacy.value.password;
      if legacy.value.server != "" {
        host := legacy.value.server;
        if legacy.value.port.None? { return Err(BadLegacyPort); }
        port := legacy.value.port.value;
      }
      if host == "" && hostPart != "" {
        var hp := ParseHostPort(lib, hostPart);
        if hp.Err? { return Err(hp.error); }
        host, port := hp.value.0, hp.value.1;
      }
    } else {
      var (front, back) := Cut(decoded, ':');
      if back.None? { return Err(NoPasswordPart); }
      cipher, password := front, back.value;
      var hp := ParseHostPort(lib, hostPart);
      if hp.Err? { return Err(hp.error); }
      host, port := hp.value.0, hp.value.1;
    }
    return Ok(Server(host, port, cipher, password));
  }

  /** Both branches of parse_ss_key, with and without userinfo. */
  method ReadServer(lib: Library, rest: string) returns (r: Result<Server, Error>)
    ensures r == ServerOf(lib, rest)
  {
    var at := Last(rest, '@');
    if at >= 0 {
      var userinfo, hostPart := rest[..at], rest[at + 1..];
      var decoded := DecodeText(userinfo);
      if decoded.Err? { return Err(decoded.error); }
      r := ReadUserinfo(lib, decoded.value, hostPart);
    } else {
      var raw := DecodeText(rest);
      if raw.Err? { return Err(raw.error); }
      r := FromLegacy(lib, raw.value);
    }
  }

  /** parse_ss_key */
  method ParseSsKey(lib: Library, url: string) returns (r: Parsed)
    ensures r == Meaning(lib, url)
  {
    var text := Trim(url);
    if !HasScheme(text) { return Err(NotSsKey); }
    var parts := SplitFragmentQuery(lib, text[5..]);
    if parts.query != "" {
      if lib.asksPlugin(parts.query) { return Err(PluginUnsupported); }
      if lib.asksPrefix(parts.query) { return Err(PrefixUnsupported); }
    }
    var server := ReadServer(lib, parts.rest);
    if server.Err? { return Err(server.error); }
    return Checked(server.value, parts.name);
  }

  // ── Printing ───────────────────────────────────────────────────────────────

  /** What the host position of a link can hold, in either of its two forms. */
  predicate Writable(host: string, bracketed: bool) {
    && host != "" && '@' !in host && '#' !in host && '?' !in host
    && (if bracketed then ']' !in host else host[0] != '[')
  }

  function HostPort(host: string, bracketed: bool, port: nat): string {
    (if bracketed then "[" + host + "]" else host) + ":" + Decimal(port)
  }

  function Userinfo(cipher: string, password: string, urlSafe: bool): string {
    Base64.Encode(Utf8.Encode(cipher + ":" + password), urlSafe)
  }

  /** The part between scheme and tail. */
  function Body(cipher: string, password: string, urlSafe: bool, hostPart: string): string {
    Userinfo(cipher, password, urlSafe) + "@" + hostPart
  }

  /** The body of a link with its query and its fragment. */
  function WithTail(body: string, query: Option<string>, tag: Option<string>): string {
    Joined(Joined(body, '?', query), '#', tag)
  }

  /** A tail that asks for nothing unsupported and that str.strip leaves alone. */
  predicate Harmless(lib: Library, query: Option<string>, tag: Option<string>) {
    && (query.Some? ==> '#' !in query.value)
    && (query.Some? && query.value != "" ==> !lib.asksPlugin(query.value) && !lib.asksPrefix(query.value))
    && (tag.Some? && tag.value != "" ==> !IsSpace(tag.value[|tag.value| - 1]))
    && (tag.None? && query.Some? && query.value != "" ==> !IsSpace(query.value[|query.value| - 1]))
  }

  // ── Parsing what was printed ───────────────────────────────────────────────

  predicate Plain(s: string) {
    forall i | 0 <= i < |s| :: s[i] !in {'@', '#', '?'}
  }

  lemma SplitPrinted(lib: Library, rest: string, query: Option<string>, tag: Option<string>)
    requires '#' !in rest && '?' !in rest
    requires query.Some? ==> '#' !in query.value
    ensures SplitFragmentQuery(lib, WithTail(rest, query, tag)) == Parts(rest, OrEmpty(query), Name(lib, tag))
  {
    CutJoined(Joined(rest, '?', query), '#', tag);
    CutJoined(rest, '?', query);
  }

  lemma {:induction false} NumberOfDigits(lib: Library, s: string)
    requires AllDigits(s)
    ensures NumberOf(lib, s) == Some(DecimalValue(s))
    ensures forall c <- s :: !KindOf(lib, c).NoDigit?
  {
    if s != "" {
      NumberOfDigits(lib, s[..|s| - 1]);
    }
  }

  lemma DigitsAreDigits(port: nat)
    ensures AllDigits(Decimal(port)) && DecimalValue(Decimal(port)) == port && Decimal(port) != ""
    ensures forall c <- Decimal(port) :: c != ':' && c != '@' && c != '#' && c != '?' && !IsSpace(c)
  {
    DecimalRoundTrip(port);
  }

  /** host:port and [host]:port read back, also for an unbracketed host with colons in it. */
  lemma HostPortRoundTrip(lib: Library, host: string, bracketed: bool, port: nat)
    requires Writable(host, bracketed) && 1 <= port <= 65535
    ensures ParseHostPort(lib, HostPort(host, bracketed, port)) == Ok((host, port))
  {
    DigitsAreDigits(port);
    NumberOfDigits(lib, Decimal(port));
    HostPortSplits(lib, host, bracketed, Decimal(port));
  }

  lemma HostPortSplits(lib: Library, host: string, bracketed: bool, port: string)
    requires Writable(host, bracketed) && ':' !in port
    ensures ParseHostPort(lib, (if bracketed then "[" + host + "]" else host) + ":" + port) == CheckHostPort(lib, host, port)
  {
    var text := (if bracketed then "[" + host + "]" else host) + ":" + port;
    if bracketed {
      var end := |host| + 1;
      assert text[..end] == "[" + host;
      FirstIs(text, ']', end);
      assert text[1..end] == host && text[end + 2..] == port;
    } else {
      assert text[|host| + 1..] == port && text[..|host|] == host;
      LastIs(text, ':', |host|);
    }
  }

  /** The character classes of one supported name. */
  predicate MethodText(s: string) {
    && s != "" && s[0] != '-' && s[|s| - 1] != '-'
    && forall i | 0 <= i < |s| :: 'a' <= s[i] <= 'z' || IsDigit(s[i]) || s[i] == '-'
  }

  lemma MethodsAreText(cipher: string)
    requires cipher in METHODS
    ensures MethodText(cipher)
  {}

  lemma MethodTextFacts(cipher: string)
    requires MethodText(cipher)
    ensures Trim(Lower(cipher)) == cipher
    ensures forall rest :: !IsJson(cipher + rest)
    ensures ':' !in cipher
  {
    assert Lower(cipher) == cipher;
    TrimKeeps(cipher);
  }

  lemma DigitIsPlain(c: char, urlSafe: bool)
    requires Base64.IsDigitOf(c, urlSafe)
    ensures c !in {'@', '#', '?'} && !IsSpace(c)
  {}

  /** The base64 of any text reads back, and has none of the characters a link is cut at. */
  lemma EncodedText(text: string, urlSafe: bool)
    ensures var e := Base64.Encode(Utf8.Encode(text), urlSafe);
      && DecodeText(e) == Ok(text) && Plain(e)
      && (text != "" ==> e != "" && !IsSpace(e[|e| - 1]))
  {
    var bytes := Utf8.Encode(text);
    var e := Base64.Encode(bytes, urlSafe);
    Base64.LooseInvertsEncode(bytes, urlSafe);
    Utf8.RoundTrip(text);
    Base64.EncodeUsesDigits(bytes, urlSafe);
    forall i | 0 <= i < |e| ensures e[i] !in {'@', '#', '?'} && !IsSpace(e[i]) {
      DigitIsPlain(e[i], urlSafe);
    }
  }

  lemma CredentialsRoundTrip(cipher: string, password: string, urlSafe: bool)
    ensures DecodeText(Userinfo(cipher, password, urlSafe)) == Ok(cipher + ":" + password)
  {
    EncodedText(cipher + ":" + password, urlSafe);
  }

  lemma UserinfoIsPlain(cipher: string, password: string, urlSafe: bool)
    ensures Plain(Userinfo(cipher, password, urlSafe))
  {
    EncodedText(cipher + ":" + password, urlSafe);
  }

  lemma UserinfoSplits(lib: Library, cipher: string, password: string, hostPart: string)
    requires MethodText(cipher)
    ensures FromUserinfo(lib, cipher + ":" + password, hostPart) == WithHost(ParseHostPort(lib, hostPart), cipher, password)
  {
    var decoded := cipher + ":" + password;
    MethodTextFacts(cipher);
    assert !IsJson(decoded) by {
      assert decoded == cipher + (":" + password);
    }
    CutJoined(cipher, ':', Some(password));
    assert decoded == Joined(cipher, ':', Some(password));
  }

  /** What stands behind the '@' reaches the host parser together with the method and the password. */
  lemma ServerOfPrinted(lib: Library, cipher: string, password: string, urlSafe: bool, hostPart: string)
    requires MethodText(cipher) && '@' !in hostPart
    ensures ServerOf(lib, Body(cipher, password, urlSafe, hostPart))
         == WithHost(ParseHostPort(lib, hostPart), cipher, password)
  {
    var userinfo := Userinfo(cipher, password, urlSafe);
    var rest := Body(cipher, password, urlSafe, hostPart);
    assert rest[|userinfo| + 1..] == hostPart && rest[..|userinfo|] == userinfo;
    LastIs(rest, '@', |userinfo|);
    CredentialsRoundTrip(cipher, password, urlSafe);
    UserinfoSplits(lib, cipher, password, hostPart);
  }

  lemma EndsWell(lib: Library, rest: string, query: Option<string>, tag: Option<string>)
    requires rest != "" && !IsSpace(rest[|rest| - 1]) && Harmless(lib, query, tag)
    ensures var t := WithTail(rest, query, tag); t != "" && !IsSpace(t[|t| - 1])
  {}

  /** The scheme and the tail come off, whatever stands between them. */
  lemma MeaningOfPrinted(lib: Library, scheme: string, rest: string, query: Option<string>, tag: Option<string>)
    requires Lower(scheme) == "ss://"
    requires rest != "" && !IsSpace(rest[|rest| - 1]) && '#' !in rest && '?' !in rest
    requires Harmless(lib, query, tag)
    ensures Meaning(lib, scheme + WithTail(rest, query, tag))
         == match ServerOf(lib, rest)
            case Err(e) => Err(e)
            case Ok(server) => Checked(server, Name(lib, tag))
  {
    var tailed := WithTail(rest, query, tag);
    var text := scheme + tailed;
    assert |scheme| == 5 && LowerChar(scheme[0]) == 's';
    assert !IsSpace(text[0]);
    EndsWell(lib, rest, query, tag);
    assert text[|text| - 1] == tailed[|tailed| - 1];
    TrimKeeps(text);
    assert text[..5] == scheme && text[5..] == tailed;
    SplitPrinted(lib, rest, query, tag);
  }

  lemma BodyIsClean(cipher: string, password: string, urlSafe: bool, hostPart: string)
    requires '#' !in hostPart && '?' !in hostPart
    ensures '#' !in Body(cipher, password, urlSafe, hostPart) && '?' !in Body(cipher, password, urlSafe, hostPart)
  {
    UserinfoIsPlain(cipher, password, urlSafe);
  }

  lemma HostPortIsClean(host: string, bracketed: bool, port: nat)
    requires Writable(host, bracketed)
    ensures var hp := HostPort(host, bracketed, port);
      hp != "" && '@' !in hp && '#' !in hp && '?' !in hp && !IsSpace(hp[|hp| - 1])
  {
    DigitsAreDigits(port);
    var hp := HostPort(host, bracketed, port);
    assert hp[|hp| - 1] == Decimal(port)[|Decimal(port)| - 1];
  }

  // ── Links with a JSON object in them ───────────────────────────────────────

  /** The site's attribution, from the first " / " on, is no part of the name. */
  lemma NameDropsAttribution(lib: Library, fragment: string)
    ensures
      var text := Trim(lib.unquote(fragment));
      var i := Find(text, " / ");
      && (Contains(text, " / ") <==> i < |text| && " / " <= text[i..])
      && (forall k | 0 <= k < i :: !(" / " <= text[k..]))
      && var shown := if Contains(text, " / ") then Trim(text[..i]) else text;
         Name(lib, Some(fragment)) == if shown == "" then None else Some(shown)
  {
    var text := Trim(lib.unquote(fragment));
    var i := Find(text, " / ");
    FindIsFirst(text, " / ");
    ContainsFrom(text, " / ", i);
  }

  lemma ContainsFrom(s: string, t: string, i: nat)
    requires t != "" && i == Find(s, t)
    ensures Contains(s, t) <==> i < |s|
  {
    FindIsFirst(s, t);
    ContainsIff(s, t);
    if i < |s| {
      assert s[i..i + |t|] == t;
    }
    forall a, b | 0 <= a <= b <= |s| && s[a..b] == t ensures i < |s| {
      assert s[a..][..b - a] == t;
    }
  }

  /** The scheme, in any case. */
  lemma HasSchemeIff(text: string)
    ensures HasScheme(text) <==>
      |text| >= 5 && text[0] in {'s', 'S'} && text[1] in {'s', 'S'} && text[2..5] == "://"
  {
    if |text| >= 5 {
      var l := Lower(text[..5]);
      assert l == [l[0], l[1], l[2], l[3], l[4]] && text[2..5] == [text[2], text[3], text[4]];
    }
  }

  /** The ciphers xray still has: two of AES and ChaCha20, also with the 2022 key derivation. */
  predicate IsAead(cipher: string) {
    || cipher in {"aes-128-gcm", "aes-256-gcm", "chacha20-poly1305"}
    || cipher in {"chacha20-ietf-poly1305", "xchacha20-ietf-poly1305"}
    || cipher in {"2022-blake3-aes-128-gcm", "2022-blake3-aes-256-gcm", "2022-blake3-chacha20-poly1305"}
  }

  /** What becomes of the fields that were read: which of them are in the key, or the first thing wrong with them. */
  predicate FieldsGive(host: string, port: int, cipher: string, password: string, name: Option<string>, r: Parsed) {
    var served := host != "" && 1 <= port && port < 65536;
    var known := IsAead(Trim(Lower(cipher)));
    match r
    case Err(NoUsableServer) => !served
    case Err(UnsupportedMethod) => served && !known
    case Err(EmptyPassword) => served && known && password == ""
    case Ok(Key(n, h, p, c, w)) =>
      && served && known && h == host && p == port && c == Trim(Lower(cipher)) && w == password && w != ""
      && n == if name.Some? then name.value else host + ":" + Decimal(port)
    case _ => false
  }

  lemma CheckedGives(s: Server, name: Option<string>)
    ensures FieldsGive(s.host, s.port, s.cipher, s.password, name, Checked(s, name))
  {}

  /** A link without '@': the base64 of a JSON object that names everything. */
  lemma LegacyLinkMeans(
      lib: Library, scheme: string, text: string, urlSafe: bool, query: Option<string>, tag: Option<string>)
    requires Lower(scheme) == "ss://" && text != "" && Harmless(lib, query, tag)
    ensures
      var r := Meaning(lib, scheme + WithTail(Base64.Encode(Utf8.Encode(text), urlSafe), query, tag));
      match lib.legacy(text)
      case None => r == Err(BadLegacyJson)
      case Some(Legacy(_, _, _, None)) => r == Err(BadLegacyPort)
      case Some(Legacy(cipher, password, server, Some(port))) =>
        FieldsGive(server, port, cipher, password, Name(lib, tag), r)
  {
    var rest := Base64.Encode(Utf8.Encode(text), urlSafe);
    EncodedText(text, urlSafe);
    MeaningOfPrinted(lib, scheme, rest, query, tag);
    if ServerOf(lib, rest).Ok? {
      CheckedGives(ServerOf(lib, rest).value, Name(lib, tag));
    }
  }

  lemma ServerOfUserinfo(lib: Library, text: string, urlSafe: bool, hostPart: string)
    requires '@' !in hostPart
    ensures ServerOf(lib, Base64.Encode(Utf8.Encode(text), urlSafe) + "@" + hostPart)
         == FromUserinfo(lib, text, hostPart)
  {
    var userinfo := Base64.Encode(Utf8.Encode(text), urlSafe);
    var rest := userinfo + "@" + hostPart;
    EncodedText(text, urlSafe);
    assert rest[|userinfo| + 1..] == hostPart && rest[..|userinfo|] == userinfo;
    LastIs(rest, '@', |userinfo|);
  }

  /** A link with the base64 of any text in front of '@'. */
  lemma UserinfoLinkMeans(
      lib: Library, scheme: string, text: string, urlSafe: bool, hostPart: string,
      query: Option<string>, tag: Option<string>)
    requires Lower(scheme) == "ss://" && Harmless(lib, query, tag)
    requires '@' !in hostPart && '#' !in hostPart && '?' !in hostPart
    requires hostPart == "" || !IsSpace(hostPart[|hostPart| - 1])
    ensures
      var body := Base64.Encode(Utf8.Encode(text), urlSafe) + "@" + hostPart;
      Meaning(lib, scheme + WithTail(body, query, tag)) ==
        match FromUserinfo(lib, text, hostPart)
        case Err(e) => Err(e)
        case Ok(server) => Checked(server, Name(lib, tag))
  {
    var userinfo := Base64.Encode(Utf8.Encode(text), urlSafe);
    var body := userinfo + "@" + hostPart;
    EncodedText(text, urlSafe);
    assert '#' !in body && '?' !in body;
    assert body[|body| - 1] == if hostPart == "" then '@' else hostPart[|hostPart| - 1];
    MeaningOfPrinted(lib, scheme, body, query, tag);
    ServerOfUserinfo(lib, text, urlSafe, hostPart);
  }

  /** A query that asks for a plugin or a prefix is refused for that, whatever else the link says. */
  lemma UnsupportedQueryRefused(
      lib: Library, scheme: string, rest: string, query: string, tag: Option<string>)
    requires Lower(scheme) == "ss://" && query != "" && '#' !in query && '#' !in rest && '?' !in rest
    requires if tag.Some? && tag.value != "" then !IsSpace(tag.value[|tag.value| - 1])
      else tag.Some? || !IsSpace(query[|query| - 1])
    ensures
      var r := Meaning(lib, scheme + WithTail(rest, Some(query), tag));
      && (lib.asksPlugin(query) ==> r == Err(PluginUnsupported))
      && (!lib.asksPlugin(query) && lib.asksPrefix(query) ==> r == Err(PrefixUnsupported))
  {
    var tailed := WithTail(rest, Some(query), tag);
    var text := scheme + tailed;
    assert |scheme| == 5 && LowerChar(scheme[0]) == 's';
    assert tailed != "" && !IsSpace(tailed[|tailed| - 1]);
    assert text[|text| - 1] == tailed[|tailed| - 1];
    TrimKeeps(text);
    assert text[..5] == scheme && text[5..] == tailed;
    SplitPrinted(lib, rest, Some(query), tag);
  }

  /** What becomes of such an object in front of host and port; host is "" when nothing stands behind the '@'. */
  predicate JsonGives(l: Option<Legacy>, host: string, port: int, name: Option<string>, r: Parsed) {
    match l
    case None => r == Err(BadLegacyJson)
    case Some(Legacy(cipher, password, "", _)) => FieldsGive(host, port, cipher, password, name, r)
    case Some(Legacy(_, _, _, None)) => r == Err(BadLegacyPort)
    case Some(Legacy(cipher, password, own, Some(p))) => FieldsGive(own, p, cipher, password, name, r)
  }

  lemma JsonFromUserinfo(lib: Library, json: string, hostPart: string, host: string, port: int, name: Option<string>)
    requires json != "" && json[0] == '{'
    requires if hostPart == "" then host == "" else ParseHostPort(lib, hostPart) == Ok((host, port))
    ensures
      var r :=
        match FromUserinfo(lib, json, hostPart)
        case Err(e) => Err(e)
        case Ok(server) => Checked(server, name);
      JsonGives(lib.legacy(json), host, port, name, r)
  {
    assert IsJson(json);
    var server := FromUserinfo(lib, json, hostPart);
    if server.Ok? {
      CheckedGives(server.value, name);
    }
  }

  /** The base64 of a JSON object in front of '@': its own server wins over the host part. */
  lemma JsonUserinfoMeans(
      lib: Library, scheme: string, json: string, urlSafe: bool, host: string, bracketed: bool, port: nat,
      query: Option<string>, tag: Option<string>)
    requires Lower(scheme) == "ss://" && json != "" && json[0] == '{' && Harmless(lib, query, tag)
    requires Writable(host, bracketed) && 1 <= port <= 65535
    ensures
      var body := Base64.Encode(Utf8.Encode(json), urlSafe) + "@" + HostPort(host, bracketed, port);
      JsonGives(lib.legacy(json), host, port, Name(lib, tag), Meaning(lib, scheme + WithTail(body, query, tag)))
  {
    var hp := HostPort(host, bracketed, port);
    HostPortIsClean(host, bracketed, port);
    HostPortRoundTrip(lib, host, bracketed, port);
    UserinfoLinkMeans(lib, scheme, json, urlSafe, hp, query, tag);
    JsonFromUserinfo(lib, json, hp, host, port, Name(lib, tag));
  }

  /** With nothing behind the '@' the object has to name the server itself. */
  lemma JsonWithoutHostMeans(
      lib: Library, scheme: string, json: string, urlSafe: bool, query: Option<string>, tag: Option<string>)
    requires Lower(scheme) == "ss://" && json != "" && json[0] == '{' && Harmless(lib, query, tag)
    ensures
      var body := Base64.Encode(Utf8.Encode(json), urlSafe) + "@" + "";
      JsonGives(lib.legacy(json), "", 0, Name(lib, tag), Meaning(lib, scheme + WithTail(body, query, tag)))
  {
    UserinfoLinkMeans(lib, scheme, json, urlSafe, "", query, tag);
    JsonFromUserinfo(lib, json, "", "", 0, Name(lib, tag));
  }

  /** Credentials that are no JSON object and have no colon are refused, whatever the host part says. */
  lemma ColonlessCredentialsRefused(
      lib: Library, scheme: string, text: string, urlSafe: bool, hostPart: string,
      query: Option<string>, tag: Option<string>)
    requires Lower(scheme) == "ss://" && Harmless(lib, query, tag) && ':' !in text && !IsJson(text)
    requires '@' !in hostPart && '#' !in hostPart && '?' !in hostPart
    requires hostPart == "" || !IsSpace(hostPart[|hostPart| - 1])
    ensures
      var body := Base64.Encode(Utf8.Encode(text), urlSafe) + "@" + hostPart;
      Meaning(lib, scheme + WithTail(body, query, tag)) == Err(NoPasswordPart)
  {
    CutJoined(text, ':', None);
    UserinfoLinkMeans(lib, scheme, text, urlSafe, hostPart, query, tag);
  }

  /** A port outside 1..65535, or none, or one that is no number. */
  lemma PortRefused(lib: Library, host: string, bracketed: bool, port: nat, text: string)
    requires Writable(host, bracketed)
    ensures port < 1 || port > 65535 ==> ParseHostPort(lib, HostPort(host, bracketed, port)) == Err(PortOutOfRange)
    ensures text == "" || ('0' > text[0] && ':' !in text) ==>
      ParseHostPort(lib, (if bracketed then "[" + host + "]" else host) + ":" + text) == Err(GarbledHostPort)
  {
    DigitsAreDigits(port);
    NumberOfDigits(lib, Decimal(port));
    HostPortSplits(lib, host, bracketed, Decimal(port));
    if text == "" || ('0' > text[0] && ':' !in text) {
      HostPortSplits(lib, host, bracketed, text);
      if text != "" {
        assert KindOf(lib, text[0]).NoDigit?;
      }
    }
  }

  /** c is the digit d, in ASCII or as another script writes it. */
  predicate Writes(lib: Library, c: char, d: char) {
    IsDigit(d) && (c == d || (c as int >= 0x80 && lib.foreignDigit(c) == Worth(d as int - '0' as int)))
  }

  lemma {:induction false} NumberInAnyScript(lib: Library, s: string, t: string)
    requires |s| == |t| && forall i | 0 <= i < |s| :: Writes(lib, s[i], t[i])
    ensures AllDigits(t) && NumberOf(lib, s) == Some(DecimalValue(t))
    ensures forall i | 0 <= i < |s| :: KindOf(lib, s[i]).Worth?
  {
    if s != "" {
      NumberInAnyScript(lib, s[..|s| - 1], t[..|t| - 1]);
      assert Writes(lib, s[|s| - 1], t[|t| - 1]);
      forall i | 0 <= i < |s| ensures KindOf(lib, s[i]).Worth? && IsDigit(t[i]) {
        assert Writes(lib, s[i], t[i]);
      }
    }
  }

  /** A port counts in the digits of any script. */
  lemma PortInAnyScript(lib: Library, host: string, bracketed: bool, port: nat, text: string)
    requires Writable(host, bracketed) && 1 <= port <= 65535 && |text| == |Decimal(port)|
    requires forall i | 0 <= i < |text| :: Writes(lib, text[i], Decimal(port)[i])
    ensures ParseHostPort(lib, (if bracketed then "[" + host + "]" else host) + ":" + text) == Ok((host, port))
  {
    DigitsAreDigits(port);
    NumberInAnyScript(lib, text, Decimal(port));
    forall i | 0 <= i < |text| ensures text[i] != ':' {
      assert Writes(lib, text[i], Decimal(port)[i]);
    }
    HostPortSplits(lib, host, bracketed, text);
  }

  lemma {:induction false} NoNumber(lib: Library, s: string, k: nat)
    requires k < |s| && KindOf(lib, s[k]).NotDecimal?
    ensures NumberOf(lib, s).None?
  {
    if k < |s| - 1 {
      NoNumber(lib, s[..|s| - 1], k);
    }
  }

  /** A port with a digit that has no decimal value, like a superscript one, is refused for that. */
  lemma PortWithoutValueRefused(lib: Library, host: string, bracketed: bool, text: string, k: nat)
    requires Writable(host, bracketed) && k < |text| && text[k] as int >= 0x80 && lib.foreignDigit(text[k]).NotDecimal?
    requires forall i | 0 <= i < |text| ::
      IsDigit(text[i]) || (text[i] as int >= 0x80 && !lib.foreignDigit(text[i]).NoDigit?)
    ensures ParseHostPort(lib, (if bracketed then "[" + host + "]" else host) + ":" + text) == Err(PortNotDecimal)
  {
    NoNumber(lib, text, k);
    assert forall i | 0 <= i < |text| :: text[i] != ':';
    HostPortSplits(lib, host, bracketed, text);
  }

  /** No host, in either form. */
  lemma EmptyHostRefused(lib: Library, port: string)
    requires ':' !in port
    ensures ParseHostPort(lib, ":" + port) == Err(GarbledHostPort)
    ensures ParseHostPort(lib, "[]:" + port) == Err(GarbledHostPort)
  {
    var plain, bracketed := ":" + port, "[]:" + port;
    LastIs(plain, ':', 0);
    FirstIs(bracketed, ']', 1);
    assert plain[..0] == "" && bracketed[1..1] == "";
  }

  /** No port behind the host: no colon at all, or a bracket that is not followed by one. */
  lemma PortlessRefused(lib: Library, text: string, host: string)
    requires ':' !in text && ']' !in host
    ensures ParseHostPort(lib, text) == Err(GarbledHostPort)
    ensures ParseHostPort(lib, "[" + host) == Err(GarbledHostPort)
    ensures ParseHostPort(lib, "[" + host + "]" + text) == Err(GarbledHostPort)
  {
    var open, closed := "[" + host, "[" + host + "]" + text;
    FirstIs(open, ']', |open|);
    FirstIs(closed, ']', |open|);
    assert text != "" ==> closed[|open| + 1] == text[0];
  }

  /**
    Parsing inverts printing: any supported method, any non-empty password,
    either host form, either base64 alphabet, the scheme in any case, and any
    query and fragment that ask for nothing unsupported.
   */
  lemma ParseInvertsPrint(
      lib: Library, scheme: string, cipher: string, password: string, urlSafe: bool,
      host: string, bracketed: bool, port: nat, query: Option<string>, tag: Option<string>)
    requires Lower(scheme) == "ss://" && cipher in METHODS && password != ""
    requires Writable(host, bracketed) && 1 <= port <= 65535 && Harmless(lib, query, tag)
    ensures
      var name := if Name(lib, tag).Some? then Name(lib, tag).value else Endpoint(host, port);
      Meaning(lib, scheme + WithTail(Body(cipher, password, urlSafe, HostPort(host, bracketed, port)), query, tag))
      == Ok(Key(name, host, port, cipher, password))
  {
    var hp := HostPort(host, bracketed, port);
    HostPortIsClean(host, bracketed, port);
    BodyIsClean(cipher, password, urlSafe, hp);
    MeaningOfPrinted(lib, scheme, Body(cipher, password, urlSafe, hp), query, tag);
    MethodsAreText(cipher);
    MethodTextFacts(cipher);
    ServerOfPrinted(lib, cipher, password, urlSafe, hp);
    HostPortRoundTrip(lib, host, bracketed, port);
  }

  lemma SlashedPortRefused(lib: Library, host: string, bracketed: bool, port: nat)
    requires Writable(host, bracketed)
    ensures ParseHostPort(lib, HostPort(host, bracketed, port) + "/") == Err(GarbledHostPort)
  {
    var text := Decimal(port) + "/";
    DigitsAreDigits(port);
    HostPortSplits(lib, host, bracketed, text);
    assert HostPort(host, bracketed, port) + "/" == (if bracketed then "[" + host + "]" else host) + ":" + text;
    assert text[|text| - 1] == '/' && KindOf(lib, '/').NoDigit?;
  }

  /** The same link with the "/" that SIP002 writes before its query is refused. */
  lemma SlashRefused(
      lib: Library, scheme: string, cipher: string, password: string, urlSafe: bool,
      host: string, bracketed: bool, port: nat, query: Option<string>, tag: Option<string>)
    requires Lower(scheme) == "ss://" && cipher in METHODS
    requires Writable(host, bracketed) && Harmless(lib, query, tag)
    ensures
      var slashed := HostPort(host, bracketed, port) + "/";
      Meaning(lib, scheme + WithTail(Body(cipher, password, urlSafe, slashed), query, tag)) == Err(GarbledHostPort)
  {
    var slashed := HostPort(host, bracketed, port) + "/";
    HostPortIsClean(host, bracketed, port);
    BodyIsClean(cipher, password, urlSafe, slashed);
    MeaningOfPrinted(lib, scheme, Body(cipher, password, urlSafe, slashed), query, tag);
    MethodsAreText(cipher);
    ServerOfPrinted(lib, cipher, password, urlSafe, slashed);
    SlashedPortRefused(lib, host, bracketed, port);
  }

  lemma CheckedIsUsable(s: Server, name: Option<string>)
    requires Checked(s, name).Ok? && (name.Some? ==> name.value != "")
    ensures Usable(Checked(s, name).value)
  {}

  predicate Usable(k: Key) {
    k.host != "" && 1 <= k.port <= 65535 && k.cipher in METHODS && k.password != "" && k.name != ""
  }

  /** Whatever is accepted has all that a connection needs. */
  lemma AcceptedIsUsable(lib: Library, url: string)
    requires Meaning(lib, url).Ok?
    ensures Usable(Meaning(lib, url).value)
  {
    var parts := SplitFragmentQuery(lib, Trim(url)[5..]);
    CheckedIsUsable(ServerOf(lib, parts.rest).value, parts.name);
  }

  // ── Printing what was parsed ───────────────────────────────────────────────

  predicate Clean(s: string) {
    '@' !in s && '#' !in s && '?' !in s
  }

  /** A host that was read can be written again, in the form it came in. */
  lemma ParsedHostIsWritable(lib: Library, text: string)
    requires Clean(text) && ParseHostPort(lib, text).Ok?
    ensures text != "" && Writable(ParseHostPort(lib, text).value.0, text[0] == '[')
  {
    if text != "" && text[0] == '[' {
      FirstMisses(text, ']');
      var end := First(text, ']');
      assert forall i | 0 <= i < |text[1..end]| :: text[1..end][i] == text[i + 1];
    }
  }

  lemma RestIsClean(lib: Library, text: string)
    ensures var rest := SplitFragmentQuery(lib, text).rest; '#' !in rest && '?' !in rest
  {
    CutMisses(text, '#');
    CutMisses(Cut(text, '#').0, '?');
  }

  /** A link with method:password credentials in front of host:port. */
  predicate IsSip002(lib: Library, url: string) {
    var text := Trim(url);
    && HasScheme(text)
    && var rest := SplitFragmentQuery(lib, text[5..]).rest;
       var at := Last(rest, '@');
       at >= 0 && DecodeText(rest[..at]).Ok? && !IsJson(DecodeText(rest[..at]).value)
  }

  lemma HostOfSip002(lib: Library, rest: string)
    requires '#' !in rest && '?' !in rest && ServerOf(lib, rest).Ok?
    requires var at := Last(rest, '@'); at >= 0 && !IsJson(DecodeText(rest[..at]).value)
    ensures Writable(ServerOf(lib, rest).value.host, true) || Writable(ServerOf(lib, rest).value.host, false)
  {
    var hostPart := rest[Last(rest, '@') + 1..];
    LastMisses(rest, '@');
    assert Clean(hostPart);
    ParsedHostIsWritable(lib, hostPart);
  }

  ghost predicate Reprints(lib: Library, k: Key, urlSafe: bool, bracketed: bool) {
    && Usable(k) && Writable(k.host, bracketed)
    && Meaning(lib, "ss://" + Body(k.cipher, k.password, urlSafe, HostPort(k.host, bracketed, k.port)))
       == Ok(k.(name := Endpoint(k.host, k.port)))
  }

  lemma UsableReprints(lib: Library, k: Key, urlSafe: bool, bracketed: bool)
    requires Usable(k) && Writable(k.host, bracketed)
    ensures Reprints(lib, k, urlSafe, bracketed)
  {
    ParseInvertsPrint(lib, "ss://", k.cipher, k.password, urlSafe, k.host, bracketed, k.port, None, None);
  }

  /**
    Every accepted link of that kind, however it was written, can be printed from
    its fields alone: the printed link is accepted with the same fields.
   */
  lemma AcceptedCanBeReprinted(lib: Library, url: string, urlSafe: bool)
    requires Meaning(lib, url).Ok? && IsSip002(lib, url)
    ensures exists bracketed :: Reprints(lib, Meaning(lib, url).value, urlSafe, bracketed)
  {
    var k := Meaning(lib, url).value;
    var rest := SplitFragmentQuery(lib, Trim(url)[5..]).rest;
    AcceptedIsUsable(lib, url);
    RestIsClean(lib, Trim(url)[5..]);
    HostOfSip002(lib, rest);
    var bracketed :| Writable(k.host, bracketed);
    UsableReprints(lib, k, urlSafe, bracketed);
  }
}

/**
 The per-share config (waserver/src/config.rs): its validation, and the byte stream fed
 to the config hash.
 */
module ShareConfigs {
  import opened Prelude
  import opened Origins
  import Fnv1a

  datatype AppKind = Web | Jellyfin | Immich

  datatype ProxyMode =
    | ReverseProxy(upstream: string)
    | ForwardProxy(startUrl: string, origins: seq<Origin>)

  datatype App = App(id: string, name: string, kind: AppKind, mode: ProxyMode)

  /** The legacy transport section is left aside: it is never served. */
  datatype ShareConfig = ShareConfig(name: string, apps: seq<App>, caCertificates: seq<string>)

  //-- The file, as the TOML reader delivers it ---------------------------------

  datatype ModeName = ReverseProxyMode | ForwardProxyMode

  datatype AppEntry = AppEntry(
    id: string, name: string, kind: AppKind, mode: ModeName,
    upstream: Option<string>, startUrl: Option<string>, proxiedOrigins: Option<seq<string>>)

  /** A `ca_certificates` entry: the base64 of its one X.509 certificate, or none. */
  datatype CertificateEntry = Certificate(base64: string) | NotACertificate

  datatype ShareFile = ShareFile(name: string, apps: seq<AppEntry>, caCertificates: seq<CertificateEntry>)

  datatype ConfigError =
    | EmptyName
    | InvalidAppId(id: string)
    | DuplicateAppId(id: string)
    | InvalidUpstream(app: string)
    | InvalidApp(app: string)
    | InvalidCaCertificate(number: nat)

  //-- Validation ---------------------------------------------------------------

  predicate IsIdChar(c: char) {
    'a' <= c <= 'z' || 'A' <= c <= 'Z' || IsDigit(c) || c == '-' || c == '_'
  }

  predicate IsValidId(s: string) {
    && s != [] && |s| <= 64
    && (forall i :: 0 <= i < |s| ==> IsIdChar(s[i]))
    && s[0] !in "-_"
    && s[|s| - 1] !in "-_"
  }

  /** A loopback name takes http, every other name https. */
  predicate SchemeRule(o: Origin) {
    IsLoopback(o) != o.https
  }

  /** The position of the last colon, or `|s|`. */
  function LastColon(s: string): (n: nat)
    ensures n <= |s|
    ensures n < |s| ==> s[n] == ':'
    ensures forall i :: n < i < |s| ==> s[i] != ':'
    ensures n == |s| ==> ':' !in s
  {
    if s == [] then 0
    else if s[|s| - 1] == ':' then |s| - 1
    else
      var front := s[..|s| - 1];
      var n := LastColon(front);
      assert forall i :: 0 <= i < |front| ==> front[i] == s[i];
      if n == |front| then |s| else n
  }

  /** `str::parse::<u16>`: digits, after an optional plus sign. */
  function ParseU16(s: string): (r: Option<nat>) {
    var digits := if s != [] && s[0] == '+' then s[1..] else s;
    if digits == [] || exists i :: 0 <= i < |digits| && !IsDigit(digits[i]) then None
    else if DecimalValue(digits) < 65536 then Some(DecimalValue(digits))
    else None
  }

  /** `host:port` or `:port`, normalised to `host:port`. `None` for an invalid upstream. */
  function ParseUpstream(text: string): (r: Option<string>) {
    var s := Trim(text);
    var colon := LastColon(s);
    if colon == |s| then None
    else
      match ParseU16(s[colon + 1..])
      case None => None
      case Some(port) =>
        if port == 0 then None
        else Some((if colon == 0 then "localhost" else s[..colon]) + ":" + Decimal(port))
  }

  function ParseOrigins(texts: seq<string>): (r: Option<seq<Origin>>) {
    if texts == [] then Some([])
    else
      match (ParseOrigin(texts[0]), ParseOrigins(texts[1..]))
      case (Some(o), Some(rest)) => if SchemeRule(o) then Some([o] + rest) else None
      case _ => None
  }

  function ParseForwardProxy(startUrl: string, texts: seq<string>): (r: Option<ProxyMode>) {
    match (ParseOrigins(texts), ParseUrl(Trim(startUrl)))
    case (Some(origins), Some(url)) =>
      if url.origin in origins
      then Some(ForwardProxy(Print(url.origin) + (if url.rest == [] then "/" else url.rest), origins))
      else None
    case _ => None
  }

  function ParseApp(e: AppEntry): (r: Result<App, ConfigError>) {
    if !IsValidId(e.id) then Err(InvalidAppId(e.id))
    else
      var name := if Trim(e.name) == [] then e.id else e.name;
      match e.mode
      case ReverseProxyMode =>
        if e.startUrl.Some? || e.proxiedOrigins.Some? || e.upstream.None? then Err(InvalidApp(e.id))
        else
          (match ParseUpstream(e.upstream.value)
           case None => Err(InvalidUpstream(e.id))
           case Some(upstream) => Ok(App(e.id, name, e.kind, ReverseProxy(upstream))))
      case ForwardProxyMode =>
        if e.upstream.Some? || e.kind != Web || e.startUrl.None? || e.proxiedOrigins.None?
        then Err(InvalidApp(e.id))
        else
          (match ParseForwardProxy(e.startUrl.value, e.proxiedOrigins.value)
           case None => Err(InvalidApp(e.id))
           case Some(mode) => Ok(App(e.id, name, e.kind, mode)))
  }

  /** The base64 text in lines of 64, as `pem_certificate` lays it out. */
  function PemLines(base64: string): string
    decreases |base64|
  {
    if base64 == [] then []
    else if |base64| <= 64 then base64 + "\n"
    else base64[..64] + "\n" + PemLines(base64[64..])
  }

  function Pem(base64: string): string {
    "-----BEGIN CERTIFICATE-----\n" + PemLines(base64) + "-----END CERTIFICATE-----\n"
  }

  lemma PemStarts(base64: string)
    ensures "-----BEGIN CERTIFICATE-----\n" <= Pem(base64)
  {
  }

  predicate ValidOrigins(origins: seq<Origin>) {
    forall i :: 0 <= i < |origins| ==> ValidOrigin(origins[i]) && SchemeRule(origins[i])
  }

  predicate ValidMode(kind: AppKind, mode: ProxyMode) {
    match mode
    case ReverseProxy(upstream) => ':' in upstream
    case ForwardProxy(startUrl, origins) =>
      && kind == Web
      && ValidOrigins(origins)
      && exists o :: o in origins && Print(o) <= startUrl
  }

  predicate ValidApp(app: App) {
    IsValidId(app.id) && Trim(app.name) != [] && ValidMode(app.kind, app.mode)
  }

  predicate DistinctIds(apps: seq<App>) {
    forall i, j :: 0 <= i < j < |apps| ==> apps[i].id != apps[j].id
  }

  predicate Validated(c: ShareConfig) {
    && Trim(c.name) != []
    && (forall i :: 0 <= i < |c.apps| ==> ValidApp(c.apps[i]))
    && DistinctIds(c.apps)
    && (forall i :: 0 <= i < |c.caCertificates| ==> "-----BEGIN CERTIFICATE-----\n" <= c.caCertificates[i])
  }

  lemma ValidIdTrims(id: string)
    requires IsValidId(id)
    ensures Trim(id) == id
  {
    assert IsIdChar(id[0]) && IsIdChar(id[|id| - 1]);
    TrimIdentity(id);
  }

  lemma {:induction false} ParsedOriginsAreValid(texts: seq<string>)
    requires ParseOrigins(texts).Some?
    ensures ValidOrigins(ParseOrigins(texts).value)
    ensures |ParseOrigins(texts).value| == |texts|
  {
    hide ParseOrigin, ValidOrigin, SchemeRule;
    if texts != [] {
      ParsedOriginsAreValid(texts[1..]);
      ParsedOriginIsValid(texts[0]);
    }
  }

  lemma ParsedAppIsValid(e: AppEntry)
    requires ParseApp(e).Ok?
    ensures ValidApp(ParseApp(e).value)
    ensures ParseApp(e).value.id == e.id
  {
    assert e.id != [];
    hide IsValidId, Trim, ParseUpstream, ParseForwardProxy, ValidOrigins, Print;
    ValidIdTrims(e.id);
    if e.mode.ReverseProxyMode? {
      ParsedUpstreamHasAPort(e.upstream.value);
    } else {
      ParsedForwardProxyIsValid(e.startUrl.value, e.proxiedOrigins.value);
    }
  }

  lemma ParsedUpstreamHasAPort(text: string)
    requires ParseUpstream(text).Some?
    ensures ':' in ParseUpstream(text).value
  {
    hide Trim, LastColon, ParseU16;
    var s := Trim(text);
    var host := if LastColon(s) == 0 then "localhost" else s[..LastColon(s)];
    assert ParseUpstream(text).value[|host|] == ':';
  }

  lemma ParsedForwardProxyIsValid(startUrl: string, texts: seq<string>)
    requires ParseForwardProxy(startUrl, texts).Some?
    ensures ParseForwardProxy(startUrl, texts).value.ForwardProxy? && ValidMode(Web, ParseForwardProxy(startUrl, texts).value)
  {
    hide Trim, ParseUrl, ParseOrigins, ValidOrigins, Print;
    ParsedOriginsAreValid(texts);
    var mode, url := ParseForwardProxy(startUrl, texts).value, ParseUrl(Trim(startUrl)).value;
    assert url.origin in mode.origins && Print(url.origin) <= mode.startUrl;
  }

  lemma ParseAppErrors(e: AppEntry)
    requires ParseApp(e).Err?
    ensures var error := ParseApp(e).error;
            error == InvalidAppId(e.id) || error == InvalidUpstream(e.id) || error == InvalidApp(e.id)
  {
    hide IsValidId, ParseUpstream, ParseForwardProxy, Trim;
  }

  /** What a file must satisfy, said without the order in which `Parse` looks. */
  predicate Acceptable(file: ShareFile) {
    && Trim(file.name) != []
    && (forall i :: 0 <= i < |file.apps| ==> ParseApp(file.apps[i]).Ok?)
    && (forall i, j :: 0 <= i < j < |file.apps| ==> file.apps[i].id != file.apps[j].id)
    && (forall i :: 0 <= i < |file.caCertificates| ==> file.caCertificates[i].Certificate?)
  }

  /** Reads a file: accepted exactly if acceptable, and then validated, in the file's order. */
  method Parse(file: ShareFile) returns (r: Result<ShareConfig, ConfigError>)
    ensures r.Ok? <==> Acceptable(file)
    ensures r.Ok? ==> Validated(r.value) && r.value.name == file.name
    ensures r.Ok? ==> |r.value.apps| == |file.apps|
                      && forall i :: 0 <= i < |file.apps| ==> ParseApp(file.apps[i]) == Ok(r.value.apps[i])
    ensures r.Ok? ==> |r.value.caCertificates| == |file.caCertificates|
                      && forall i :: 0 <= i < |file.caCertificates| ==>
                           file.caCertificates[i].Certificate? && r.value.caCertificates[i] == Pem(file.caCertificates[i].base64)
    ensures r == Err(EmptyName) <==> Trim(file.name) == []
    ensures r.Err? && r.error.DuplicateAppId? ==>
              exists i, j :: 0 <= i < j < |file.apps| && file.apps[i].id == file.apps[j].id == r.error.id
    ensures r.Err? && r.error.InvalidCaCertificate? ==>
              && 1 <= r.error.number <= |file.caCertificates|
              && file.caCertificates[r.error.number - 1].NotACertificate?
  {
    hide Trim, ParseApp, ValidApp, Pem;
    if Trim(file.name) == [] {
      return Err(EmptyName);
    }
    var apps: seq<App> := [];
    for n := 0 to |file.apps|
      invariant |apps| == n
      invariant forall i :: 0 <= i < n ==> ParseApp(file.apps[i]) == Ok(apps[i])
      invariant forall i :: 0 <= i < n ==> ValidApp(apps[i]) && apps[i].id == file.apps[i].id
      invariant DistinctIds(apps)
    {
      var parsed := ParseApp(file.apps[n]);
      if parsed.Err? {
        ParseAppErrors(file.apps[n]);
        return Err(parsed.error);
      }
      ParsedAppIsValid(file.apps[n]);
      var app := parsed.value;
      if exists i :: 0 <= i < |apps| && apps[i].id == app.id {
        assert exists i :: 0 <= i < n && file.apps[i].id == file.apps[n].id;
        return Err(DuplicateAppId(app.id));
      }
      apps := apps + [app];
    }
    var certificates: seq<string> := [];
    for n := 0 to |file.caCertificates|
      invariant |certificates| == n
      invariant forall i :: 0 <= i < n ==>
                  file.caCertificates[i].Certificate? && certificates[i] == Pem(file.caCertificates[i].base64)
      invariant forall i :: 0 <= i < n ==> "-----BEGIN CERTIFICATE-----\n" <= certificates[i]
    {
      match file.caCertificates[n] {
        case NotACertificate =>
          return Err(InvalidCaCertificate(n + 1));
        case Certificate(base64) =>
          PemStarts(base64);
          certificates := certificates + [Pem(base64)];
      }
    }
    r := Ok(ShareConfig(file.name, apps, certificates));
  }

  //-- What may be written ---------------------------------------------------------------

  lemma IdsAreNames()
    ensures IsValidId("a") && IsValidId("My-app_2") && IsValidId("0")
    ensures !IsValidId("") && !IsValidId("-a") && !IsValidId("_a") && !IsValidId("a-") && !IsValidId("a_")
    ensures !IsValidId("a.b") && !IsValidId("a b") && !IsValidId("a/b")
    ensures forall s :: IsValidId(s) ==> 1 <= |s| <= 64
    ensures forall s :: |s| == 64 && (forall i :: 0 <= i < 64 ==> s[i] == 'a') ==> IsValidId(s)
  {
    assert "a.b"[1] == '.' && "a b"[1] == ' ' && "a/b"[1] == '/';
  }

  lemma ColonIsLast(host: string, digits: string)
    requires ':' !in digits
    ensures LastColon(host + ":" + digits) == |host|
  {
    hide LastColon;
    var s := host + ":" + digits;
    assert s[|host|] == ':';
    assert forall i :: |host| < i < |s| ==> s[i] != ':';
  }

  lemma PortReads(port: nat)
    ensures ParseU16(Decimal(port)) == if port < 65536 then Some(port) else None
  {
    DecimalRoundTrip(port);
    assert IsDigit(Decimal(port)[0]);
  }

  lemma UpstreamTrims(host: string, digits: string)
    requires host == [] || !IsWhitespace(host[0])
    requires digits != [] && forall i :: 0 <= i < |digits| ==> IsDigit(digits[i])
    ensures Trim(host + ":" + digits) == host + ":" + digits
  {
    var s := host + ":" + digits;
    assert s[|s| - 1] == digits[|digits| - 1];
    assert s[0] == if host == [] then ':' else host[0];
    TrimIdentity(s);
  }

  /** `host:port` is kept, an empty host being localhost; the port is from 1 to 65535. */
  lemma UpstreamIsKept(host: string, port: nat)
    requires host == [] || !IsWhitespace(host[0])
    ensures ParseUpstream(host + ":" + Decimal(port)) ==
            if 1 <= port <= 65535 then Some((if host == [] then "localhost" else host) + ":" + Decimal(port)) else None
  {
    hide Trim, Decimal, LastColon, ParseU16, IsWhitespace, DecimalValue;
    var digits := Decimal(port);
    var s := host + ":" + digits;
    assert ':' !in digits;
    ColonIsLast(host, digits);
    PortReads(port);
    UpstreamTrims(host, digits);
    assert s[|host| + 1..] == digits && s[..|host|] == host;
  }

  /** Without a port there is no upstream. */
  lemma UpstreamNeedsAPort(text: string)
    requires ':' !in Trim(text)
    ensures ParseUpstream(text) == None
  {
    hide Trim;
  }

  /** On a loopback name http is accepted, on every other https, and nothing else. */
  lemma SchemesAccepted(o: Origin)
    ensures ParseOrigins([Print(o)]) == Some([o]) <==>
              ParseOrigin(Print(o)) == Some(o) && (o.host in {"localhost", "127.0.0.1", "[::1]"} <==> !o.https)
  {
    hide ParseOrigin, Print;
    assert [Print(o)][1..] == [];
    assert forall x: Origin :: [x] + [] == [x];
    assert SchemeRule(o) <==> (o.host in {"localhost", "127.0.0.1", "[::1]"} <==> !o.https);
  }

  lemma {:induction false} OriginsAreKept(origins: seq<Origin>)
    requires ValidOrigins(origins)
    ensures ParseOrigins(Printed(origins)) == Some(origins)
  {
    hide ParseOrigin, ValidOrigin, SchemeRule, Print;
    if origins != [] {
      OriginsAreKept(origins[1..]);
      assert Printed(origins)[1..] == Printed(origins[1..]);
      PrintParse(origins[0]);
      assert [origins[0]] + origins[1..] == origins;
    }
  }

  /** A forward-proxy app's origins and start URL are kept, the URL being on one of the origins. */
  lemma ForwardProxyIsKept(origins: seq<Origin>, o: Origin, path: string)
    requires ValidOrigins(origins) && ValidOrigin(o) && path != [] && path[0] == '/' && !IsWhitespace(path[|path| - 1])
    ensures ParseForwardProxy(Print(o) + path, Printed(origins)) ==
            if o in origins then Some(ForwardProxy(Print(o) + path, origins)) else None
  {
    hide ParseOrigins, ParseUrl, Trim, Print, Printed, ValidOrigins, ValidOrigin;
    OriginsAreKept(origins);
    UrlIsOriginAndPath(o, path);
  }

  /** An app block of either mode is the app it spells; a blank name is the id. */
  lemma AppIsKept(id: string, name: string, kind: AppKind, host: string, port: nat)
    requires IsValidId(id) && 1 <= port <= 65535 && host != [] && !IsWhitespace(host[0])
    ensures var text := host + ":" + Decimal(port);
            ParseApp(AppEntry(id, name, kind, ReverseProxyMode, Some(text), None, None)) ==
            Ok(App(id, if Trim(name) == [] then id else name, kind, ReverseProxy(text)))
  {
    UpstreamIsKept(host, port);
    hide IsValidId, Trim, ParseUpstream, Decimal;
  }

  lemma ForwardBlock(id: string, name: string, url: string, texts: seq<string>)
    requires IsValidId(id) && ParseForwardProxy(url, texts).Some?
    ensures ParseApp(AppEntry(id, name, Web, ForwardProxyMode, None, Some(url), Some(texts))) ==
            Ok(App(id, if Trim(name) == [] then id else name, Web, ParseForwardProxy(url, texts).value))
  {
    hide IsValidId, Trim, ParseForwardProxy;
  }

  lemma ForwardAppIsKept(id: string, name: string, origins: seq<Origin>, o: Origin, path: string)
    requires IsValidId(id) && ValidOrigins(origins) && o in origins
    requires path != [] && path[0] == '/' && !IsWhitespace(path[|path| - 1])
    ensures ParseApp(AppEntry(id, name, Web, ForwardProxyMode, None, Some(Print(o) + path), Some(Printed(origins)))) ==
            Ok(App(id, if Trim(name) == [] then id else name, Web, ForwardProxy(Print(o) + path, origins)))
  {
    assert ValidOrigin(o);
    hide *;
    ForwardProxyIsKept(origins, o, path);
    ForwardBlock(id, name, Print(o) + path, Printed(origins));
  }

  //-- The byte stream of the hash ----------------------------------------------

  function KindName(kind: AppKind): string {
    match kind
    case Web => "web"
    case Jellyfin => "jellyfin"
    case Immich => "immich"
  }

  function ModeText(mode: ProxyMode): string {
    if mode.ReverseProxy? then "reverse-proxy" else "forward-proxy"
  }

  function Printed(origins: seq<Origin>): (r: seq<string>)
    ensures |r| == |origins|
  {
    seq(|origins|, i requires 0 <= i < |origins| => Print(origins[i]))
  }

  function ModeFields(mode: ProxyMode): (r: seq<string>)
    ensures |r| >= 1
  {
    match mode
    case ReverseProxy(upstream) => [upstream]
    case ForwardProxy(startUrl, origins) => [startUrl, Decimal(|origins|)] + Printed(origins)
  }

  function AppFields(app: App): (r: seq<string>)
    ensures |r| >= 5
  {
    [app.id, app.name, KindName(app.kind), ModeText(app.mode)] + ModeFields(app.mode)
  }

  function AllAppFields(apps: seq<App>): (r: seq<string>) {
    if apps == [] then [] else AppFields(apps[0]) + AllAppFields(apps[1..])
  }

  function Fields(c: ShareConfig): (r: seq<string>) {
    [c.name] + AllAppFields(c.apps) + c.caCertificates
  }

  /** Every field's UTF-8 bytes, each ended by a NUL. */
  function FieldStream(fields: seq<string>): (r: seq<byte>) {
    if fields == [] then [] else Utf8(fields[0]) + [0] + FieldStream(fields[1..])
  }

  function Stream(c: ShareConfig): (r: seq<byte>) {
    FieldStream(Fields(c))
  }

  predicate NulFree(fields: seq<string>) {
    forall i :: 0 <= i < |fields| ==> '\0' !in fields[i]
  }

  lemma {:induction false} FieldStreamConcat(a: seq<string>, b: seq<string>)
    ensures FieldStream(a + b) == FieldStream(a) + FieldStream(b)
  {
    if a == [] {
      assert a + b == b;
    } else {
      assert (a + b)[1..] == a[1..] + b;
      FieldStreamConcat(a[1..], b);
    }
  }

  lemma FieldStreamPush(a: seq<string>, f: string)
    ensures FieldStream(a + [f]) == FieldStream(a) + (Utf8(f) + [0])
  {
    FieldStreamConcat(a, [f]);
    assert [f][1..] == [];
  }

  lemma {:induction false} StreamDeterminesFields(a: seq<string>, b: seq<string>)
    requires NulFree(a) && NulFree(b)
    requires FieldStream(a) == FieldStream(b)
    ensures a == b
  {
    if a == [] || b == [] {
      assert |FieldStream(a)| == |FieldStream(b)|;
    } else {
      var x, y := FieldStream(a[1..]), FieldStream(b[1..]);
      SplitFirst(Utf8(a[0]), x, 0);
      SplitFirst(Utf8(b[0]), y, 0);
      var s, t := Split(FieldStream(a), 0), Split(FieldStream(b), 0);
      hide Split, Utf8;
      assert s[0] == Utf8(a[0]) && t[0] == Utf8(b[0]);
      Utf8Injective(a[0], b[0]);
      assert x == FieldStream(a)[|Utf8(a[0])| + 1..] && y == FieldStream(b)[|Utf8(b[0])| + 1..];
      StreamDeterminesFields(a[1..], b[1..]);
      assert a == [a[0]] + a[1..] && b == [b[0]] + b[1..];
    }
  }

  lemma SameMode(kind: AppKind, m: ProxyMode, n: ProxyMode, x: seq<string>, y: seq<string>)
    requires ValidMode(kind, m) && ValidMode(kind, n)
    requires m.ReverseProxy? <==> n.ReverseProxy?
    requires ModeFields(m) + x == ModeFields(n) + y
    ensures m == n
  {
    hide ValidOrigin, SchemeRule, Print, Decimal;
    var s, t := ModeFields(m) + x, ModeFields(n) + y;
    assert s[0] == ModeFields(m)[0] && t[0] == ModeFields(n)[0];
    if m.ForwardProxy? {
      assert s[1] == Decimal(|m.origins|) && t[1] == Decimal(|n.origins|);
      DecimalInjective(|m.origins|, |n.origins|);
      forall i | 0 <= i < |m.origins| ensures m.origins[i] == n.origins[i] {
        assert s[2 + i] == Print(m.origins[i]) && t[2 + i] == Print(n.origins[i]);
        PrintInjective(m.origins[i], n.origins[i]);
      }
      assert m.origins == n.origins;
    }
  }

  lemma NamesDiffer()
    ensures forall k, l :: KindName(k) == KindName(l) ==> k == l
    ensures forall m, n :: ModeText(m) == ModeText(n) ==> (m.ReverseProxy? <==> n.ReverseProxy?)
  {
    assert "reverse-proxy"[0] != "forward-proxy"[0];
    assert |KindName(Web)| == 3 && |KindName(Jellyfin)| == 8 && |KindName(Immich)| == 6;
  }

  lemma SameApp(a: App, b: App, x: seq<string>, y: seq<string>)
    requires ValidApp(a) && ValidApp(b)
    requires AppFields(a) + x == AppFields(b) + y
    ensures a == b && x == y
  {
    hide ModeFields, KindName, ModeText, IsValidId, Trim, ValidMode;
    var s, t := AppFields(a) + x, AppFields(b) + y;
    assert s[0] == a.id && s[1] == a.name && s[2] == KindName(a.kind) && s[3] == ModeText(a.mode);
    assert t[0] == b.id && t[1] == b.name && t[2] == KindName(b.kind) && t[3] == ModeText(b.mode);
    NamesDiffer();
    assert s[4..] == ModeFields(a.mode) + x && t[4..] == ModeFields(b.mode) + y;
    SameMode(a.kind, a.mode, b.mode, x, y);
    assert x == s[|AppFields(a)|..] && y == t[|AppFields(b)|..];
  }

  lemma AppIsNoCertificate(app: App, rest: seq<string>, certs: seq<string>)
    requires ValidApp(app)
    requires forall i :: 0 <= i < |certs| ==> "-" <= certs[i]
    ensures AppFields(app) + rest != certs
  {
    hide Trim, ValidMode, ModeFields;
    assert (AppFields(app) + rest)[0] == app.id && !("-" <= app.id);
  }

  /** An app id never starts with a dash and every certificate does, so the lists can be told apart. */
  lemma {:induction false} SameAppsAndCertificates(
    apps: seq<App>, certs: seq<string>, apps': seq<App>, certs': seq<string>)
    requires forall i :: 0 <= i < |apps| ==> ValidApp(apps[i])
    requires forall i :: 0 <= i < |apps'| ==> ValidApp(apps'[i])
    requires forall i :: 0 <= i < |certs| ==> "-" <= certs[i]
    requires forall i :: 0 <= i < |certs'| ==> "-" <= certs'[i]
    requires AllAppFields(apps) + certs == AllAppFields(apps') + certs'
    ensures apps == apps' && certs == certs'
  {
    hide ValidApp, AppFields;
    var s, t := AllAppFields(apps) + certs, AllAppFields(apps') + certs';
    assert apps == [] ==> s == certs;
    assert apps' == [] ==> t == certs';
    if apps == [] && apps' != [] {
      assert t == AppFields(apps'[0]) + (AllAppFields(apps'[1..]) + certs');
      AppIsNoCertificate(apps'[0], AllAppFields(apps'[1..]) + certs', certs);
    } else if apps != [] && apps' == [] {
      assert s == AppFields(apps[0]) + (AllAppFields(apps[1..]) + certs);
      AppIsNoCertificate(apps[0], AllAppFields(apps[1..]) + certs, certs');
    } else if apps != [] {
      var x, y := AllAppFields(apps[1..]) + certs, AllAppFields(apps'[1..]) + certs';
      assert s == AppFields(apps[0]) + x && t == AppFields(apps'[0]) + y;
      SameApp(apps[0], apps'[0], x, y);
      SameAppsAndCertificates(apps[1..], certs, apps'[1..], certs');
      assert apps == [apps[0]] + apps[1..] && apps' == [apps'[0]] + apps'[1..];
    }
  }

  lemma CertificatesStartWithDash(c: ShareConfig)
    requires Validated(c)
    ensures forall i :: 0 <= i < |c.caCertificates| ==> "-" <= c.caCertificates[i]
  {
    hide ValidApp, Trim;
    assert "-" <= "-----BEGIN CERTIFICATE-----\n";
  }

  /** Among NUL-free validated configs the hashed byte stream determines the config. */
  lemma StreamDeterminesConfig(c: ShareConfig, d: ShareConfig)
    requires Validated(c) && Validated(d)
    requires NulFree(Fields(c)) && NulFree(Fields(d))
    ensures Stream(c) == Stream(d) <==> c == d
  {
    hide ValidApp, AllAppFields, FieldStream, NulFree, Trim;
    if Stream(c) == Stream(d) {
      StreamDeterminesFields(Fields(c), Fields(d));
      var s, t := Fields(c), Fields(d);
      assert s[0] == c.name && t[0] == d.name;
      assert s[1..] == AllAppFields(c.apps) + c.caCertificates;
      assert t[1..] == AllAppFields(d.apps) + d.caCertificates;
      CertificatesStartWithDash(c);
      CertificatesStartWithDash(d);
      SameAppsAndCertificates(c.apps, c.caCertificates, d.apps, d.caCertificates);
    }
  }

  //-- Without the NUL condition --------------------------------------------------

  function JoinNul(fields: seq<string>): (r: string)
    requires fields != []
    ensures fields[0] <= r
  {
    if |fields| == 1 then fields[0] else fields[0] + "\0" + JoinNul(fields[1..])
  }

  lemma Utf8Nul()
    ensures Utf8("\0") == [0]
  {
    assert "\0"[1..] == [];
  }

  lemma {:induction false} JoinedFieldHasTheSameStream(fields: seq<string>)
    requires fields != []
    ensures FieldStream([JoinNul(fields)]) == FieldStream(fields)
  {
    hide Utf8;
    if |fields| > 1 {
      var rest := JoinNul(fields[1..]);
      JoinedFieldHasTheSameStream(fields[1..]);
      Utf8Concat(fields[0] + "\0", rest);
      Utf8Concat(fields[0], "\0");
      Utf8Nul();
      assert [rest][1..] == [] && [JoinNul(fields)][1..] == [];
    } else {
      assert fields[1..] == [] && [fields[0]][1..] == [];
    }
  }

  lemma {:induction false} TrimOfExtensionNotEmpty(s: string, t: string)
    requires Trim(s) != []
    ensures Trim(s + t) != []
  {
    if IsWhitespace(s[0]) {
      assert (s + t)[1..] == s[1..] + t;
      TrimOfExtensionNotEmpty(s[1..], t);
    } else {
      assert TrimStart(s + t) == s + t && (s + t)[0] == s[0];
    }
  }

  /**
   A NUL in the name defeats the separator: every validated config that has an app or a
   certificate shares its stream, and so its hash, with another validated config.
   */
  lemma NulInNameCollides(c: ShareConfig) returns (d: ShareConfig)
    requires Validated(c) && (c.apps != [] || c.caCertificates != [])
    ensures Validated(d) && d != c && Stream(d) == Stream(c)
    ensures Fnv1a.Hash(Stream(d)) == Fnv1a.Hash(Stream(c))
    ensures !NulFree(Fields(d))
  {
    hide ValidApp, AllAppFields, FieldStream, Trim, Fnv1a.Hash;
    d := ShareConfig(JoinNul(Fields(c)), [], []);
    JoinedFieldHasTheSameStream(Fields(c));
    NoAppFields();
    assert Fields(d) == [d.name];
    var t := d.name[|c.name|..];
    assert d.name == c.name + t;
    TrimOfExtensionNotEmpty(c.name, t);
    MoreFieldsThanTheName(c);
    assert d.name[|c.name|] == '\0';
    assert '\0' in Fields(d)[0];
  }

  /** A config that is only a NUL-free name is alone with its stream. */
  lemma LoneNameIsAlone(c: ShareConfig, d: ShareConfig)
    requires NulFree(Fields(c)) && c.apps == [] && c.caCertificates == [] && Stream(d) == Stream(c)
    ensures d == c
  {
    hide Utf8, AppFields;
    NoAppFields();
    var name, other, rest := Utf8(c.name), Utf8(d.name), FieldStream(Fields(d)[1..]);
    assert Fields(c) == [c.name] && [c.name][1..] == [];
    assert '\0' !in Fields(c)[0];
    FieldStreamPush([], c.name);
    assert [] + [c.name] == [c.name] && [] + (name + [0]) == name + [0];
    assert Stream(c) == name + [0] && 0 !in name;
    assert Stream(d) == other + [0] + rest;
    assert forall i :: 0 <= i < |name| ==> Stream(c)[i] != 0;
    assert Stream(d)[|other|] == 0;
    assert |other| == |name| && rest == [];
    assert Fields(d)[1..] == [];
    if d.apps != [] || d.caCertificates != [] {
      MoreFieldsThanTheName(d);
    }
    assert name == Stream(c)[..|name|] && other == Stream(d)[..|name|];
    Utf8Injective(c.name, d.name);
  }

  /** A NUL-free validated config shares its stream with another one exactly if it has an app or a certificate. */
  lemma CollidesExactly(c: ShareConfig)
    requires Validated(c) && NulFree(Fields(c))
    ensures (exists d :: Validated(d) && d != c && Stream(d) == Stream(c)) <==> c.apps != [] || c.caCertificates != []
  {
    hide Validated, Stream, Fields, NulFree;
    if c.apps != [] || c.caCertificates != [] {
      var d := NulInNameCollides(c);
    } else if d :| Validated(d) && d != c && Stream(d) == Stream(c) {
      LoneNameIsAlone(c, d);
    }
  }

  lemma NoAppFields()
    ensures AllAppFields([]) == []
  {
  }

  lemma MoreFieldsThanTheName(c: ShareConfig)
    requires c.apps != [] || c.caCertificates != []
    ensures |Fields(c)| > 1
  {
    hide AppFields;
  }

  /** `config_hash`: the nested loops feed exactly the stream above. */
  method ConfigHash(c: ShareConfig) returns (h: Fnv1a.word)
    ensures h == Fnv1a.Hash(Stream(c))
  {
    var hasher := new Fnv1a.Hasher();
    assert hasher.state == Fnv1a.Hash(FieldStream([]));
    NoAppFields();
    hide FieldStream, AllAppFields, Fnv1a.Hash;
    WriteField(hasher, c.name, []);
    assert [] + [c.name] == [c.name];
    WriteApps(hasher, c.apps, [c.name]);
    WriteFields(hasher, c.caCertificates, [c.name] + AllAppFields(c.apps));
    h := hasher.state;
  }

  lemma AppsPrefix(apps: seq<App>, n: nat, fed: seq<string>)
    requires n < |apps|
    ensures fed + AllAppFields(apps[..n]) + AppFields(apps[n]) == fed + AllAppFields(apps[..n + 1])
  {
    hide *;
    AllAppFieldsPush(apps[..n], apps[n]);
    assert apps[..n] + [apps[n]] == apps[..n + 1];
  }

  method WriteApps(hasher: Fnv1a.Hasher, apps: seq<App>, ghost fed: seq<string>)
    requires hasher.state == Fnv1a.Hash(FieldStream(fed))
    modifies hasher
    ensures hasher.state == Fnv1a.Hash(FieldStream(fed + AllAppFields(apps)))
  {
    assert fed + AllAppFields(apps[..0]) == fed;
    hide *;
    for n := 0 to |apps|
      invariant hasher.state == Fnv1a.Hash(FieldStream(fed + AllAppFields(apps[..n])))
    {
      WriteApp(hasher, apps[n], fed + AllAppFields(apps[..n]));
      AppsPrefix(apps, n, fed);
    }
    assert apps[..|apps|] == apps;
  }

  method WriteFields(hasher: Fnv1a.Hasher, fields: seq<string>, ghost fed: seq<string>)
    requires hasher.state == Fnv1a.Hash(FieldStream(fed))
    modifies hasher
    ensures hasher.state == Fnv1a.Hash(FieldStream(fed + fields))
  {
    hide *;
    ghost var done := fed;
    for n := 0 to |fields|
      invariant done == fed + fields[..n]
      invariant hasher.state == Fnv1a.Hash(FieldStream(done))
    {
      WriteField(hasher, fields[n], done);
      done := done + [fields[n]];
    }
    assert fields[..|fields|] == fields;
  }

  lemma {:induction false} AllAppFieldsPush(apps: seq<App>, app: App)
    ensures AllAppFields(apps + [app]) == AllAppFields(apps) + AppFields(app)
  {
    if apps == [] {
      assert [app][1..] == [];
    } else {
      assert (apps + [app])[1..] == apps[1..] + [app];
      AllAppFieldsPush(apps[1..], app);
    }
  }

  method WriteField(hasher: Fnv1a.Hasher, field: string, ghost fed: seq<string>)
    requires hasher.state == Fnv1a.Hash(FieldStream(fed))
    modifies hasher
    ensures hasher.state == Fnv1a.Hash(FieldStream(fed + [field]))
  {
    hide FieldStream, Utf8;
    hasher.Write(Utf8(field));
    FieldStreamPush(fed, field);
    Fnv1a.FoldConcat(Fnv1a.OFFSET_BASIS, FieldStream(fed), Utf8(field) + [0]);
  }

  method WriteApp(hasher: Fnv1a.Hasher, app: App, ghost fed: seq<string>)
    requires hasher.state == Fnv1a.Hash(FieldStream(fed))
    modifies hasher
    ensures hasher.state == Fnv1a.Hash(FieldStream(fed + AppFields(app)))
  {
    hide FieldStream, Fnv1a.Hash, KindName, ModeText, Print, Decimal;
    WriteField(hasher, app.id, fed);
    WriteField(hasher, app.name, fed + [app.id]);
    WriteField(hasher, KindName(app.kind), fed + [app.id] + [app.name]);
    WriteField(hasher, ModeText(app.mode), fed + [app.id] + [app.name] + [KindName(app.kind)]);
    ghost var head := fed + [app.id, app.name, KindName(app.kind), ModeText(app.mode)];
    assert fed + [app.id] + [app.name] + [KindName(app.kind)] + [ModeText(app.mode)] == head;
    match app.mode {
      case ReverseProxy(upstream) =>
        WriteField(hasher, upstream, head);
      case ForwardProxy(startUrl, origins) =>
        WriteField(hasher, startUrl, head);
        WriteField(hasher, Decimal(|origins|), head + [startUrl]);
        ghost var body := head + [startUrl] + [Decimal(|origins|)];
        WriteFields(hasher, Printed(origins), body);
        assert body + Printed(origins) == head + ModeFields(app.mode);
    }
    assert head + ModeFields(app.mode) == fed + AppFields(app);
  }
}

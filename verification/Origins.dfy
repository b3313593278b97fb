/**
 Web origins (wire/src/lib.rs): `scheme://host[:port]`, how they are printed and how
 they are read. Only this fragment of the URL syntax is modelled.
 */
module Origins {
  import opened Prelude

  datatype Origin = Origin(https: bool, host: string, port: nat)

  /** A parsed URL: its origin, and the path, query and fragment as written. */
  datatype Url = Url(origin: Origin, rest: string)

  function DefaultPort(https: bool): nat { if https then 443 else 80 }

  /** ASCII characters a domain or IPv4 host may hold. */
  predicate IsHostChar(c: char) {
    '!' <= c <= '~' && c !in "#/:<>?@[\\]^|%"
  }

  predicate IsDomain(h: string) {
    h != [] && forall i :: 0 <= i < |h| ==> IsHostChar(h[i])
  }

  predicate IsAddressChar(c: char) {
    IsDigit(c) || 'a' <= c <= 'f' || c == ':' || c == '.'
  }

  /** An IPv6 literal in brackets. */
  predicate IsBracketed(h: string) {
    |h| >= 4 && h[0] == '[' && h[|h| - 1] == ']' && forall i :: 1 <= i < |h| - 1 ==> IsAddressChar(h[i])
  }

  predicate ValidHost(h: string) {
    IsLower(h) && (IsDomain(h) || IsBracketed(h))
  }

  predicate ValidOrigin(o: Origin) {
    ValidHost(o.host) && o.port < 65536
  }

  predicate IsLoopback(o: Origin) {
    o.host == "localhost" || o.host == "127.0.0.1" || o.host == "[::1]"
  }

  function Scheme(https: bool): string { if https then "https://" else "http://" }

  function Print(o: Origin): string {
    Scheme(o.https) + (o.host + PrintedPort(o))
  }

  function PrintedPort(o: Origin): string {
    if o.port == DefaultPort(o.https) then [] else ":" + Decimal(o.port)
  }

  function ParsePort(text: string, default: nat): (r: Option<nat>) {
    if text == [] then Some(default)
    else if exists i :: 0 <= i < |text| && !IsDigit(text[i]) then None
    else if DecimalValue(text) < 65536 then Some(DecimalValue(text))
    else None
  }

  /** `host[:port]`, with the host folded to lowercase. */
  function ParseAuthority(https: bool, a: string): (r: Option<Origin>) {
    var end := if a != [] && a[0] == '[' then Until(a, "]") + 1 else Until(a, ":");
    if |a| < end then None
    else
      var host, tail := Lower(a[..end]), a[end..];
      if !(IsDomain(host) || IsBracketed(host)) then None
      else if tail != [] && tail[0] != ':' then None
      else
        match ParsePort(if tail == [] then [] else tail[1..], DefaultPort(https))
        case None => None
        case Some(port) => Some(Origin(https, host, port))
  }

  function ParseAfterScheme(https: bool, s: string): (r: Option<Url>) {
    var end := Until(s, "/?#");
    match ParseAuthority(https, s[..end])
    case None => None
    case Some(origin) => Some(Url(origin, s[end..]))
  }

  function ParseUrl(s: string): (r: Option<Url>) {
    if |s| >= 8 && Lower(s[..8]) == "https://" then ParseAfterScheme(true, s[8..])
    else if |s| >= 7 && Lower(s[..7]) == "http://" then ParseAfterScheme(false, s[7..])
    else None
  }

  /** `Origin::from_str`: no path but an optional slash, no query, no fragment. */
  function ParseOrigin(s: string): (r: Option<Origin>) {
    match ParseUrl(Trim(s))
    case None => None
    case Some(url) => if url.rest == [] || url.rest == "/" then Some(url.origin) else None
  }

  lemma LowerLower(s: string)
    ensures IsLower(Lower(s))
  {
    assert forall c :: LowerChar(LowerChar(c)) == LowerChar(c);
  }

  lemma ParsedAuthorityIsValid(https: bool, a: string)
    requires ParseAuthority(https, a).Some?
    ensures ValidOrigin(ParseAuthority(https, a).value)
    ensures ParseAuthority(https, a).value.https == https
  {
    var end := if a != [] && a[0] == '[' then Until(a, "]") + 1 else Until(a, ":");
    LowerLower(a[..end]);
  }

  /** Whatever parses is normalised: a lowercase host and a 16-bit port. */
  lemma ParsedUrlIsValid(s: string)
    requires ParseUrl(s).Some?
    ensures ValidOrigin(ParseUrl(s).value.origin)
  {
    var https := |s| >= 8 && Lower(s[..8]) == "https://";
    var t := if https then s[8..] else s[7..];
    ParsedAuthorityIsValid(https, t[..Until(t, "/?#")]);
  }

  lemma ParsedOriginIsValid(s: string)
    requires ParseOrigin(s).Some?
    ensures ValidOrigin(ParseOrigin(s).value)
  {
    ParsedUrlIsValid(Trim(s));
  }

  lemma PortRoundTrip(o: Origin)
    requires o.port < 65536
    ensures var p := PrintedPort(o);
            ParsePort(if p == [] then [] else p[1..], DefaultPort(o.https)) == Some(o.port)
  {
    if o.port != DefaultPort(o.https) {
      assert PrintedPort(o)[1..] == Decimal(o.port);
      DecimalRoundTrip(o.port);
    }
  }

  lemma AuthorityRoundTrip(o: Origin)
    requires ValidOrigin(o)
    ensures ParseAuthority(o.https, o.host + PrintedPort(o)) == Some(o)
  {
    var a, p := o.host + PrintedPort(o), PrintedPort(o);
    assert p != [] ==> p[0] == ':';
    if o.host[0] == '[' {
      UntilIs(a, "]", |o.host| - 1);
    } else {
      UntilIs(a, ":", |o.host|);
    }
    assert a[..|o.host|] == o.host && a[|o.host|..] == p;
    PortRoundTrip(o);
  }

  lemma HostChars(o: Origin)
    requires ValidOrigin(o)
    ensures forall i :: 0 <= i < |o.host| ==> '!' <= o.host[i] <= '~' && o.host[i] !in "/?#"
  {
  }

  lemma PortChars(o: Origin)
    requires ValidOrigin(o)
    ensures var p := PrintedPort(o); forall i :: 0 <= i < |p| ==> p[i] == ':' || IsDigit(p[i])
  {
  }

  /** The characters of a printed origin are all visible ASCII. */
  lemma PrintedChars(o: Origin)
    requires ValidOrigin(o)
    ensures forall i :: 0 <= i < |Print(o)| ==> '!' <= Print(o)[i] <= '~'
    ensures forall i :: 0 <= i < |o.host + PrintedPort(o)| ==> (o.host + PrintedPort(o))[i] !in "/?#"
  {
    HostChars(o);
    PortChars(o);
    hide ValidOrigin, PrintedPort;
  }

  lemma SchemeIsRead(https: bool, a: string)
    ensures ParseUrl(Scheme(https) + a) == ParseAfterScheme(https, a)
  {
    if https {
      var s := "https://" + a;
      assert s[..8] == "https://" && s[8..] == a;
      assert Lower("https://") == "https://";
    } else {
      var s := "http://" + a;
      assert s[..7] == "http://" && s[7..] == a;
      assert Lower("http://") == "http://";
      if |s| >= 8 {
        assert Lower(s[..8])[4] == ':';
      }
    }
  }

  lemma PrintedTrims(o: Origin)
    requires ValidOrigin(o)
    ensures Trim(Print(o)) == Print(o)
  {
    PrintedChars(o);
    var s := Print(o);
    assert !IsWhitespace(s[0]) && !IsWhitespace(s[|s| - 1]);
    TrimIdentity(s);
  }

  lemma AfterSchemeRoundTrip(o: Origin)
    requires ValidOrigin(o)
    ensures ParseAfterScheme(o.https, o.host + PrintedPort(o)) == Some(Url(o, []))
  {
    var a := o.host + PrintedPort(o);
    PrintedChars(o);
    UntilIs(a, "/?#", |a|);
    assert a[..|a|] == a && a[|a|..] == [];
    AuthorityRoundTrip(o);
  }

  /** Every origin parses back from its printed form. */
  lemma PrintParse(o: Origin)
    requires ValidOrigin(o)
    ensures ParseOrigin(Print(o)) == Some(o)
  {
    assert Trim(Print(o)) == Print(o) by { PrintedTrims(o); }
    assert ParseUrl(Print(o)) == Some(Url(o, [])) by {
      AfterSchemeRoundTrip(o);
      SchemeIsRead(o.https, o.host + PrintedPort(o));
    }
  }

  lemma PrintInjective(o: Origin, q: Origin)
    requires ValidOrigin(o) && ValidOrigin(q) && Print(o) == Print(q)
    ensures o == q
  {
    PrintParse(o);
    PrintParse(q);
  }

  //-- What may be written ----------------------------------------------------------------

  /** A host without a port has the scheme's: 443 for https, 80 for http. */
  lemma PortsByDefault(host: string)
    requires ValidHost(host)
    ensures ParseOrigin("https://" + host) == Some(Origin(true, host, 443))
    ensures ParseOrigin("http://" + host) == Some(Origin(false, host, 80))
  {
    assert host + [] == host;
    assert Print(Origin(true, host, 443)) == "https://" + host;
    assert Print(Origin(false, host, 80)) == "http://" + host;
    assert ValidOrigin(Origin(true, host, 443)) && ValidOrigin(Origin(false, host, 80));
    hide *;
    PrintParse(Origin(true, host, 443));
    PrintParse(Origin(false, host, 80));
  }

  /** Any other port is the one written. */
  lemma PortsAsWritten(https: bool, host: string, port: nat)
    requires ValidHost(host) && port < 65536 && port != 443 && port != 80
    ensures ParseOrigin((if https then "https://" else "http://") + host + ":" + Decimal(port)) == Some(Origin(https, host, port))
  {
    var o, tail := Origin(https, host, port), ":" + Decimal(port);
    var scheme := if https then "https://" else "http://";
    assert Print(o) == scheme + (host + tail);
    assert ValidOrigin(o);
    hide *;
    PrintParse(o);
    Reassociate(scheme, host, tail);
    Reassociate(scheme + host, ":", Decimal(port));
  }

  lemma AfterSchemeWithPath(o: Origin, path: string)
    requires ValidOrigin(o) && path != [] && path[0] in "/?#"
    ensures ParseAfterScheme(o.https, o.host + PrintedPort(o) + path) == Some(Url(o, path))
  {
    var a := o.host + PrintedPort(o);
    PrintedChars(o);
    UntilIs(a + path, "/?#", |a|);
    assert (a + path)[..|a|] == a && (a + path)[|a|..] == path;
    AuthorityRoundTrip(o);
  }

  lemma UrlTrims(o: Origin, path: string)
    requires ValidOrigin(o) && path != [] && !IsWhitespace(path[|path| - 1])
    ensures Trim(Print(o) + path) == Print(o) + path
  {
    PrintedChars(o);
    hide ValidOrigin, PrintedPort;
    var s := Print(o) + path;
    assert s[0] == Print(o)[0] && s[|s| - 1] == path[|path| - 1];
    TrimIdentity(s);
  }

  /** A URL is its origin and what follows it; as an origin it may have a lone slash, nothing more. */
  lemma UrlIsOriginAndPath(o: Origin, path: string)
    requires ValidOrigin(o) && path != [] && path[0] in "/?#" && !IsWhitespace(path[|path| - 1])
    ensures Trim(Print(o) + path) == Print(o) + path && ParseUrl(Print(o) + path) == Some(Url(o, path))
    ensures ParseOrigin(Print(o) + path) == if path == "/" then Some(o) else None
  {
    hide ValidOrigin, ParseUrl, PrintedPort, ParseAfterScheme, Trim, Scheme;
    UrlTrims(o, path);
    UrlReads(o, path);
  }

  lemma UrlReads(o: Origin, path: string)
    requires ValidOrigin(o) && path != [] && path[0] in "/?#"
    ensures ParseUrl(Print(o) + path) == Some(Url(o, path))
  {
    assert Print(o) == Scheme(o.https) + (o.host + PrintedPort(o));
    hide *;
    AfterSchemeWithPath(o, path);
    Reassociate(Scheme(o.https), o.host + PrintedPort(o), path);
    SchemeIsRead(o.https, o.host + PrintedPort(o) + path);
  }
}

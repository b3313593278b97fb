/**
 What a guest node is told about a share (waserver/src/guest_api.rs), and the checks of
 a tunnel's target on both sides: the host's (waserver/src/config.rs), the guest's
 (sdk/src/forward_proxy.rs) and the loopback forwarder's (sdk/src/loopback_forwarding.rs).
 */
module SharedApps {
  import opened Prelude
  import opened Origins
  import opened ShareConfigs
  import Fnv1a

  datatype WireMode = WireReverseProxy | WireForwardProxy | WireUnknown

  datatype SharedApp = SharedApp(
    id: string, name: string, kind: AppKind, mode: WireMode,
    startUrl: Option<string>, proxiedOrigins: seq<string>)

  datatype ShareInfo = ShareInfo(
    configHash: Fnv1a.word, name: string, apps: seq<SharedApp>, caCertificates: seq<string>)

  /** An app without its upstream. */
  function AppView(app: App): (r: SharedApp) {
    match app.mode
    case ReverseProxy(_) => SharedApp(app.id, app.name, app.kind, WireReverseProxy, None, [])
    case ForwardProxy(startUrl, origins) =>
      SharedApp(app.id, app.name, app.kind, WireForwardProxy, Some(startUrl), Printed(origins))
  }

  function AppViews(apps: seq<App>): (r: seq<SharedApp>)
    ensures |r| == |apps|
    ensures forall i :: 0 <= i < |apps| ==> r[i] == AppView(apps[i])
  {
    seq(|apps|, i requires 0 <= i < |apps| => AppView(apps[i]))
  }

  function HashOf(c: ShareConfig): Fnv1a.word {
    Fnv1a.Hash(Stream(c))
  }

  function ShareInfoOf(c: ShareConfig): (r: ShareInfo) {
    ShareInfo(HashOf(c), c.name, AppViews(c.apps), c.caCertificates)
  }

  //-- What guests are sent, and what they are not -----------------------------------

  /** The configs may differ in where the reverse-proxied apps are served, and in nothing else. */
  predicate SameButUpstreams(c: ShareConfig, d: ShareConfig) {
    && c.name == d.name && c.caCertificates == d.caCertificates && |c.apps| == |d.apps|
    && forall i :: 0 <= i < |c.apps| ==>
         && c.apps[i].id == d.apps[i].id && c.apps[i].name == d.apps[i].name && c.apps[i].kind == d.apps[i].kind
         && ((c.apps[i].mode.ReverseProxy? && d.apps[i].mode.ReverseProxy?) || c.apps[i].mode == d.apps[i].mode)
  }

  /** Upstreams are not sent: all a guest could learn of them is that the hash differs. */
  lemma UpstreamsAreNotSent(c: ShareConfig, d: ShareConfig)
    requires SameButUpstreams(c, d)
    ensures ShareInfoOf(d) == ShareInfoOf(c).(configHash := ShareInfoOf(d).configHash)
  {
    hide HashOf, Printed;
    forall i | 0 <= i < |c.apps| ensures AppViews(c.apps)[i] == AppViews(d.apps)[i] {
      assert c.apps[i].id == d.apps[i].id;
    }
  }

  /** Each app is sent as what it is: a start URL and origins exactly for a forward-proxy app. */
  lemma ViewSaysWhatIsShared(c: ShareConfig)
    requires Validated(c)
    ensures var info := ShareInfoOf(c);
            && info.configHash == Fnv1a.Hash(Stream(c)) && info.name == c.name && info.caCertificates == c.caCertificates
            && |info.apps| == |c.apps|
            && forall i :: 0 <= i < |c.apps| ==> SaysOf(info.apps[i], c.apps[i])
  {
    hide Fnv1a.Hash, Stream, Trim, ParseOrigin, SaysOf;
    forall i | 0 <= i < |c.apps| ensures SaysOf(ShareInfoOf(c).apps[i], c.apps[i]) {
      assert ValidApp(c.apps[i]);
      hide Validated, IsValidId;
      AppSaysWhatItIs(c.apps[i]);
    }
  }

  predicate SaysOf(view: SharedApp, app: App) {
    && view.id == app.id && view.name == app.name && view.kind == app.kind
    && (view.mode.WireReverseProxy? <==> app.mode.ReverseProxy?)
    && (view.mode.WireForwardProxy? <==> app.mode.ForwardProxy?)
    && (app.mode.ReverseProxy? ==> view.startUrl == None && view.proxiedOrigins == [])
    && (app.mode.ForwardProxy? ==>
          view.startUrl == Some(app.mode.startUrl) && |view.proxiedOrigins| == |app.mode.origins|
          && forall j :: 0 <= j < |app.mode.origins| ==> ParseOrigin(view.proxiedOrigins[j]) == Some(app.mode.origins[j]))
  }

  lemma AppSaysWhatItIs(app: App)
    requires ValidApp(app)
    ensures SaysOf(AppView(app), app)
  {
    hide IsValidId, Trim, ParseOrigin, ValidOrigin, Print;
    if app.mode.ForwardProxy? {
      var origins := app.mode.origins;
      forall j | 0 <= j < |origins| ensures ParseOrigin(AppView(app).proxiedOrigins[j]) == Some(origins[j]) {
        assert AppView(app).proxiedOrigins[j] == Print(origins[j]);
        PrintParse(origins[j]);
      }
    }
  }

  //-- Who admits which target ----------------------------------------------------

  predicate EqIgnoreCase(a: string, b: string) { Lower(a) == Lower(b) }

  predicate HasOriginAt(origins: seq<Origin>, host: string, port: nat) {
    exists j :: 0 <= j < |origins| && EqIgnoreCase(origins[j].host, host) && origins[j].port == port
  }

  /** `ShareConfig::has_proxied_origin`, the host's check. */
  predicate HasProxiedOrigin(c: ShareConfig, host: string, port: nat) {
    exists i :: 0 <= i < |c.apps| && c.apps[i].mode.ForwardProxy? && HasOriginAt(c.apps[i].mode.origins, host, port)
  }

  predicate ParsesTo(text: string, host: string, port: nat) {
    var o := ParseOrigin(text);
    o.Some? && o.value.host == host && o.value.port == port
  }

  predicate AppListsOrigin(app: SharedApp, host: string, port: nat) {
    app.mode == WireForwardProxy
    && exists j :: 0 <= j < |app.proxiedOrigins| && ParsesTo(app.proxiedOrigins[j], host, port)
  }

  /** `lists_origin`, the guest's check on the view it was sent. */
  predicate ListsOrigin(apps: seq<SharedApp>, host: string, port: nat) {
    exists i :: 0 <= i < |apps| && AppListsOrigin(apps[i], host, port)
  }

  lemma PrintedParsesTo(o: Origin, host: string, port: nat)
    requires ValidOrigin(o) && IsLower(host)
    ensures ParsesTo(Print(o), host, port) <==> EqIgnoreCase(o.host, host) && o.port == port
  {
    hide ParseOrigin, Print;
    PrintParse(o);
  }

  lemma AppAgrees(app: App, host: string, port: nat)
    requires ValidApp(app) && IsLower(host)
    ensures AppListsOrigin(AppView(app), host, port) <==>
            app.mode.ForwardProxy? && HasOriginAt(app.mode.origins, host, port)
  {
    hide ValidOrigin, SchemeRule, EqIgnoreCase, ParsesTo, IsValidId, Trim, Print, IsLower;
    if app.mode.ForwardProxy? {
      var origins, texts := app.mode.origins, AppView(app).proxiedOrigins;
      forall j | 0 <= j < |origins|
        ensures ParsesTo(texts[j], host, port) <==> EqIgnoreCase(origins[j].host, host) && origins[j].port == port
      {
        PrintedParsesTo(origins[j], host, port);
      }
    }
  }

  /** The guest's check on the view it was sent admits a target exactly if the host's does. */
  lemma ChecksAgree(c: ShareConfig, host: string, port: nat)
    requires Validated(c) && IsLower(host)
    ensures ListsOrigin(ShareInfoOf(c).apps, host, port) <==> HasProxiedOrigin(c, host, port)
  {
    hide ValidApp, AppListsOrigin, HasOriginAt, AppView, IsLower, Trim, HashOf;
    forall i | 0 <= i < |c.apps|
      ensures AppListsOrigin(ShareInfoOf(c).apps[i], host, port) <==>
              c.apps[i].mode.ForwardProxy? && HasOriginAt(c.apps[i].mode.origins, host, port)
    {
      AppAgrees(c.apps[i], host, port);
    }
  }

  //-- The loopback forwarder -------------------------------------------------------

  function ParsedOrigins(texts: seq<string>): (r: seq<Origin>) {
    if texts == [] then []
    else (match ParseOrigin(texts[0])
          case Some(o) => [o]
          case None => []) + ParsedOrigins(texts[1..])
  }

  /** `share_origins`: every origin of the forward-proxy apps, except those that do not parse. */
  function ShareOrigins(apps: seq<SharedApp>): (r: seq<Origin>) {
    if apps == [] then []
    else (if apps[0].mode == WireForwardProxy then ParsedOrigins(apps[0].proxiedOrigins) else [])
         + ShareOrigins(apps[1..])
  }

  predicate Forwarded(o: Origin) { IsLoopback(o) && !o.https }

  predicate Distinct(hosts: seq<string>) {
    forall i, j :: 0 <= i < j < |hosts| ==> hosts[i] != hosts[j]
  }

  /** The ports of the forwarded origins, each with the hosts the origins on it name, once each. */
  ghost predicate PortsOf(origins: seq<Origin>, ports: map<nat, seq<string>>) {
    && (forall p :: p in ports ==> ports[p] != [] && Distinct(ports[p]))
    && (forall p, h :: p in ports && h in ports[p] ==> Names(origins, p, h))
    && (forall i :: 0 <= i < |origins| && Forwarded(origins[i]) ==>
          origins[i].port in ports && origins[i].host in ports[origins[i].port])
  }

  ghost predicate Names(origins: seq<Origin>, p: nat, h: string) {
    exists i :: 0 <= i < |origins| && Forwarded(origins[i]) && origins[i].port == p && origins[i].host == h
  }

  method LoopbackPorts(apps: seq<SharedApp>) returns (ports: map<nat, seq<string>>)
    ensures PortsOf(ShareOrigins(apps), ports)
  {
    hide IsLoopback, ShareOrigins;
    var origins := ShareOrigins(apps);
    ports := map[];
    for n := 0 to |origins|
      invariant PortsOf(origins[..n], ports)
    {
      var o := origins[n];
      if Forwarded(o) {
        var hosts := if o.port in ports then ports[o.port] else [];
        var added := if o.host in hosts then hosts else hosts + [o.host];
        PortAdded(origins, n, ports, added);
        ports := ports[o.port := added];
      } else {
        PortSkipped(origins, n, ports);
      }
    }
    assert origins[..|origins|] == origins;
  }

  lemma NamesGrows(origins: seq<Origin>, n: nat, p: nat, h: string)
    requires n < |origins| && Names(origins[..n], p, h)
    ensures Names(origins[..n + 1], p, h)
  {
    var i :| 0 <= i < n && Forwarded(origins[..n][i]) && origins[..n][i].port == p && origins[..n][i].host == h;
    assert origins[..n + 1][i] == origins[..n][i];
  }

  lemma PortSkipped(origins: seq<Origin>, n: nat, ports: map<nat, seq<string>>)
    requires n < |origins| && !Forwarded(origins[n]) && PortsOf(origins[..n], ports)
    ensures PortsOf(origins[..n + 1], ports)
  {
    hide IsLoopback, Distinct, Names, Forwarded;
    forall p, h | p in ports && h in ports[p] ensures Names(origins[..n + 1], p, h) {
      NamesGrows(origins, n, p, h);
    }
    var seen := origins[..n + 1];
    forall i | 0 <= i < |seen| && Forwarded(seen[i]) ensures seen[i].port in ports && seen[i].host in ports[seen[i].port] {
      assert i < n && seen[i] == origins[..n][i];
    }
  }

  lemma PortAdded(origins: seq<Origin>, n: nat, ports: map<nat, seq<string>>, added: seq<string>)
    requires n < |origins| && Forwarded(origins[n]) && PortsOf(origins[..n], ports)
    requires var o := origins[n];
             var hosts := if o.port in ports then ports[o.port] else [];
             added == if o.host in hosts then hosts else hosts + [o.host]
    ensures PortsOf(origins[..n + 1], ports[origins[n].port := added])
  {
    hide IsLoopback, Names, Forwarded;
    var o, ports' := origins[n], ports[origins[n].port := added];
    forall p, h | p in ports' && h in ports'[p] ensures Names(origins[..n + 1], p, h) {
      if p in ports && h in ports[p] {
        NamesGrows(origins, n, p, h);
      } else {
        NamesLast(origins, n);
      }
    }
    var seen := origins[..n + 1];
    forall i | 0 <= i < |seen| && Forwarded(seen[i])
      ensures seen[i].port in ports' && seen[i].host in ports'[seen[i].port]
    {
      if i < n {
        assert seen[i] == origins[..n][i];
      }
    }
  }

  lemma NamesLast(origins: seq<Origin>, n: nat)
    requires n < |origins| && Forwarded(origins[n])
    ensures Names(origins[..n + 1], origins[n].port, origins[n].host)
  {
    assert origins[..n + 1][n] == origins[n];
  }

  /** `tunnel_host`: the host the request names, whatever its case, else the port's first. */
  function TunnelHost(named: Option<string>, hosts: seq<string>): (r: string)
    requires hosts != []
    ensures r in hosts
    ensures named.Some? && (exists h :: h in hosts && EqIgnoreCase(h, named.value)) ==> EqIgnoreCase(r, named.value)
  {
    if named.None? then hosts[0]
    else if EqIgnoreCase(hosts[0], named.value) then hosts[0]
    else if |hosts| == 1 then hosts[0]
    else
      var r := TunnelHost(named, hosts[1..]);
      assert hosts == [hosts[0]] + hosts[1..];
      if EqIgnoreCase(r, named.value) then r else hosts[0]
  }

  lemma {:induction false} ParsedOriginFrom(texts: seq<string>, o: Origin)
    requires o in ParsedOrigins(texts)
    ensures exists j :: 0 <= j < |texts| && ParsesTo(texts[j], o.host, o.port)
  {
    hide ParseOrigin;
    if ParseOrigin(texts[0]) == Some(o) {
      assert ParsesTo(texts[0], o.host, o.port);
    } else {
      ParsedOriginFrom(texts[1..], o);
      var j :| 0 <= j < |texts[1..]| && ParsesTo(texts[1..][j], o.host, o.port);
      assert texts[j + 1] == texts[1..][j];
    }
  }

  lemma ParsedIsListed(app: SharedApp, o: Origin)
    requires app.mode == WireForwardProxy && o in ParsedOrigins(app.proxiedOrigins)
    ensures AppListsOrigin(app, o.host, o.port)
  {
    hide ParsedOrigins, ParsesTo;
    ParsedOriginFrom(app.proxiedOrigins, o);
  }

  lemma {:induction false} ShareOriginIsListed(apps: seq<SharedApp>, o: Origin)
    requires o in ShareOrigins(apps)
    ensures ListsOrigin(apps, o.host, o.port)
  {
    hide ParsedOrigins, ParsesTo, AppListsOrigin;
    if apps[0].mode == WireForwardProxy && o in ParsedOrigins(apps[0].proxiedOrigins) {
      ParsedIsListed(apps[0], o);
    } else {
      ShareOriginIsListed(apps[1..], o);
      var i :| 0 <= i < |apps[1..]| && AppListsOrigin(apps[1..][i], o.host, o.port);
      assert apps[i + 1] == apps[1..][i];
    }
  }

  lemma LoopbackHostsAreLower(o: Origin)
    requires IsLoopback(o)
    ensures IsLower(o.host)
  {
  }

  /** Whatever the request names, the target the loopback forwarder picks is one the host admits. */
  lemma ForwarderTargetAdmitted(c: ShareConfig, ports: map<nat, seq<string>>, p: nat, named: Option<string>)
    requires Validated(c)
    requires PortsOf(ShareOrigins(ShareInfoOf(c).apps), ports) && p in ports
    ensures ports[p] != []
    ensures HasProxiedOrigin(c, TunnelHost(named, ports[p]), p)
  {
    var apps := ShareInfoOf(c).apps;
    var host := TunnelHost(named, ports[p]);
    assert Names(ShareOrigins(apps), p, host);
    var i :| 0 <= i < |ShareOrigins(apps)| && Forwarded(ShareOrigins(apps)[i])
             && ShareOrigins(apps)[i].port == p && ShareOrigins(apps)[i].host == host;
    var o := ShareOrigins(apps)[i];
    hide *;
    ShareOriginIsListed(apps, o);
    assert IsLower(host) by { ForwardedIsLoopback(o); LoopbackHostsAreLower(o); }
    ChecksAgree(c, host, p);
  }

  lemma ForwardedIsLoopback(o: Origin)
    requires Forwarded(o)
    ensures IsLoopback(o)
  {
  }

  lemma {:induction false} ParsedOriginsHave(texts: seq<string>, j: nat)
    requires j < |texts| && ParseOrigin(texts[j]).Some?
    ensures ParseOrigin(texts[j]).value in ParsedOrigins(texts)
  {
    hide ParseOrigin;
    if j > 0 {
      ParsedOriginsHave(texts[1..], j - 1);
    }
  }

  lemma {:induction false} ShareOriginsHave(apps: seq<SharedApp>, i: nat, o: Origin)
    requires i < |apps| && apps[i].mode == WireForwardProxy && o in ParsedOrigins(apps[i].proxiedOrigins)
    ensures o in ShareOrigins(apps)
  {
    hide ParsedOrigins;
    if i > 0 {
      ShareOriginsHave(apps[1..], i - 1, o);
    }
  }

  /** Every http loopback origin of a validated app gets its port, and that port its host. */
  lemma LoopbackOriginsGetAPort(c: ShareConfig, ports: map<nat, seq<string>>, i: nat, o: Origin)
    requires Validated(c) && PortsOf(ShareOrigins(ShareInfoOf(c).apps), ports)
    requires i < |c.apps| && c.apps[i].mode.ForwardProxy? && o in c.apps[i].mode.origins
    requires !o.https && o.host in {"localhost", "127.0.0.1", "[::1]"}
    ensures o.port in ports && o.host in ports[o.port]
  {
    var apps := ShareInfoOf(c).apps;
    assert Forwarded(o);
    assert ValidApp(c.apps[i]);
    hide Validated, IsValidId, Trim, HashOf, ParseOrigin, ShareOrigins, ParsedOrigins, ValidOrigin;
    AppSaysWhatItIs(c.apps[i]);
    var j :| 0 <= j < |c.apps[i].mode.origins| && c.apps[i].mode.origins[j] == o;
    ParsedOriginsHave(apps[i].proxiedOrigins, j);
    ShareOriginsHave(apps, i, o);
  }

  /** And no port is there for anything else. */
  lemma PortsAreLoopback(apps: seq<SharedApp>, ports: map<nat, seq<string>>, p: nat, h: string)
    requires PortsOf(ShareOrigins(apps), ports) && p in ports && h in ports[p]
    ensures h in {"localhost", "127.0.0.1", "[::1]"} && Origin(false, h, p) in ShareOrigins(apps)
  {
    hide ShareOrigins;
    var origins := ShareOrigins(apps);
    assert Names(origins, p, h);
    var i :| 0 <= i < |origins| && Forwarded(origins[i]) && origins[i].port == p && origins[i].host == h;
    assert origins[i] == Origin(false, h, p);
  }
}

/** The operator's view of upstreams (pkg/operator/configgen/generator.go): the proxy
    configuration built from them, with the files that the configuration names. */
module ConfigGen {
  import opened Json

  /** A key of a ConfigMap in the upstream's namespace. */
  datatype Ref = Ref(name: string, key: string)

  /** An MCPUpstream; `settings` stands for what is copied as it is (auth, transport,
      validation, rate limit). */
  datatype Upstream = Upstream(ns: string, name: string, labels: map<string, string>, toolPrefix: string, kind: string,
                               serviceRef: Option<(string, nat)>, baseUrl: string,
                               specRef: Option<Ref>, specUrl: string, autoDiscover: Option<string>,
                               overlayRef: Option<Ref>, commands: seq<string>, settings: string)

  datatype GenUpstream =
    | HttpUpstream(name: string, toolPrefix: string, baseUrl: string, openapi: string, overlay: Option<string>,
                   settings: string)
    | CommandUpstream(name: string, toolPrefix: string, commands: seq<string>)

  datatype Naming = Naming(separator: string, maxLength: int, conflictResolution: string)

  datatype Policy = Policy(average: int, period: string, burst: int, source: string)

  datatype InboundAuth = InboundAuth(strategy: string, jwksUrl: Option<string>)

  /** The settings of a proxy that are copied into its configuration. */
  datatype ProxySettings = ProxySettings(naming: Naming, rateLimits: map<string, Policy>, otlpEndpoint: string,
                                         inboundAuth: Option<InboundAuth>)

  /** Empty and absent sections are left out of the configuration. */
  datatype GenConfig = GenConfig(port: nat, naming: Naming, rateLimits: map<string, Policy>, telemetry: Option<string>,
                                 inboundAuth: Option<InboundAuth>, upstreams: seq<GenUpstream>)

  function ConfigWith(port: nat, settings: ProxySettings, built: seq<GenUpstream>): GenConfig {
    GenConfig(if port == 0 then DEFAULT_PORT else port, settings.naming, settings.rateLimits,
              if settings.otlpEndpoint != "" then Some(settings.otlpEndpoint) else None, settings.inboundAuth, built)
  }

  const DEFAULT_PORT := 8080
  const SPECS_DIR := "/etc/mcp-auto/specs"
  const OVERLAYS_DIR := "/etc/mcp-auto/overlays"

  function Decimal(n: nat): string {
    if n < 10 then ['0' + n as char] else Decimal(n / 10) + ['0' + (n % 10) as char]
  }

  predicate IsCommand(up: Upstream) {
    up.kind == "command"
  }

  /** The file that holds an upstream's spec or overlay. */
  function FileKey(up: Upstream): string {
    up.ns + "_" + up.name + ".yaml"
  }

  function UpstreamName(up: Upstream): string {
    up.ns + "-" + up.name
  }

  function BaseUrl(up: Upstream): Option<string> {
    match up.serviceRef
    case Some((name, port)) => Some("http://" + name + "." + up.ns + ".svc.cluster.local:" + Decimal(port))
    case None => if up.baseUrl != "" then Some(up.baseUrl) else None
  }

  /** Where the proxy reads the upstream's spec: a mounted file, a URL, or the upstream itself. */
  function SpecSource(up: Upstream, baseUrl: string): Option<string> {
    if up.specRef.Some? then Some(SPECS_DIR + "/" + FileKey(up))
    else if up.specUrl != "" then Some(up.specUrl)
    else
      match up.autoDiscover
      case Some(path) => Some(baseUrl + if path == "" then "/openapi.json" else path)
      case None => None
  }

  function OverlaySource(up: Upstream): Option<string> {
    if up.overlayRef.Some? then Some(OVERLAYS_DIR + "/" + FileKey(up)) else None
  }

  function BuildUpstream(up: Upstream): Option<GenUpstream> {
    if IsCommand(up) then
      if up.commands == [] then None else Some(CommandUpstream(UpstreamName(up), up.toolPrefix, up.commands))
    else if BaseUrl(up).None? || SpecSource(up, BaseUrl(up).value).None? then None
    else Some(HttpUpstream(UpstreamName(up), up.toolPrefix, BaseUrl(up).value, SpecSource(up, BaseUrl(up).value).value,
                           OverlaySource(up), up.settings))
  }

  /** All upstreams in order, or nothing if one cannot be built. */
  function BuildAll(ups: seq<Upstream>): Option<seq<GenUpstream>> {
    if ups == [] then Some([])
    else
      match (BuildAll(ups[..|ups| - 1]), BuildUpstream(ups[|ups| - 1]))
      case (Some(before), Some(last)) => Some(before + [last])
      case _ => None
  }

  method CopyPolicies(policies: map<string, Policy>) returns (rateLimits: map<string, Policy>)
    ensures rateLimits == policies
  {
    rateLimits := map[];
    var remaining := policies.Keys;
    while remaining != {}
      invariant remaining <= policies.Keys && rateLimits == policies - remaining
      decreases |remaining|
    {
      var name :| name in remaining;
      var p := policies[name];
      rateLimits := rateLimits[name := Policy(p.average, p.period, p.burst, p.source)];
      remaining := remaining - {name};
    }
    assert policies - {} == policies;
  }

  method Generate(port: nat, settings: ProxySettings, ups: seq<Upstream>) returns (r: Option<GenConfig>)
    ensures r.None? <==> BuildAll(ups).None?
    ensures r.Some? ==> r.value == ConfigWith(port, settings, BuildAll(ups).value)
  {
    var rateLimits := CopyPolicies(settings.rateLimits);
    var telemetry := None;
    if settings.otlpEndpoint != "" {
      telemetry := Some(settings.otlpEndpoint);
    }
    var built: seq<GenUpstream> := [];
    hide BuildUpstream;
    for i := 0 to |ups|
      invariant BuildAll(ups[..i]) == Some(built)
    {
      assert ups[..i + 1][..i] == ups[..i];
      var one := BuildUpstream(ups[i]);
      if one.None? {
        StaysNone(ups, i + 1);
        return None;
      }
      built := built + [one.value];
    }
    assert ups[..|ups|] == ups;
    return Some(GenConfig(if port == 0 then DEFAULT_PORT else port, settings.naming, rateLimits, telemetry,
                          settings.inboundAuth, built));
  }

  lemma {:induction false} StaysNone(ups: seq<Upstream>, i: nat)
    requires i <= |ups| && BuildAll(ups[..i]).None?
    ensures BuildAll(ups).None?
    decreases |ups| - i
  {
    if i == |ups| {
      assert ups[..i] == ups;
    } else {
      assert ups[..i + 1][..i] == ups[..i];
      StaysNone(ups, i + 1);
    }
  }

  lemma {:induction false} BuiltAt(ups: seq<Upstream>, i: nat)
    requires i < |ups| && BuildAll(ups).Some?
    ensures |BuildAll(ups).value| == |ups| && BuildUpstream(ups[i]) == Some(BuildAll(ups).value[i])
  {
    hide BuildUpstream;
    var init := ups[..|ups| - 1];
    if i < |ups| - 1 {
      BuiltAt(init, i);
    } else if init != [] {
      BuiltAt(init, 0);
    }
  }

  /** Namespaces have no underscore (they are DNS labels, RFC 1123): upstreams with the same
      file are the same upstream. */
  lemma FileKeyInjective(a: Upstream, b: Upstream)
    requires '_' !in a.ns && '_' !in b.ns && FileKey(a) == FileKey(b)
    ensures a.ns == b.ns && a.name == b.name
  {
    var s, t := FileKey(a), FileKey(b);
    assert s[|a.ns|] == '_' && t[|b.ns|] == '_';
    assert forall i :: 0 <= i < |a.ns| ==> s[i] == a.ns[i] && a.ns[i] in a.ns;
    assert forall i :: 0 <= i < |b.ns| ==> t[i] == b.ns[i] && b.ns[i] in b.ns;
    assert |a.ns| == |b.ns|;
    assert a.ns == s[..|a.ns|] && b.ns == t[..|b.ns|];
    assert s[|a.ns| + 1..|s| - 5] == a.name && t[|b.ns| + 1..|t| - 5] == b.name;
  }

  /** One namespace continues the other by a dash and some text that the other's name begins
      with. */
  predicate Shifted(a: Upstream, b: Upstream) {
    && a.ns + "-" <= b.ns
    && b.ns[|a.ns| + 1..] + "-" + b.name == a.name
  }

  /** The name in the configuration joins with a dash, which namespaces and names may have:
      two upstreams get one name if and only if they have one namespace and one name, or what
      follows a dash in one's namespace stands before a dash in the other's name. */
  lemma UpstreamNamesCollide(a: Upstream, b: Upstream)
    ensures UpstreamName(a) == UpstreamName(b) <==>
            (a.ns == b.ns && a.name == b.name) || Shifted(a, b) || Shifted(b, a)
  {
    if UpstreamName(a) == UpstreamName(b) {
      if |a.ns| < |b.ns| {
        LongerIsShifted(a, b);
      } else if |b.ns| < |a.ns| {
        LongerIsShifted(b, a);
      } else {
        var s := UpstreamName(a);
        assert a.ns == s[..|a.ns|] && b.ns == s[..|b.ns|] && a.name == s[|a.ns| + 1..] && b.name == s[|b.ns| + 1..];
      }
    }
    if Shifted(a, b) {
      ShiftedJoins(a, b);
    }
    if Shifted(b, a) {
      ShiftedJoins(b, a);
    }
  }

  lemma LongerIsShifted(a: Upstream, b: Upstream)
    requires UpstreamName(a) == UpstreamName(b) && |a.ns| < |b.ns|
    ensures Shifted(a, b)
  {
    var s := UpstreamName(a);
    assert s[..|a.ns| + 1] == a.ns + "-";
    assert b.ns == s[..|b.ns|];
    assert a.name == s[|a.ns| + 1..];
    assert b.ns[|a.ns| + 1..] + "-" + b.name == s[|a.ns| + 1..];
  }

  lemma ShiftedJoins(a: Upstream, b: Upstream)
    requires Shifted(a, b)
    ensures UpstreamName(a) == UpstreamName(b)
  {
    var r := b.ns[|a.ns| + 1..];
    assert b.ns == a.ns + "-" + r;
    assert a.ns + "-" + (r + "-" + b.name) == a.ns + "-" + r + "-" + b.name;
  }
}

/** The project configuration: `validate`, and the conversion that a validated configuration makes total. */
module ProjectConfig {
  import opened Base
  import EnvExpansion

  datatype Defaults = Defaults(
    relay: Option<string>, token: Option<string>, transport: Option<string>, localHost: string, timeoutSeconds: nat)

  datatype Tunnel = Tunnel(
    name: string, port: U16, protocol: string, subdomain: Option<string>, customDomain: Option<string>,
    remotePort: Option<U16>, sniHostnames: seq<string>, httpPort: Option<U16>, relay: Option<string>,
    token: Option<string>, transport: Option<string>, enabled: bool, localHost: Option<string>,
    ipAllowlist: seq<string>)

  datatype Config = Config(defaults: Defaults, tunnels: seq<Tunnel>)

  datatype Protocol =
    | Http(localPort: U16, subdomain: Option<string>, customDomain: Option<string>)
    | Https(localPort: U16, subdomain: Option<string>, customDomain: Option<string>)
    | Tcp(localPort: U16, remotePort: Option<U16>)
    | Tls(localPort: U16, sniHostnames: seq<string>, httpPort: Option<U16>)

  datatype Transport = Quic | H2 | WebSocket

  datatype TunnelConfig = TunnelConfig(
    localHost: string, protocol: Protocol, authToken: string, exitNode: string, timeoutSeconds: nat,
    transport: Option<Transport>, ipAllowlist: seq<string>)

  /** What the conversion reads from outside the file: Unicode tables, the environment and the saved token. */
  datatype Host = Host(
    lower: string -> string, alphanumeric: char -> bool, env: EnvExpansion.Env, savedToken: Option<string>)

  // ----- validation

  datatype Invalid = DuplicateName(name: string) | BadName(name: string) | BadProtocol(protocol: string, name: string)

  predicate ValidName(host: Host, name: string) {
    name != "" && forall c | c in name :: host.alphanumeric(c) || c == '-' || c == '_'
  }

  predicate AsciiAlphanumeric(c: char) {
    '0' <= c <= '9' || 'A' <= c <= 'Z' || 'a' <= c <= 'z'
  }

  /** With the usual ASCII letters and digits, exactly these names of ASCII characters are valid. */
  lemma AsciiNames(host: Host, name: string)
    requires forall c: char | c < 128 as char :: host.alphanumeric(c) <==> AsciiAlphanumeric(c)
    requires forall c | c in name :: c < 128 as char
    ensures ValidName(host, name) <==>
            |name| > 0 && forall c | c in name :: AsciiAlphanumeric(c) || c in {'-', '_'}
  {
    forall c | c in name ensures host.alphanumeric(c) <==> AsciiAlphanumeric(c) {
    }
  }

  predicate KnownProtocol(p: string) {
    p == "http" || p == "https" || p == "tcp" || p == "tls"
  }

  ghost predicate Unique(tunnels: seq<Tunnel>) {
    forall i, j | 0 <= i < j < |tunnels| :: tunnels[i].name != tunnels[j].name
  }

  ghost predicate Valid(host: Host, tunnels: seq<Tunnel>) {
    && Unique(tunnels)
    && forall t | t in tunnels :: ValidName(host, t.name) && KnownProtocol(host.lower(t.protocol))
  }

  /** The error reported for the tunnel at position `i`, if it is the first offender. */
  ghost predicate OffendsAt(host: Host, tunnels: seq<Tunnel>, i: nat, e: Invalid)
    requires i < |tunnels|
  {
    var t := tunnels[i];
    && Valid(host, tunnels[..i])
    && match e
       case DuplicateName(n) => n == t.name && exists j | 0 <= j < i :: tunnels[j].name == n
       case BadName(n) => n == t.name && Unique(tunnels[..i + 1]) && !ValidName(host, n)
       case BadProtocol(p, n) =>
         && n == t.name && p == t.protocol && Unique(tunnels[..i + 1])
         && ValidName(host, n) && !KnownProtocol(host.lower(p))
  }

  lemma ValidExtends(host: Host, tunnels: seq<Tunnel>, i: nat)
    requires i < |tunnels| && Valid(host, tunnels[..i])
    requires forall j | 0 <= j < i :: tunnels[j].name != tunnels[i].name
    ensures Unique(tunnels[..i + 1])
    ensures ValidName(host, tunnels[i].name) && KnownProtocol(host.lower(tunnels[i].protocol)) ==>
              Valid(host, tunnels[..i + 1])
  {
    var before, after := tunnels[..i], tunnels[..i + 1];
    forall j, k | 0 <= j < k < |after| ensures after[j].name != after[k].name {
      if k < i {
        assert before[j].name != before[k].name;
      }
    }
    assert after == before + [tunnels[i]];
  }

  /** `validate` accepts exactly the valid configurations and otherwise names the first offender. */
  method Validate(host: Host, tunnels: seq<Tunnel>) returns (r: Result<(), Invalid>)
    ensures r.Ok? <==> Valid(host, tunnels)
    ensures r.Err? ==> exists i | 0 <= i < |tunnels| :: OffendsAt(host, tunnels, i, r.error)
  {
    var names: set<string> := {};
    for i := 0 to |tunnels|
      invariant names == set j | 0 <= j < i :: tunnels[j].name
      invariant Valid(host, tunnels[..i])
    {
      var t := tunnels[i];
      if t.name in names {
        var j :| 0 <= j < i && tunnels[j].name == t.name;
        assert OffendsAt(host, tunnels, i, DuplicateName(t.name));
        return Err(DuplicateName(t.name));
      }
      names := names + {t.name};
      ValidExtends(host, tunnels, i);
      if !ValidName(host, t.name) {
        assert OffendsAt(host, tunnels, i, BadName(t.name));
        return Err(BadName(t.name));
      }
      if !KnownProtocol(host.lower(t.protocol)) {
        assert OffendsAt(host, tunnels, i, BadProtocol(t.protocol, t.name));
        return Err(BadProtocol(t.protocol, t.name));
      }
    }
    assert tunnels[..|tunnels|] == tunnels;
    return Ok(());
  }

  // ----- conversion

  function Or<T>(a: Option<T>, b: Option<T>): Option<T> {
    if a.Some? then a else b
  }

  function GetOr<T>(a: Option<T>, default: T): T {
    if a.Some? then a.value else default
  }

  function ResolveToken(host: Host, t: Tunnel, defaults: Defaults): string {
    var raw := GetOr(Or(t.token, defaults.token), "");
    var expanded := EnvExpansion.ReplaceEach(raw, EnvExpansion.Captures(EnvExpansion.Lex(raw)), host.env);
    if expanded == "" then GetOr(host.savedToken, "") else expanded
  }

  function ToProtocol(host: Host, t: Tunnel): Option<Protocol> {
    var p := host.lower(t.protocol);
    if p == "http" then Some(Http(t.port, t.subdomain, t.customDomain))
    else if p == "https" then Some(Https(t.port, t.subdomain, t.customDomain))
    else if p == "tcp" then Some(Tcp(t.port, t.remotePort))
    else if p == "tls" then Some(Tls(t.port, t.sniHostnames, t.httpPort))
    else None
  }

  function ToTransport(host: Host, t: string): Option<Transport> {
    var l := host.lower(t);
    if l == "quic" then Some(Quic)
    else if l == "h2" || l == "http2" then Some(H2)
    else if l == "websocket" || l == "ws" then Some(WebSocket)
    else None
  }

  /** `to_tunnel_config`; None stands for the "Unknown protocol" error. */
  function ToTunnelConfig(host: Host, t: Tunnel, defaults: Defaults): Option<TunnelConfig> {
    match ToProtocol(host, t)
    case None => None
    case Some(protocol) =>
      var transport := Or(t.transport, defaults.transport);
      Some(TunnelConfig(
             GetOr(t.localHost, defaults.localHost), protocol, ResolveToken(host, t, defaults),
             GetOr(Or(t.relay, defaults.relay), "localhost:4443"), defaults.timeoutSeconds,
             if transport.Some? then ToTransport(host, transport.value) else None, t.ipAllowlist))
  }

  /** A tunnel converts exactly when its protocol is one of the four, to that protocol with its own settings. */
  lemma ConvertsIff(host: Host, t: Tunnel, defaults: Defaults)
    ensures var p, c := host.lower(t.protocol), ToTunnelConfig(host, t, defaults);
            && (c.Some? <==> p in {"http", "https", "tcp", "tls"})
            && (c.Some? <==> KnownProtocol(p))
            && (c.Some? ==>
                  && (p == "http" <==> c.value.protocol == Http(t.port, t.subdomain, t.customDomain))
                  && (p == "https" <==> c.value.protocol == Https(t.port, t.subdomain, t.customDomain))
                  && (p == "tcp" <==> c.value.protocol == Tcp(t.port, t.remotePort))
                  && (p == "tls" <==> c.value.protocol == Tls(t.port, t.sniHostnames, t.httpPort)))
  {
  }

  /** What a tunnel says wins, then what the defaults say, then the fallback. */
  ghost predicate FirstOf<T>(own: Option<T>, other: Option<T>, fallback: T, v: T) {
    if own.Some? then v == own.value else if other.Some? then v == other.value else v == fallback
  }

  /** Relay, host, timeout and allow list of the converted tunnel. */
  lemma SettingsConverted(host: Host, t: Tunnel, defaults: Defaults)
    requires ToTunnelConfig(host, t, defaults).Some?
    ensures var c := ToTunnelConfig(host, t, defaults).value;
            && FirstOf(t.relay, defaults.relay, "localhost:4443", c.exitNode)
            && FirstOf(t.localHost, None, defaults.localHost, c.localHost)
            && c.timeoutSeconds == defaults.timeoutSeconds && c.ipAllowlist == t.ipAllowlist
  {
  }

  /** The six spellings of a transport; any other is no preference. */
  lemma TransportConverted(host: Host, t: Tunnel, defaults: Defaults, wanted: string)
    requires ToTunnelConfig(host, t, defaults).Some? && FirstOf(t.transport, defaults.transport, "", wanted)
    ensures var c, w := ToTunnelConfig(host, t, defaults).value.transport, host.lower(wanted);
            if t.transport.None? && defaults.transport.None? then c == None
            else
              && (c == Some(Quic) <==> w == "quic")
              && (c == Some(H2) <==> w == "h2" || w == "http2")
              && (c == Some(WebSocket) <==> w == "websocket" || w == "ws")
  {
  }

  ghost predicate NoOpening(s: string) {
    forall i | 0 <= i < |s| - 1 && s[i] == '$' :: s[i + 1] != '{'
  }

  lemma {:induction false} NothingCaptured(s: string)
    requires NoOpening(s)
    ensures EnvExpansion.Captures(EnvExpansion.Lex(s)) == []
    decreases |s|
  {
    if s != "" {
      var rest := s[1..];
      forall i | 0 <= i < |rest| - 1 && rest[i] == '$' ensures rest[i + 1] != '{' {
        assert s[i + 1] == '$';
      }
      NothingCaptured(rest);
      if |s| >= 2 {
        assert s[..2] == [s[0], s[1]];
      }
      assert EnvExpansion.MatchHere(s).None?;
      assert EnvExpansion.Lex(s)[1..] == EnvExpansion.Lex(rest);
    }
  }

  /**
   The token of the converted tunnel: text without `${` is passed on, a clean text is expanded in one pass, and
   where nothing remains the saved token is used.
   */
  lemma TokenConverted(host: Host, t: Tunnel, defaults: Defaults, raw: string)
    requires ToTunnelConfig(host, t, defaults).Some? && FirstOf(t.token, defaults.token, "", raw)
    ensures var token := ToTunnelConfig(host, t, defaults).value.authToken;
            && (raw != "" && NoOpening(raw) ==> token == raw)
            && (raw == "" ==> FirstOf(host.savedToken, None, "", token))
            && (EnvExpansion.Clean(EnvExpansion.Lex(raw)) && EnvExpansion.CleanValues(host.env) ==>
                  var expanded := EnvExpansion.Substitute(EnvExpansion.Lex(raw), host.env);
                  if expanded != "" then token == expanded else FirstOf(host.savedToken, None, "", token))
  {
    if NoOpening(raw) {
      NothingCaptured(raw);
    }
    if EnvExpansion.Clean(EnvExpansion.Lex(raw)) && EnvExpansion.CleanValues(host.env) {
      EnvExpansion.SequentialIsSimultaneous(raw, host.env);
    }
  }

  /** A tunnel with its missing settings taken from the defaults, or from the code's own where those miss too. */
  function Filled(t: Tunnel, d: Defaults): Tunnel {
    t.(relay := Some(GetOr(Or(t.relay, d.relay), "localhost:4443")), token := Some(GetOr(Or(t.token, d.token), "")),
       transport := Or(t.transport, d.transport), localHost := Some(GetOr(t.localHost, d.localHost)))
  }

  /**
   Defaults only fill in what a tunnel leaves open: converting the filled-in tunnel gives the same under other
   defaults, except for the timeout, which tunnels cannot set, and for a transport that was left open.
   */
  lemma DefaultsOnlyFillIn(host: Host, t: Tunnel, d: Defaults, other: Defaults)
    ensures ToTunnelConfig(host, t, d) == ToTunnelConfig(host, Filled(t, d), other) <==>
            || ToTunnelConfig(host, t, d).None?
            || (&& other.timeoutSeconds == d.timeoutSeconds
                && (|| Filled(t, d).transport.Some?
                    || other.transport.None?
                    || ToTransport(host, other.transport.value).None?))
    ensures ToTunnelConfig(host, t, d) == ToTunnelConfig(host, Filled(t, d), d)
  {
    assert ResolveToken(host, Filled(t, d), other) == ResolveToken(host, t, d);
  }

  // ----- the map the daemon reloads from

  function EnabledNames(tunnels: seq<Tunnel>): set<string> {
    set t | t in tunnels && t.enabled :: t.name
  }

  /** Enabled tunnels by name with their conversion; a later tunnel of the same name would win. */
  function NewTunnels(host: Host, tunnels: seq<Tunnel>, defaults: Defaults): map<string, Option<TunnelConfig>> {
    if tunnels == [] then map[]
    else
      var rest := NewTunnels(host, tunnels[..|tunnels| - 1], defaults);
      var t := tunnels[|tunnels| - 1];
      if t.enabled then rest[t.name := ToTunnelConfig(host, t, defaults)] else rest
  }

  lemma {:induction false} NewTunnelsAre(host: Host, tunnels: seq<Tunnel>, defaults: Defaults)
    requires Valid(host, tunnels)
    ensures NewTunnels(host, tunnels, defaults).Keys == EnabledNames(tunnels)
    ensures forall t | t in tunnels && t.enabled ::
              NewTunnels(host, tunnels, defaults)[t.name] == ToTunnelConfig(host, t, defaults)
    decreases |tunnels|
  {
    if tunnels != [] {
      var front, last := tunnels[..|tunnels| - 1], tunnels[|tunnels| - 1];
      assert tunnels == front + [last];
      assert forall t | t in front :: t in tunnels;
      assert Unique(front);
      NewTunnelsAre(host, front, defaults);
      assert EnabledNames(tunnels) == EnabledNames(front) + if last.enabled then {last.name} else {};
      forall t | t in front ensures t.name != last.name {
        var i :| 0 <= i < |front| && front[i] == t;
        assert tunnels[i].name != tunnels[|tunnels| - 1].name;
      }
    }
  }

  /** Validation makes the conversion of every enabled tunnel succeed, and names are never merged. */
  lemma ValidatedConfigConverts(host: Host, config: Config)
    requires Valid(host, config.tunnels)
    ensures var loaded := NewTunnels(host, config.tunnels, config.defaults);
            && loaded.Keys == EnabledNames(config.tunnels)
            && (forall name :: name in loaded <==> exists t | t in config.tunnels :: t.enabled && t.name == name)
            && (forall name | name in loaded :: loaded[name].Some?)
            && (forall t | t in config.tunnels && t.enabled ::
                  loaded[t.name] == ToTunnelConfig(host, t, config.defaults)
                  && loaded[t.name].value.protocol.localPort == t.port)
  {
    var loaded := NewTunnels(host, config.tunnels, config.defaults);
    NewTunnelsAre(host, config.tunnels, config.defaults);
    forall t | t in config.tunnels && t.enabled
      ensures loaded[t.name].Some? && loaded[t.name].value.protocol.localPort == t.port
    {
      ConvertsIff(host, t, config.defaults);
    }
    forall name | name in loaded ensures loaded[name].Some? {
      var t :| t in config.tunnels && t.enabled && t.name == name;
    }
  }
}

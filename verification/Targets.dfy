/**
 * From the URL to the browser: the listeners that a client asks for (cmd/cli/tunnel_targets.go,
 * cmd/cli/oauth_targets.go), those that the server manages to bind, and the URL it opens (server/tunnel.go).
 */
module Targets {
  import opened Options

  /** A loopback address: 127.a.b.c as one number below 2^24, or ::1. */
  datatype Ip = V4(low: nat) | V6

  const LOCAL4 := V4(1)

  /** How the name was written: `localhost`, another capitalisation, or with a trailing dot. */
  datatype Form = Exact | Folded | Dotted

  datatype Host = Localhost(form: Form) | Loop(ip: Ip) | Remote(name: string)

  datatype Scheme = Http | Https | OtherScheme

  /** `redirect` is the first redirect_uri parameter, `params` are the other query parameters. */
  datatype Url = Url(
    scheme: Scheme, host: Host, port: Option<nat>, path: string, redirect: Redirect, params: map<string, string>)

  datatype Redirect = NoRedirect | Unparsable(text: string) | To(url: Url)

  datatype Target = Target(host: Host, port: nat, dialHost: Host)

  /** A bound listener, where its connections are dialled to, and whether it got a random port. */
  datatype Listener = Listener(ip: Ip, port: nat, dialHost: Host, dialPort: nat, fallback: bool)

  // ----- the client

  /** `isLoopbackTunnelHost`. */
  predicate LoopbackHost(h: Host) {
    !h.Remote?
  }

  /** `isLoopbackTunnelURL`, and the acceptance condition of `ParseTunnelURL`. */
  predicate LoopbackUrl(u: Url) {
    (u.scheme.Http? || u.scheme.Https?) && LoopbackHost(u.host)
  }

  predicate ValidPort(p: nat) {
    1 <= p <= 65535
  }

  /** `effectiveTunnelPort`. */
  function EffectivePort(u: Url): Option<nat> {
    match u.port
    case Some(p) => if ValidPort(p) then Some(p) else None
    case None =>
      match u.scheme
      case Http => Some(80)
      case Https => Some(443)
      case OtherScheme => None
  }

  /** `buildTunnelTargetsFromURL`. */
  function TunnelTargets(u: Url): Option<seq<Target>> {
    if !LoopbackUrl(u) then None
    else match EffectivePort(u)
         case None => None
         case Some(p) =>
           if u.host == Localhost(Exact) then
             Some([Target(Loop(LOCAL4), p, Loop(LOCAL4)), Target(Loop(V6), p, Loop(V6))])
           else
             Some([Target(u.host, p, u.host)])
  }

  /** `buildTunnelTargetsFromOAuthURL`. */
  function OAuthTargets(u: Url): Option<seq<Target>> {
    match u.redirect
    case To(r) =>
      if !LoopbackUrl(r) then None
      else
        (match EffectivePort(r)
         case None => None
         case Some(p) =>
           Some([Target(r.host, p, if r.host == Localhost(Exact) then Loop(LOCAL4) else r.host)]))
    case _ => None
  }

  /** A client has targets for exactly the loopback http and https URLs whose port, if written, is a valid one. */
  lemma TargetsExactly(u: Url)
    ensures TunnelTargets(u).Some? <==>
            (u.scheme == Http || u.scheme == Https) && !u.host.Remote? && (u.port.Some? ==> 1 <= u.port.value <= 65535)
    ensures OAuthTargets(u).Some? <==> u.redirect.To? && TunnelTargets(u.redirect.url).Some?
  {
  }

  /** A URL without a port has the targets of the same URL with port 80 or 443, and so has a redirect_uri. */
  lemma DefaultPorts(u: Url, page: Url)
    requires u.port == None && (u.scheme == Http || u.scheme == Https)
    ensures var explicit := u.(port := Some(if u.scheme == Http then 80 else 443));
            && TunnelTargets(u) == TunnelTargets(explicit)
            && OAuthTargets(page.(redirect := To(u))) == OAuthTargets(page.(redirect := To(explicit)))
  {
  }

  // ----- the server binds

  /** What the operating system answers to a request to listen. */
  datatype Answer = Bound(port: nat) | InUse | Refused

  /** The answers to the attempts, in order; the port asked for is the port given, except that 0 asks for any. */
  type Network = (nat, Ip, nat) -> Answer

  ghost predicate Lawful(net: Network) {
    forall k: nat, ip: Ip, p: nat | net(k, ip, p).Bound? ::
      ValidPort(net(k, ip, p).port) && (p != 0 ==> net(k, ip, p).port == p)
  }

  /** `validateTunnelTarget`; the dial address is well formed by construction. */
  predicate Acceptable(t: Target) {
    ValidPort(t.port) && LoopbackHost(t.host)
  }

  /** `tunnelListenTargets`. */
  function Addresses(h: Host): seq<Ip> {
    match h
    case Localhost(_) => [LOCAL4, V6]
    case Loop(ip) => [ip]
    case Remote(_) => []
  }

  /** `listenTunnelAddr`: the asked port, or a random one if that is taken. */
  function Listen(net: Network, k: nat, ip: Ip, t: Target): Option<Listener> {
    match net(k, ip, t.port)
    case Bound(p) => Some(Listener(ip, p, t.dialHost, t.port, false))
    case Refused => None
    case InUse =>
      if t.port == 0 then None
      else match net(k + 1, ip, 0)
           case Bound(p) => Some(Listener(ip, p, t.dialHost, t.port, true))
           case _ => None
  }

  /** The attempts of `bindListeners` on the addresses of one target; attempt numbers leave room for the fallback. */
  function BindAddresses(net: Network, k: nat, ips: seq<Ip>, t: Target): seq<Listener>
    decreases |ips|
  {
    if ips == [] then []
    else
      var rest := BindAddresses(net, k + 2, ips[1..], t);
      match Listen(net, k, ips[0], t)
      case Some(l) => [l] + rest
      case None => rest
  }

  function BindTargets(net: Network, k: nat, ts: seq<Target>): seq<Listener>
    decreases |ts|
  {
    if ts == [] then []
    else if !Acceptable(ts[0]) then BindTargets(net, k, ts[1..])
    else
      var ips := Addresses(ts[0].host);
      BindAddresses(net, k, ips, ts[0]) + BindTargets(net, k + 2 * |ips|, ts[1..])
  }

  /** The inner loop of `bindListeners`. */
  method BindTarget(net: Network, k: nat, t: Target) returns (ls: seq<Listener>)
    ensures ls == BindAddresses(net, k, Addresses(t.host), t)
  {
    hide Addresses, Listen;
    var ips := Addresses(t.host);
    ls := [];
    for j := 0 to |ips|
      invariant BindAddresses(net, k, ips, t) == ls + BindAddresses(net, k + 2 * j, ips[j..], t)
    {
      assert ips[j..][0] == ips[j] && ips[j..][1..] == ips[j + 1..];
      ghost var rest := BindAddresses(net, k + 2 * j + 2, ips[j + 1..], t);
      match Listen(net, k + 2 * j, ips[j], t) {
        case Some(l) =>
          assert ls + ([l] + rest) == (ls + [l]) + rest;
          ls := ls + [l];
        case None =>
      }
    }
    assert ips[|ips|..] == [];
  }

  /** `bindListeners` skips what is refused or cannot be bound, and fails only if nothing is left. */
  method BindListeners(net: Network, ts: seq<Target>) returns (ls: seq<Listener>, ok: bool)
    ensures ls == BindTargets(net, 0, ts)
    ensures ok <==> ls != []
  {
    hide BindAddresses;
    ls := [];
    var k: nat := 0;
    for i := 0 to |ts|
      invariant BindTargets(net, 0, ts) == ls + BindTargets(net, k, ts[i..])
    {
      assert ts[i..][0] == ts[i] && ts[i..][1..] == ts[i + 1..];
      if Acceptable(ts[i]) {
        var more := BindTarget(net, k, ts[i]);
        k := k + 2 * |Addresses(ts[i].host)|;
        ghost var after := BindTargets(net, k, ts[i + 1..]);
        assert ls + (more + after) == (ls + more) + after;
        ls := ls + more;
      }
    }
    assert ts[|ts|..] == [];
    ok := ls != [];
  }

  // ----- the server rewrites

  predicate UsesFallback(ls: seq<Listener>) {
    exists i | 0 <= i < |ls| :: ls[i].fallback
  }

  /** `tunnelListenersNeedSingleStackRewrite`; a trailing dot is not folded away. */
  predicate SingleStack(u: Url, ls: seq<Listener>) {
    LoopbackUrl(u) && u.host.Localhost? && !u.host.form.Dotted? && |ls| == 1
  }

  /** `rewriteTunnelOpenURL`. */
  function Rewrite(u: Url, ls: seq<Listener>): Url {
    if ls == [] || (!UsesFallback(ls) && !SingleStack(u, ls)) then u
    else if LoopbackUrl(u) then At(u, ls[0])
    else match u.redirect
         case To(r) => if LoopbackUrl(r) then u.(redirect := To(At(r, ls[0]))) else u
         case _ => u
  }

  /** The URL with its authority replaced by that of a listener. */
  function At(u: Url, l: Listener): Url {
    u.(host := Loop(l.ip), port := Some(l.port))
  }

  // ----- can the browser reach it?

  /** The addresses that a browser tries for a host. */
  function Resolve(h: Host): set<Ip> {
    match h
    case Localhost(_) => {LOCAL4, V6}
    case Loop(ip) => {ip}
    case Remote(_) => {}
  }

  /** The port a browser connects to: the one written, else the default of the scheme. */
  function BrowserPort(u: Url): Option<nat> {
    if u.port.Some? then u.port
    else if u.scheme == Http then Some(80)
    else if u.scheme == Https then Some(443)
    else None
  }

  predicate Answers(l: Listener, u: Url) {
    l.ip in Resolve(u.host) && BrowserPort(u) == Some(l.port)
  }

  predicate Reaches(u: Url, ls: seq<Listener>) {
    exists i | 0 <= i < |ls| :: Answers(ls[i], u)
  }

  /** What every listener bound for a target looks like. */
  predicate Serves(l: Listener, t: Target) {
    && l.ip in Resolve(t.host) && ValidPort(l.port)
    && l.dialHost == t.dialHost && l.dialPort == t.port
    && (!l.fallback ==> l.port == t.port)
  }

  lemma {:induction false} BoundServe(net: Network, k: nat, ips: seq<Ip>, t: Target)
    requires Lawful(net) && Acceptable(t)
    requires forall i | 0 <= i < |ips| :: ips[i] in Resolve(t.host)
    ensures forall l | l in BindAddresses(net, k, ips, t) :: Serves(l, t)
    decreases |ips|
  {
    if ips != [] {
      BoundServe(net, k + 2, ips[1..], t);
    }
  }

  lemma OneTarget(net: Network, k: nat, t: Target)
    requires Lawful(net) && Acceptable(t)
    ensures BindTargets(net, k, [t]) == BindAddresses(net, k, Addresses(t.host), t)
    ensures forall l | l in BindTargets(net, k, [t]) :: Serves(l, t)
  {
    BoundServe(net, k, Addresses(t.host), t);
    assert BindTargets(net, k + 2 * |Addresses(t.host)|, [t][1..]) == [];
  }

  /** Every listener bound for targets of the client stands for the service that the URL named. */
  predicate StandsFor(l: Listener, u: Url) {
    && l.ip in Resolve(u.host) && ValidPort(l.port)
    && BrowserPort(u) == Some(l.dialPort) && Resolve(l.dialHost) <= Resolve(u.host) && LoopbackHost(l.dialHost)
    && (!l.fallback ==> l.port == l.dialPort)
  }

  lemma TunnelStandsFor(net: Network, u: Url)
    requires Lawful(net) && TunnelTargets(u).Some?
    ensures forall l | l in BindTargets(net, 0, TunnelTargets(u).value) ::
              StandsFor(l, u) && l.dialHost == if u.host == Localhost(Exact) then Loop(l.ip) else u.host
  {
    var ts := TunnelTargets(u).value;
    if |ts| == 1 {
      OneTarget(net, 0, ts[0]);
      assert ts == [ts[0]];
    } else {
      OneTarget(net, 2, ts[1]);
      BoundServe(net, 0, [LOCAL4], ts[0]);
      assert ts[1..] == [ts[1]];
      assert BindTargets(net, 0, ts) == BindAddresses(net, 0, [LOCAL4], ts[0]) + BindTargets(net, 2, [ts[1]]);
    }
  }

  lemma OAuthStandsFor(net: Network, u: Url)
    requires Lawful(net) && OAuthTargets(u).Some?
    ensures forall l | l in BindTargets(net, 0, OAuthTargets(u).value) ::
              && StandsFor(l, u.redirect.url)
              && l.dialHost == if u.redirect.url.host == Localhost(Exact) then Loop(LOCAL4) else u.redirect.url.host
  {
    var ts := OAuthTargets(u).value;
    assert ts == [ts[0]];
    OneTarget(net, 0, ts[0]);
  }

  /** An URL that is sent to the first listener, or that some listener stands for on the named port, is reachable. */
  lemma Redirected(u: Url, ls: seq<Listener>)
    requires ls != [] && forall l | l in ls :: StandsFor(l, u)
    ensures Reaches(At(u, ls[0]), ls)
    ensures Reaches(u, ls) <==> exists i | 0 <= i < |ls| :: ls[i].port == ls[i].dialPort
  {
    assert ls[0] in ls;
    assert Answers(ls[0], At(u, ls[0]));
    if i :| 0 <= i < |ls| && ls[i].port == ls[i].dialPort {
      assert ls[i] in ls;
      assert Answers(ls[i], u);
    }
    if i :| 0 <= i < |ls| && Answers(ls[i], u) {
      assert ls[i] in ls;
    }
  }

  /** Explicit tunnel mode: whatever was bound, the opened URL leads to a bound listener and is otherwise unchanged. */
  lemma TunnelUrlReachable(net: Network, u: Url)
    requires Lawful(net) && TunnelTargets(u).Some? && BindTargets(net, 0, TunnelTargets(u).value) != []
    ensures var ls := BindTargets(net, 0, TunnelTargets(u).value);
            var result := Rewrite(u, ls);
            && Reaches(result, ls)
            && result.(host := u.host, port := u.port) == u
            && forall l | l in ls :: StandsFor(l, u)
  {
    var ls := BindTargets(net, 0, TunnelTargets(u).value);
    TunnelStandsFor(net, u);
    Redirected(u, ls);
    if !UsesFallback(ls) {
      assert !ls[0].fallback && ls[0] in ls;
    }
  }

  /**
   * OAuth mode: the redirect_uri of the opened URL leads to a bound listener if and only if the authorization URL
   * is not itself a loopback URL, or some listener got the port that was asked for. The authority of the
   * authorization URL itself survives if and only if it is not a loopback URL, or nothing asks for a rewrite, or it
   * names the first listener already.
   */
  lemma OAuthUrlReachable(net: Network, u: Url)
    requires Lawful(net) && OAuthTargets(u).Some? && BindTargets(net, 0, OAuthTargets(u).value) != []
    ensures var ls := BindTargets(net, 0, OAuthTargets(u).value);
            var result := Rewrite(u, ls);
            && result.redirect.To?
            && (Reaches(result.redirect.url, ls) <==>
                  !LoopbackUrl(u) || exists i | 0 <= i < |ls| :: ls[i].port == ls[i].dialPort)
            && result.scheme == u.scheme && result.path == u.path && result.params == u.params
            && result.redirect.url.(host := u.redirect.url.host, port := u.redirect.url.port) == u.redirect.url
            && (result.host == u.host && result.port == u.port <==>
                  || !LoopbackUrl(u)
                  || (!UsesFallback(ls) && !SingleStack(u, ls))
                  || (u.host == Loop(ls[0].ip) && u.port == Some(ls[0].port)))
  {
    var ls := BindTargets(net, 0, OAuthTargets(u).value);
    OAuthStandsFor(net, u);
    Redirected(u.redirect.url, ls);
    if !UsesFallback(ls) {
      assert !ls[0].fallback && ls[0] in ls;
    }
  }

  // ----- free ports and refusals

  ghost predicate Free(net: Network) {
    forall k: nat, ip: Ip, p: nat | ValidPort(p) :: net(k, ip, p) == Bound(p)
  }

  lemma {:induction false} FreeBinds(net: Network, k: nat, ips: seq<Ip>, t: Target)
    requires Free(net) && ValidPort(t.port)
    ensures var ls := BindAddresses(net, k, ips, t);
            && |ls| == |ips|
            && forall i | 0 <= i < |ips| :: ls[i].ip == ips[i] && ls[i].port == t.port && !ls[i].fallback
    decreases |ips|
  {
    if ips != [] {
      FreeBinds(net, k + 2, ips[1..], t);
    }
  }

  /** Every address that a browser may try for the URL has its listener. */
  predicate AllServed(u: Url, ls: seq<Listener>) {
    forall ip | ip in Resolve(u.host) :: exists i | 0 <= i < |ls| :: ls[i].ip == ip && Answers(ls[i], u)
  }

  /** With every port free, every address a browser may try is served, and the URL is opened as it was given. */
  lemma FreePortsServeAll(net: Network, u: Url)
    requires Free(net) && TunnelTargets(u).Some?
    ensures var ls := BindTargets(net, 0, TunnelTargets(u).value);
            AllServed(u, ls) && Rewrite(u, ls) == u
  {
    var ts := TunnelTargets(u).value;
    FreeBinds(net, 0, Addresses(ts[0].host), ts[0]);
    var ls := BindTargets(net, 0, ts);
    if |ts| == 1 {
      assert BindTargets(net, 2 * |Addresses(ts[0].host)|, ts[1..]) == [];
      assert ls == BindAddresses(net, 0, Addresses(ts[0].host), ts[0]);
    } else {
      FreeBinds(net, 2, [V6], ts[1]);
      assert ts[1..] == [ts[1]] && BindTargets(net, 4, [ts[1]][1..]) == [];
      assert BindTargets(net, 2, [ts[1]]) == BindAddresses(net, 2, [V6], ts[1]);
      assert ls == BindAddresses(net, 0, [LOCAL4], ts[0]) + BindAddresses(net, 2, [V6], ts[1]);
      assert ls[0].ip == LOCAL4 && ls[1].ip == V6;
    }
    assert !UsesFallback(ls) && |ls| == |Addresses(u.host)|;
    forall ip | ip in Resolve(u.host) ensures exists i | 0 <= i < |ls| :: ls[i].ip == ip && Answers(ls[i], u) {
      var i := if ip == ls[0].ip then 0 else 1;
      assert ls[i].ip == ip && Answers(ls[i], u);
    }
  }

  lemma FreePortsServeCallback(net: Network, u: Url)
    requires Free(net) && OAuthTargets(u).Some?
    ensures var ls := BindTargets(net, 0, OAuthTargets(u).value);
            && AllServed(u.redirect.url, ls) && Rewrite(u, ls).redirect == u.redirect
            && (!LoopbackUrl(u) ==> Rewrite(u, ls) == u)
  {
    var t := OAuthTargets(u).value[0];
    assert OAuthTargets(u).value == [t];
    FreeBinds(net, 0, Addresses(t.host), t);
    var ls := BindTargets(net, 0, [t]);
    assert BindTargets(net, 2 * |Addresses(t.host)|, [t][1..]) == [];
    assert ls == BindAddresses(net, 0, Addresses(t.host), t);
    var r := u.redirect.url;
    forall ip | ip in Resolve(r.host) ensures exists i | 0 <= i < |ls| :: ls[i].ip == ip && Answers(ls[i], r) {
      var i := if ip == ls[0].ip then 0 else 1;
      assert ls[i].ip == ip && Answers(ls[i], r);
    }
  }

  /** Only a conflict leads to a random port: an address whose port is refused for another reason is not bound. */
  lemma {:induction false} RefusalIsNoConflict(net: Network, k: nat, ips: seq<Ip>, t: Target)
    requires forall j: nat, ip: Ip :: net(j, ip, t.port).Refused?
    ensures BindAddresses(net, k, ips, t) == []
    decreases |ips|
  {
    if ips != [] {
      RefusalIsNoConflict(net, k + 2, ips[1..], t);
    }
  }

  /** A login page served on loopback whose callback port is taken: the page moves instead of the callback. */
  lemma LoopbackLoginLosesCallback() returns (net: Network, u: Url)
    ensures Lawful(net) && OAuthTargets(u).Some? && LoopbackUrl(u)
    ensures var ls := BindTargets(net, 0, OAuthTargets(u).value);
            ls != [] && Rewrite(u, ls).host != u.host && !Reaches(Rewrite(u, ls).redirect.url, ls)
  {
    net := (k, ip, p) => if p == 0 then Bound(40000) else InUse;
    var callback := Url(Http, Loop(LOCAL4), Some(3000), "/callback", NoRedirect, map[]);
    u := Url(Http, Localhost(Exact), Some(8080), "/login", To(callback), map[]);
    var t := Target(Loop(LOCAL4), 3000, Loop(LOCAL4));
    assert OAuthTargets(u).value == [t];
    OneTarget(net, 0, t);
    var l := Listener(LOCAL4, 40000, Loop(LOCAL4), 3000, true);
    assert BindAddresses(net, 2, [LOCAL4][1..], t) == [];
    assert BindTargets(net, 0, [t]) == [l];
  }

  /** The same with every port free: one listener is enough to send the login page to the callback's address. */
  lemma LoopbackLoginMoves() returns (net: Network, u: Url)
    ensures Lawful(net) && (forall k: nat, ip: Ip, p: nat | ValidPort(p) :: net(k, ip, p) == Bound(p))
    ensures OAuthTargets(u).Some? && LoopbackUrl(u)
    ensures var ls := BindTargets(net, 0, OAuthTargets(u).value);
            && |ls| == 1 && !UsesFallback(ls)
            && Rewrite(u, ls).host == Loop(ls[0].ip) != u.host
            && Rewrite(u, ls).port == Some(ls[0].port) != u.port
  {
    net := (k: nat, ip: Ip, p: nat) => if ValidPort(p) then Bound(p) else if p == 0 then Bound(40000) else Refused;
    var callback := Url(Http, Loop(LOCAL4), Some(9000), "/cb", NoRedirect, map[]);
    u := Url(Http, Localhost(Exact), Some(8080), "/authorize", To(callback), map[]);
    var t := Target(Loop(LOCAL4), 9000, Loop(LOCAL4));
    assert OAuthTargets(u).value == [t];
    OneTarget(net, 0, t);
    assert BindAddresses(net, 2, [LOCAL4][1..], t) == [];
    assert BindTargets(net, 0, [t]) == [Listener(LOCAL4, 9000, Loop(LOCAL4), 9000, false)];
  }
}

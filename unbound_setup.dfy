/** `configure_unbound_resolver`: builds a DNSSEC-capable libunbound context.
    Every name server is registered as a forwarder first; built-in trust anchors
    follow when validation is requested, then the system hosts data when the
    hosts-file policy asks for it. Any failure abandons the context. */
module UnboundSetup {
  import opened Wrappers
  import opened Traverse
  import opened DnsTypes

  /** Which libunbound calls succeed: the library is foreign, so its outcomes are inputs. */
  datatype UnboundLib = UnboundLib(
    newOk: bool,
    forwardOk: SocketAddr -> bool,
    trustAnchorsOk: bool,
    hostsOk: bool,
    asyncOk: bool)

  /** `matches!(use_hosts_file, ResolveHosts::Always | ResolveHosts::Auto)` */
  predicate WantsHosts(mode: ResolveHosts) {
    mode == Always || mode == Auto
  }

  /** One name server: parse its address (only `socket_addr` of a detailed entry
      is used) and register it as a forwarder. */
  function Forward(ns: NameServer, parseSock: SockParser, lib: UnboundLib): Result<SocketAddr, ConfigError> {
    var text := ns.SocketText();
    if parseSock(text).None? then Failure(Context(ServerMessage(text)))
    else if !lib.forwardOk(parseSock(text).value) then Failure(Context("set_forward"))
    else Success(parseSock(text).value)
  }

  function ForwardStep(parseSock: SockParser, lib: UnboundLib): NameServer -> Result<SocketAddr, ConfigError> {
    ns => Forward(ns, parseSock, lib)
  }

  function Forwarders(addrs: seq<SocketAddr>): (ops: seq<ContextOp>)
    ensures |ops| == |addrs| && forall i | 0 <= i < |addrs| :: ops[i] == SetForward(addrs[i])
  {
    seq(|addrs|, i requires 0 <= i < |addrs| => SetForward(addrs[i]))
  }

  /** The operations applied to the context after the forwarders. */
  function Extras(options: ResolverOpts): seq<ContextOp> {
    (if options.validate then [AddBuiltinTrustAnchors] else []) +
    (if WantsHosts(options.useHostsFile) then [LoadHosts] else [])
  }

  /** The whole construction, as the sequence of operations applied to the context. */
  function SetupUnbound(config: DnsConfig, parseSock: SockParser, lib: UnboundLib): Result<seq<ContextOp>, ConfigError> {
    if !lib.newOk then Failure(ContextNewFailed)
    else
      match MapAll(config.nameServers, ForwardStep(parseSock, lib))
      case Failure(e) => Failure(e)
      case Success(addrs) =>
        if config.options.validate && !lib.trustAnchorsOk then Failure(Context("add_builtin_trust_anchors"))
        else if WantsHosts(config.options.useHostsFile) && !lib.hostsOk then Failure(Context("load_hosts"))
        else if !lib.asyncOk then Failure(Context("make async resolver context"))
        else Success(Forwarders(addrs) + Extras(config.options))
  }

  /** The construction succeeds exactly when every call it needs succeeds. */
  lemma UnboundSucceedsIff(config: DnsConfig, parseSock: SockParser, lib: UnboundLib)
    ensures SetupUnbound(config, parseSock, lib).Success? <==>
      && lib.newOk
      && (forall i | 0 <= i < |config.nameServers| ::
            var text := config.nameServers[i].SocketText();
            parseSock(text).Some? && lib.forwardOk(parseSock(text).value))
      && (config.options.validate ==> lib.trustAnchorsOk)
      && (WantsHosts(config.options.useHostsFile) ==> lib.hostsOk)
      && lib.asyncOk
  {
    if lib.newOk {
      var m := MapAll(config.nameServers, ForwardStep(parseSock, lib));
      assert m.Success? <==> forall i | 0 <= i < |config.nameServers| :: Forward(config.nameServers[i], parseSock, lib).Success?;
    }
  }

  /** A successful construction registers one forwarder per name server, in
      order, before anything else; then trust anchors exactly when validation is
      on, then hosts exactly when the policy is `Always` or `Auto`. */
  lemma UnboundOperations(config: DnsConfig, parseSock: SockParser, lib: UnboundLib)
    requires SetupUnbound(config, parseSock, lib).Success?
    ensures var ops := SetupUnbound(config, parseSock, lib).value;
      var n := |config.nameServers|;
      && n <= |ops|
      && (forall i | 0 <= i < n :: Some(ops[i].addr) == parseSock(config.nameServers[i].SocketText()) && ops[i].SetForward?)
      && (forall i | n <= i < |ops| :: !ops[i].SetForward?)
      && (AddBuiltinTrustAnchors in ops <==> config.options.validate)
      && (LoadHosts in ops <==> WantsHosts(config.options.useHostsFile))
      && (forall i, j | 0 <= i < j < |ops| :: ops[i] == LoadHosts ==> ops[j] != AddBuiltinTrustAnchors)
  {
    var addrs := MapAll(config.nameServers, ForwardStep(parseSock, lib)).value;
    var ops := Forwarders(addrs) + Extras(config.options);
    assert ops == SetupUnbound(config, parseSock, lib).value;
    forall i | 0 <= i < |config.nameServers|
      ensures Some(ops[i].addr) == parseSock(config.nameServers[i].SocketText()) && ops[i].SetForward?
    {
      assert ForwardStep(parseSock, lib)(config.nameServers[i]) == Success(addrs[i]);
    }
    assert AddBuiltinTrustAnchors in ops <==> AddBuiltinTrustAnchors in Extras(config.options);
    assert LoadHosts in ops <==> LoadHosts in Extras(config.options);
  }

  /** Only the options and each entry's `socket_addr` matter: the domain, the
      search list and the other fields of a detailed entry are ignored. */
  lemma UnboundIgnoresDetails(c1: DnsConfig, c2: DnsConfig, parseSock: SockParser, lib: UnboundLib)
    requires c1.options == c2.options && |c1.nameServers| == |c2.nameServers|
    requires forall i | 0 <= i < |c1.nameServers| :: c1.nameServers[i].SocketText() == c2.nameServers[i].SocketText()
    ensures SetupUnbound(c1, parseSock, lib) == SetupUnbound(c2, parseSock, lib)
  {
    forall i | 0 <= i < |c1.nameServers|
      ensures ForwardStep(parseSock, lib)(c1.nameServers[i]) == ForwardStep(parseSock, lib)(c2.nameServers[i])
    {
    }
    MapAllPointwise(c1.nameServers, ForwardStep(parseSock, lib), c2.nameServers, ForwardStep(parseSock, lib));
  }

  /** A libunbound resolution context being configured. */
  class UnboundContext {
    const lib: UnboundLib
    var ops: seq<ContextOp>

    /** `Context::new()` after it succeeded. */
    constructor (lib: UnboundLib)
      ensures this.lib == lib && ops == []
    {
      this.lib := lib;
      ops := [];
    }

    /** `set_forward(Some(addr))` */
    method SetForward(addr: SocketAddr) returns (ok: bool)
      modifies this
      ensures ok == lib.forwardOk(addr)
      ensures ops == if ok then old(ops) + [ContextOp.SetForward(addr)] else old(ops)
    {
      ok := lib.forwardOk(addr);
      if ok {
        ops := ops + [ContextOp.SetForward(addr)];
      }
    }

    /** `add_builtin_trust_anchors()` */
    method AddBuiltinTrustAnchors() returns (ok: bool)
      modifies this
      ensures ok == lib.trustAnchorsOk
      ensures ops == if ok then old(ops) + [ContextOp.AddBuiltinTrustAnchors] else old(ops)
    {
      ok := lib.trustAnchorsOk;
      if ok {
        ops := ops + [ContextOp.AddBuiltinTrustAnchors];
      }
    }

    /** `load_hosts(None)` */
    method LoadHosts() returns (ok: bool)
      modifies this
      ensures ok == lib.hostsOk
      ensures ops == if ok then old(ops) + [ContextOp.LoadHosts] else old(ops)
    {
      ok := lib.hostsOk;
      if ok {
        ops := ops + [ContextOp.LoadHosts];
      }
    }
  }

  /** The body of `configure_unbound_resolver` up to the point where the
      resolver is installed: configures a fresh context call by call and returns
      early on the first failure. */
  method BuildUnboundContext(config: DnsConfig, parseSock: SockParser, lib: UnboundLib)
    returns (r: Result<seq<ContextOp>, ConfigError>)
    ensures r == SetupUnbound(config, parseSock, lib)
  {
    if !lib.newOk {
      return Failure(ContextNewFailed);
    }
    var context := new UnboundContext(lib);
    ghost var addrs: seq<SocketAddr> := [];
    var i := 0;
    while i < |config.nameServers|
      invariant 0 <= i <= |config.nameServers|
      invariant |addrs| == i && context.lib == lib && context.ops == Forwarders(addrs)
      invariant forall j | 0 <= j < i :: ForwardStep(parseSock, lib)(config.nameServers[j]) == Success(addrs[j])
    {
      var text := config.nameServers[i].SocketText();
      var addr := parseSock(text);
      if addr.None? {
        MapAllFirstFailure(config.nameServers, ForwardStep(parseSock, lib), i);
        assert SetupUnbound(config, parseSock, lib) == Failure(Context(ServerMessage(text)));
        return Failure(Context(ServerMessage(text)));
      }
      var ok := context.SetForward(addr.value);
      if !ok {
        MapAllFirstFailure(config.nameServers, ForwardStep(parseSock, lib), i);
        assert SetupUnbound(config, parseSock, lib) == Failure(Context("set_forward"));
        return Failure(Context("set_forward"));
      }
      addrs := addrs + [addr.value];
      i := i + 1;
    }
    MapAllAllSucceed(config.nameServers, ForwardStep(parseSock, lib), addrs);

    if config.options.validate {
      var ok := context.AddBuiltinTrustAnchors();
      if !ok {
        assert SetupUnbound(config, parseSock, lib) == Failure(Context("add_builtin_trust_anchors"));
        return Failure(Context("add_builtin_trust_anchors"));
      }
    }
    ghost var anchors := if config.options.validate then [AddBuiltinTrustAnchors] else [];
    assert context.ops == Forwarders(addrs) + anchors;
    if config.options.useHostsFile == Always || config.options.useHostsFile == Auto {
      var ok := context.LoadHosts();
      if !ok {
        assert SetupUnbound(config, parseSock, lib) == Failure(Context("load_hosts"));
        return Failure(Context("load_hosts"));
      }
    }
    assert context.ops == Forwarders(addrs) + anchors + (if WantsHosts(config.options.useHostsFile) then [LoadHosts] else []);
    assert Extras(config.options) == anchors + (if WantsHosts(config.options.useHostsFile) then [LoadHosts] else []);
    if !lib.asyncOk {
      assert SetupUnbound(config, parseSock, lib) == Failure(Context("make async resolver context"));
      return Failure(Context("make async resolver context"));
    }
    assert SetupUnbound(config, parseSock, lib) == Success(Forwarders(addrs) + Extras(config.options));
    assert context.ops == Forwarders(addrs) + Extras(config.options);
    r := Success(context.ops);
  }
}

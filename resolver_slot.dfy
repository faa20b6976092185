/** The process-wide resolver slot and the three `configure_*` entry points that
    replace its contents. The slot is only ever replaced as a whole, and only
    after the new resolver has been built completely. */
module ResolverSlot {
  import opened Wrappers
  import opened DnsTypes
  import opened HickorySetup
  import opened UnboundSetup
  import opened TestSetup

  class Slot {
    /** The active resolver; `None` until the first configuration. */
    var current: Option<Resolver>

    constructor ()
      ensures current == None
    {
      current := None;
    }

    /** `get_resolver`: the resolver a call started now would use. */
    function Get(): Option<Resolver>
      reads this
    {
      current
    }

    /** `reconfigure_resolver`: replaces the active resolver. */
    method Reconfigure(r: Resolver)
      modifies this
      ensures Get() == Some(r)
    {
      current := Some(r);
    }

    /** `configure_resolver`: installs a Hickory resolver built from `config`,
        or reports the first input that does not parse and leaves the slot as it was. */
    method ConfigureResolver(config: DnsConfig, parseName: NameParser, parseSock: SockParser)
      returns (r: Result<(), ConfigError>)
      modifies this
      ensures r.Success? <==>
        forall i | 0 <= i < |Inputs(config)| :: Accepts(Inputs(config)[i], parseName, parseSock)
      ensures r.Failure? ==>
        && current == old(current)
        && FirstRejected(Inputs(config), parseName, parseSock).Some?
        && r.error == Context(Message(FirstRejected(Inputs(config), parseName, parseSock).value))
      ensures r.Success? ==>
        && TranslateConfig(config, parseName, parseSock).Success?
        && current == Some(Hickory(TranslateConfig(config, parseName, parseSock).value, config.options))
    {
      TranslateReportsFirstRejected(config, parseName, parseSock);
      var rc := BuildResolverConfig(config, parseName, parseSock);
      if rc.Failure? {
        return Failure(rc.error);
      }
      Reconfigure(Hickory(rc.value, config.options));
      r := Success(());
    }

    /** `configure_unbound_resolver`: installs an unbound resolver, or leaves the
        slot as it was when any step of building the context fails. */
    method ConfigureUnboundResolver(config: DnsConfig, parseSock: SockParser, lib: UnboundLib)
      returns (r: Result<(), ConfigError>)
      modifies this
      ensures r.Success? <==> SetupUnbound(config, parseSock, lib).Success?
      ensures r.Failure? ==> current == old(current) && r.error == SetupUnbound(config, parseSock, lib).error
      ensures r.Success? ==> current == Some(Unbound(SetupUnbound(config, parseSock, lib).value))
    {
      var ops := BuildUnboundContext(config, parseSock, lib);
      if ops.Failure? {
        return Failure(ops.error);
      }
      Reconfigure(Unbound(ops.value));
      r := Success(());
    }

    /** `configure_test_resolver`: installs a test resolver serving `zones`, in order. */
    method ConfigureTestResolver(zones: seq<string>)
      modifies this
      ensures current == Some(Test(TestResolver(zones)))
    {
      var resolver := BuildTestResolver(zones);
      Reconfigure(Test(resolver));
    }
  }
}

/** `configure_resolver`: the translation of a `DnsConfig` into Hickory's
    `ResolverConfig`. Inputs are parsed in order (domain, search suffixes, name
    servers with their bind addresses) and the first one that does not parse
    aborts the translation with a message that names it. */
module HickorySetup {
  import opened Wrappers
  import opened Traverse
  import opened DnsTypes

  /** The `trust_negative_responses` flag `NameServerConfig::new` starts with. */
  const NewTrustsNegative: bool := true

  /** `NameServerConfig::new(addr, protocol)`: no bind address, default trust flag. */
  function NewNameServerConfig(addr: SocketAddr, protocol: Protocol): NameServerConfig {
    NameServerConfig(addr, protocol, NewTrustsNegative, None)
  }

  // ---------------------------------------------------------------------------
  // The translation, stage by stage

  /** The default domain: parsed only when one is configured. */
  function TranslateDomain(domain: Option<string>, parseName: NameParser): Result<Option<Name>, ConfigError> {
    match domain
    case None => Success(None)
    case Some(dom) =>
      match parseName(dom)
      case None => Failure(Context(DomainMessage(dom)))
      case Some(n) => Success(Some(n))
  }

  /** One search suffix. */
  function TranslateSearch(s: string, parseName: NameParser): Result<Name, ConfigError> {
    match parseName(s)
    case None => Failure(Context(SearchMessage(s)))
    case Some(n) => Success(n)
  }

  function SearchStep(parseName: NameParser): string -> Result<Name, ConfigError> {
    s => TranslateSearch(s, parseName)
  }

  /** One name-server entry: a bare address becomes a UDP server with the default
      flags; a detailed entry keeps its protocol and trust flag and gets a bind
      address exactly when it names one. */
  function TranslateNameServer(ns: NameServer, parseSock: SockParser): Result<NameServerConfig, ConfigError> {
    match ns
    case Ip(ip) =>
      if parseSock(ip).None? then Failure(Context(ServerMessage(ip)))
      else Success(NewNameServerConfig(parseSock(ip).value, Udp))
    case Detailed(sa, protocol, trust, bind) =>
      if parseSock(sa).None? then Failure(Context(ServerMessage(sa)))
      else
        var c := NewNameServerConfig(parseSock(sa).value, protocol).(trustNegativeResponses := trust);
        if bind.None? then Success(c)
        else if parseSock(bind.value).None? then Failure(Context(BindMessage(sa, bind.value)))
        else Success(c.(bindAddr := parseSock(bind.value)))
  }

  function ServerStep(parseSock: SockParser): NameServer -> Result<NameServerConfig, ConfigError> {
    ns => TranslateNameServer(ns, parseSock)
  }

  /** The search list `set_domain` leaves behind: the domain alone. */
  function DomainSearch(dom: Option<Name>): (r: seq<Name>)
    ensures |r| <= 1 && (r == [] <==> dom.None?)
  {
    if dom.Some? then [dom.value] else []
  }

  /** The whole translation: domain, then search suffixes, then name servers.
      Setting the domain also makes it the first search name. */
  function TranslateConfig(config: DnsConfig, parseName: NameParser, parseSock: SockParser): Result<ResolverConfig, ConfigError> {
    match TranslateDomain(config.domain, parseName)
    case Failure(e) => Failure(e)
    case Success(dom) =>
      match MapAll(config.search, SearchStep(parseName))
      case Failure(e) => Failure(e)
      case Success(search) =>
        match MapAll(config.nameServers, ServerStep(parseSock))
        case Failure(e) => Failure(e)
        case Success(servers) => Success(ResolverConfig(dom, DomainSearch(dom) + search, servers))
  }

  // ---------------------------------------------------------------------------
  // A reference description: the flat list of every string the translation parses

  /** One string the translation must parse. */
  datatype Input =
    | DomainInput(text: string)
    | SearchInput(text: string)
    | ServerInput(text: string)
    | BindInput(server: string, text: string)

  predicate Accepts(i: Input, parseName: NameParser, parseSock: SockParser) {
    match i
    case DomainInput(t) => parseName(t).Some?
    case SearchInput(t) => parseName(t).Some?
    case ServerInput(t) => parseSock(t).Some?
    case BindInput(_, t) => parseSock(t).Some?
  }

  /** The message of the error that rejects input `i`. */
  function Message(i: Input): string {
    match i
    case DomainInput(t) => DomainMessage(t)
    case SearchInput(t) => SearchMessage(t)
    case ServerInput(t) => ServerMessage(t)
    case BindInput(s, t) => BindMessage(s, t)
  }

  function EntryInputs(ns: NameServer): seq<Input> {
    match ns
    case Ip(ip) => [ServerInput(ip)]
    case Detailed(sa, _, _, bind) => [ServerInput(sa)] + (if bind.Some? then [BindInput(sa, bind.value)] else [])
  }

  function ServerInputs(nss: seq<NameServer>): seq<Input> {
    if nss == [] then [] else EntryInputs(nss[0]) + ServerInputs(nss[1..])
  }

  function SearchInputs(search: seq<string>): seq<Input> {
    if search == [] then [] else [SearchInput(search[0])] + SearchInputs(search[1..])
  }

  function DomainInputs(domain: Option<string>): seq<Input> {
    if domain.Some? then [DomainInput(domain.value)] else []
  }

  /** Every string `configure_resolver` parses, in the order it parses them. */
  function Inputs(config: DnsConfig): seq<Input> {
    DomainInputs(config.domain) + SearchInputs(config.search) + ServerInputs(config.nameServers)
  }

  /** `inputs[k]` is rejected and every input before it is accepted. */
  predicate RejectedFirstAt(inputs: seq<Input>, k: int, parseName: NameParser, parseSock: SockParser) {
    && 0 <= k < |inputs|
    && !Accepts(inputs[k], parseName, parseSock)
    && forall j | 0 <= j < k :: Accepts(inputs[j], parseName, parseSock)
  }

  /** The first input the parsers reject, if any. */
  function FirstRejected(inputs: seq<Input>, parseName: NameParser, parseSock: SockParser): (r: Option<Input>)
    ensures r.None? <==> forall i | 0 <= i < |inputs| :: Accepts(inputs[i], parseName, parseSock)
    ensures r.Some? ==> exists k :: RejectedFirstAt(inputs, k, parseName, parseSock) && inputs[k] == r.value
  {
    if inputs == [] then None
    else if !Accepts(inputs[0], parseName, parseSock) then
      assert RejectedFirstAt(inputs, 0, parseName, parseSock);
      Some(inputs[0])
    else
      var r := FirstRejected(inputs[1..], parseName, parseSock);
      assert r.Some? ==> exists k :: RejectedFirstAt(inputs, k, parseName, parseSock) && inputs[k] == r.value by {
        if r.Some? {
          var k :| RejectedFirstAt(inputs[1..], k, parseName, parseSock) && inputs[1..][k] == r.value;
          forall j | 0 <= j < k + 1 ensures Accepts(inputs[j], parseName, parseSock) {
            if j > 0 { assert inputs[j] == inputs[1..][j - 1]; }
          }
          assert RejectedFirstAt(inputs, k + 1, parseName, parseSock);
        }
      }
      r
  }

  /** The error a translation that first rejects `inputs` reports. */
  function ErrorOf(inputs: seq<Input>, parseName: NameParser, parseSock: SockParser): Option<ConfigError> {
    match FirstRejected(inputs, parseName, parseSock)
    case None => None
    case Some(i) => Some(Context(Message(i)))
  }

  /** The error a translation result reports. */
  function Reported<T>(r: Result<T, ConfigError>): Option<ConfigError> {
    match r
    case Success(_) => None
    case Failure(e) => Some(e)
  }

  // ---------------------------------------------------------------------------
  // The translation rejects exactly the first input that does not parse

  lemma {:induction false} ErrorOfAppend(a: seq<Input>, b: seq<Input>, parseName: NameParser, parseSock: SockParser)
    ensures ErrorOf(a + b, parseName, parseSock) ==
      if ErrorOf(a, parseName, parseSock).Some? then ErrorOf(a, parseName, parseSock) else ErrorOf(b, parseName, parseSock)
  {
    if a == [] {
      assert a + b == b;
    } else {
      assert (a + b)[0] == a[0];
      assert (a + b)[1..] == a[1..] + b;
      ErrorOfAppend(a[1..], b, parseName, parseSock);
    }
  }

  lemma EntryReportsFirstRejected(ns: NameServer, parseName: NameParser, parseSock: SockParser)
    ensures Reported(TranslateNameServer(ns, parseSock)) == ErrorOf(EntryInputs(ns), parseName, parseSock)
  {
    match ns
    case Ip(ip) =>
    case Detailed(sa, _, _, bind) =>
      var inputs := EntryInputs(ns);
      assert inputs[0] == ServerInput(sa);
      if bind.Some? {
        ErrorOfAppend([ServerInput(sa)], [BindInput(sa, bind.value)], parseName, parseSock);
      }
  }

  lemma {:induction false} SearchReportsFirstRejected(search: seq<string>, parseName: NameParser, parseSock: SockParser)
    ensures Reported(MapAll(search, SearchStep(parseName))) == ErrorOf(SearchInputs(search), parseName, parseSock)
  {
    if search != [] {
      SearchReportsFirstRejected(search[1..], parseName, parseSock);
      ErrorOfAppend([SearchInput(search[0])], SearchInputs(search[1..]), parseName, parseSock);
    }
  }

  lemma {:induction false} ServersReportFirstRejected(nss: seq<NameServer>, parseName: NameParser, parseSock: SockParser)
    ensures Reported(MapAll(nss, ServerStep(parseSock))) == ErrorOf(ServerInputs(nss), parseName, parseSock)
  {
    if nss != [] {
      EntryReportsFirstRejected(nss[0], parseName, parseSock);
      ServersReportFirstRejected(nss[1..], parseName, parseSock);
      ErrorOfAppend(EntryInputs(nss[0]), ServerInputs(nss[1..]), parseName, parseSock);
    }
  }

  /** All or nothing: the translation succeeds exactly when every domain, search,
      name-server and bind-address string parses; otherwise its error is the
      message naming the first string, in configuration order, that does not. */
  lemma TranslateReportsFirstRejected(config: DnsConfig, parseName: NameParser, parseSock: SockParser)
    ensures TranslateConfig(config, parseName, parseSock).Success? <==>
      forall i | 0 <= i < |Inputs(config)| :: Accepts(Inputs(config)[i], parseName, parseSock)
    ensures TranslateConfig(config, parseName, parseSock).Failure? ==>
      FirstRejected(Inputs(config), parseName, parseSock).Some? &&
      TranslateConfig(config, parseName, parseSock).error == Context(Message(FirstRejected(Inputs(config), parseName, parseSock).value))
  {
    var d := DomainInputs(config.domain);
    var s := SearchInputs(config.search);
    var n := ServerInputs(config.nameServers);
    SearchReportsFirstRejected(config.search, parseName, parseSock);
    ServersReportFirstRejected(config.nameServers, parseName, parseSock);
    ErrorOfAppend(d, s, parseName, parseSock);
    ErrorOfAppend(d + s, n, parseName, parseSock);
    assert Reported(TranslateDomain(config.domain, parseName)) == ErrorOf(d, parseName, parseSock);
    assert Reported(TranslateConfig(config, parseName, parseSock)) == ErrorOf(Inputs(config), parseName, parseSock);
  }

  /** What a successful translation holds: the domain exactly when one was
      configured; a search list that starts with that domain, when there is one,
      followed by one name per search suffix; one server per entry; each in
      input order, each entry translated by the per-entry rules. */
  lemma TranslatedContents(config: DnsConfig, parseName: NameParser, parseSock: SockParser)
    requires TranslateConfig(config, parseName, parseSock).Success?
    ensures var rc := TranslateConfig(config, parseName, parseSock).value;
      && (rc.domain.Some? <==> config.domain.Some?)
      && (config.domain.Some? ==> parseName(config.domain.value) == rc.domain)
      && |rc.search| == |DomainInputs(config.domain)| + |config.search|
      && (config.domain.Some? ==> rc.search[0] == rc.domain.value)
      && (forall i | 0 <= i < |config.search| ::
            parseName(config.search[i]) == Some(rc.search[|DomainInputs(config.domain)| + i]))
      && |rc.nameServers| == |config.nameServers|
      && (forall i | 0 <= i < |config.nameServers| ::
            TranslateNameServer(config.nameServers[i], parseSock) == Success(rc.nameServers[i]))
  {
    var rc := TranslateConfig(config, parseName, parseSock).value;
    var k := |DomainInputs(config.domain)|;
    var search := MapAll(config.search, SearchStep(parseName)).value;
    assert rc.search == DomainSearch(rc.domain) + search;
    forall i | 0 <= i < |config.search| ensures parseName(config.search[i]) == Some(rc.search[k + i]) {
      assert SearchStep(parseName)(config.search[i]) == Success(search[i]);
      assert rc.search[k + i] == search[i];
    }
  }

  /** The per-entry rules, stated from the entry's point of view. */
  lemma NameServerRules(ns: NameServer, parseSock: SockParser)
    ensures ns.Ip? ==>
      TranslateNameServer(ns, parseSock) ==
        if parseSock(ns.addr).Some?
        then Success(NameServerConfig(parseSock(ns.addr).value, Udp, NewTrustsNegative, None))
        else Failure(Context(ServerMessage(ns.addr)))
    ensures ns.Detailed? && TranslateNameServer(ns, parseSock).Success? ==>
      var c := TranslateNameServer(ns, parseSock).value;
      && Some(c.socketAddr) == parseSock(ns.socketAddr)
      && c.protocol == ns.protocol
      && c.trustNegativeResponses == ns.trustNegativeResponses
      && (c.bindAddr.Some? <==> ns.bindAddr.Some?)
      && (ns.bindAddr.Some? ==> c.bindAddr == parseSock(ns.bindAddr.value))
    ensures ns.Detailed? && parseSock(ns.socketAddr).Some? && ns.bindAddr.Some? && parseSock(ns.bindAddr.value).None? ==>
      TranslateNameServer(ns, parseSock) == Failure(Context(BindMessage(ns.socketAddr, ns.bindAddr.value)))
  {
  }

  // ---------------------------------------------------------------------------
  // The imperative translation, as `configure_resolver` performs it

  /** Hickory's `ResolverConfig` under construction. */
  class ResolverConfigBuilder {
    var domain: Option<Name>
    var search: seq<Name>
    var nameServers: seq<NameServerConfig>

    /** `ResolverConfig::new()` */
    constructor ()
      ensures domain == None && search == [] && nameServers == []
    {
      domain, search, nameServers := None, [], [];
    }

    /** `set_domain`: the domain also becomes the whole search list. */
    method SetDomain(n: Name)
      modifies this
      ensures domain == Some(n) && search == [n] && nameServers == old(nameServers)
    {
      domain := Some(n);
      search := [n];
    }

    /** `add_search` */
    method AddSearch(n: Name)
      modifies this
      ensures search == old(search) + [n] && domain == old(domain) && nameServers == old(nameServers)
    {
      search := search + [n];
    }

    /** `add_name_server` */
    method AddNameServer(c: NameServerConfig)
      modifies this
      ensures nameServers == old(nameServers) + [c] && domain == old(domain) && search == old(search)
    {
      nameServers := nameServers + [c];
    }
  }

  /** One arm of the name-server `match`: parse, construct, then adjust the fields. */
  method BuildNameServer(ns: NameServer, parseSock: SockParser) returns (r: Result<NameServerConfig, ConfigError>)
    ensures r == TranslateNameServer(ns, parseSock)
  {
    match ns {
      case Ip(ip) =>
        var a := parseSock(ip);
        if a.None? {
          return Failure(Context(ServerMessage(ip)));
        }
        r := Success(NewNameServerConfig(a.value, Udp));
      case Detailed(sa, protocol, trust, bind) =>
        var a := parseSock(sa);
        if a.None? {
          return Failure(Context(ServerMessage(sa)));
        }
        var c := NewNameServerConfig(a.value, protocol);
        c := c.(trustNegativeResponses := trust);
        if bind.Some? {
          var ba := parseSock(bind.value);
          if ba.None? {
            return Failure(Context(BindMessage(sa, bind.value)));
          }
          c := c.(bindAddr := Some(ba.value));
        }
        r := Success(c);
    }
  }

  /** The search loop: parses each suffix in order and appends it to the
      builder's search list, returning early on the first that does not parse. */
  method BuildSearch(rc: ResolverConfigBuilder, suffixes: seq<string>, parseName: NameParser)
    returns (r: Result<seq<Name>, ConfigError>)
    modifies rc
    ensures r == MapAll(suffixes, SearchStep(parseName))
    ensures rc.domain == old(rc.domain) && rc.nameServers == old(rc.nameServers)
    ensures r.Success? ==> rc.search == old(rc.search) + r.value
  {
    var added: seq<Name> := [];
    var i := 0;
    while i < |suffixes|
      invariant 0 <= i <= |suffixes|
      invariant rc.domain == old(rc.domain) && rc.nameServers == old(rc.nameServers)
      invariant rc.search == old(rc.search) + added && |added| == i
      invariant forall j | 0 <= j < i :: SearchStep(parseName)(suffixes[j]) == Success(added[j])
    {
      var s := suffixes[i];
      var n := parseName(s);
      if n.None? {
        MapAllFirstFailure(suffixes, SearchStep(parseName), i);
        return Failure(Context(SearchMessage(s)));
      }
      rc.AddSearch(n.value);
      assert rc.search == old(rc.search) + (added + [n.value]);
      added := added + [n.value];
      i := i + 1;
    }
    MapAllAllSucceed(suffixes, SearchStep(parseName), added);
    r := Success(added);
  }

  /** The name-server loop: translates each entry in order and appends it to
      the builder, returning early on the first entry that fails. */
  method BuildNameServers(rc: ResolverConfigBuilder, nss: seq<NameServer>, parseSock: SockParser)
    returns (r: Result<seq<NameServerConfig>, ConfigError>)
    modifies rc
    ensures r == MapAll(nss, ServerStep(parseSock))
    ensures rc.domain == old(rc.domain) && rc.search == old(rc.search)
    ensures r.Success? ==> rc.nameServers == old(rc.nameServers) + r.value
  {
    var added: seq<NameServerConfig> := [];
    var i := 0;
    while i < |nss|
      invariant 0 <= i <= |nss|
      invariant rc.domain == old(rc.domain) && rc.search == old(rc.search)
      invariant rc.nameServers == old(rc.nameServers) + added && |added| == i
      invariant forall j | 0 <= j < i :: ServerStep(parseSock)(nss[j]) == Success(added[j])
    {
      var c := BuildNameServer(nss[i], parseSock);
      if c.Failure? {
        MapAllFirstFailure(nss, ServerStep(parseSock), i);
        return Failure(c.error);
      }
      rc.AddNameServer(c.value);
      assert rc.nameServers == old(rc.nameServers) + (added + [c.value]);
      added := added + [c.value];
      i := i + 1;
    }
    MapAllAllSucceed(nss, ServerStep(parseSock), added);
    r := Success(added);
  }

  /** The body of `configure_resolver` up to the point where the resolver is
      built: mutates a fresh `ResolverConfig` step by step, returning early on the
      first input that does not parse. */
  method BuildResolverConfig(config: DnsConfig, parseName: NameParser, parseSock: SockParser)
    returns (r: Result<ResolverConfig, ConfigError>)
    ensures r == TranslateConfig(config, parseName, parseSock)
  {
    var rc := new ResolverConfigBuilder();
    if config.domain.Some? {
      var dom := config.domain.value;
      var n := parseName(dom);
      if n.None? {
        return Failure(Context(DomainMessage(dom)));
      }
      rc.SetDomain(n.value);
    }
    assert TranslateDomain(config.domain, parseName) == Success(rc.domain);
    assert rc.search == DomainSearch(rc.domain) && rc.nameServers == [];

    var search := BuildSearch(rc, config.search, parseName);
    if search.Failure? {
      return Failure(search.error);
    }
    var servers := BuildNameServers(rc, config.nameServers, parseSock);
    if servers.Failure? {
      return Failure(servers.error);
    }
    assert rc.nameServers == servers.value;
    r := Success(ResolverConfig(rc.domain, rc.search, rc.nameServers));
  }
}

/** The configuration record the scripting layer hands to the `configure_*`
    entry points, the resolvers they build, and their error messages. */
module DnsTypes {
  import opened Wrappers

  /** A socket address as produced by the socket-address parser. */
  datatype SocketAddr = SocketAddr(ip: seq<int>, port: int)

  /** A DNS name as produced by the relaxed name parser. */
  datatype Name = Name(labels: seq<string>)

  /** `SocketAddr` parsing (`str::parse`): foreign, so any partial function. */
  type SockParser = string -> Option<SocketAddr>

  /** `Name::from_str_relaxed`: foreign, so any partial function. */
  type NameParser = string -> Option<Name>

  /** The transport of one upstream name server; `Udp` is the default. */
  datatype Protocol = Udp | Tcp | Tls | Https | Quic | H3

  /** The hosts-file policy of the resolver options. */
  datatype ResolveHosts = Always | Never | Auto

  /** The resolver options, reduced to the two fields the translators inspect;
      the Hickory path copies the whole record into the resolver unchanged. */
  datatype ResolverOpts = ResolverOpts(validate: bool, useHostsFile: ResolveHosts)

  /** One configured name server: a bare address, or a detailed record. */
  datatype NameServer =
    | Ip(addr: string)
    | Detailed(socketAddr: string, protocol: Protocol, trustNegativeResponses: bool, bindAddr: Option<string>)
  {
    /** The address string every entry carries. */
    function SocketText(): string {
      match this
      case Ip(a) => a
      case Detailed(a, _, _, _) => a
    }
  }

  /** `DnsConfig`: every field has a default, so every record is well formed. */
  datatype DnsConfig = DnsConfig(
    domain: Option<string>,
    search: seq<string>,
    nameServers: seq<NameServer>,
    options: ResolverOpts)

  /** Hickory's per-server configuration. */
  datatype NameServerConfig = NameServerConfig(
    socketAddr: SocketAddr,
    protocol: Protocol,
    trustNegativeResponses: bool,
    bindAddr: Option<SocketAddr>)

  /** Hickory's `ResolverConfig`: default domain, search list, name servers. */
  datatype ResolverConfig = ResolverConfig(domain: Option<Name>, search: seq<Name>, nameServers: seq<NameServerConfig>)

  /** The operations applied to a libunbound context, in the order they were applied. */
  datatype ContextOp = SetForward(addr: SocketAddr) | AddBuiltinTrustAnchors | LoadHosts

  /** The test backend: the zones it was seeded with, in registration order. */
  datatype TestResolver = TestResolver(zones: seq<string>)

  /** The backend held by the global resolver slot. */
  datatype Resolver =
    | Hickory(config: ResolverConfig, options: ResolverOpts)
    | Unbound(ops: seq<ContextOp>)
    | Test(test: TestResolver)

  /** A configuration failure: the context message attached to the cause, or the
      failure of `libunbound::Context::new`, which carries no context. */
  datatype ConfigError = Context(message: string) | ContextNewFailed

  /** `format!("{key}: '{value}'")` */
  function Quoted(key: string, value: string): string {
    key + ": '" + value + "'"
  }

  function DomainMessage(dom: string): string { Quoted("domain", dom) }
  function SearchMessage(s: string): string { Quoted("search", s) }
  function ServerMessage(addr: string): string { Quoted("name server", addr) }
  function BindMessage(addr: string, bind: string): string {
    Quoted("name server", addr) + " " + Quoted("bind_addr", bind)
  }

  /** `t` occurs in `s` starting at position `at`. */
  predicate OccursAt(t: string, s: string, at: nat) {
    at + |t| <= |s| && s[at..at + |t|] == t
  }

  /** Every message names its input, between quotes, right after the label. */
  lemma QuotedNamesValue(key: string, value: string)
    ensures OccursAt(value, Quoted(key, value), |key| + 3)
    ensures Quoted(key, value)[|key| + 2] == '\'' && Quoted(key, value)[|key| + 3 + |value|] == '\''
  {
    var q := Quoted(key, value);
    assert q == key + ": '" + value + "'";
    assert q[|key| + 3..|key| + 3 + |value|] == value;
  }

  /** The bind-address message names both the server address and the bind string. */
  lemma BindMessageNamesBoth(addr: string, bind: string)
    ensures OccursAt(addr, BindMessage(addr, bind), |"name server"| + 3)
    ensures OccursAt(bind, BindMessage(addr, bind), |ServerMessage(addr)| + 1 + |"bind_addr"| + 3)
  {
    QuotedNamesValue("name server", addr);
    QuotedNamesValue("bind_addr", bind);
    var a := Quoted("name server", addr);
    var b := Quoted("bind_addr", bind);
    assert BindMessage(addr, bind) == a + " " + b;
    assert (a + " " + b)[..|a|] == a;
    assert (a + " " + b)[|a| + 1..] == b;
  }
}

/** `configure_test_resolver`: a test backend seeded zone by zone. */
module TestSetup {
  import opened DnsTypes

  /** `TestResolver::with_zone`: a resolver that also serves `zone`. */
  function WithZone(r: TestResolver, zone: string): (r': TestResolver)
    ensures r'.zones == r.zones + [zone]
  {
    TestResolver(r.zones + [zone])
  }

  /** Starts from `TestResolver::default()` and registers every zone in list order. */
  method BuildTestResolver(zones: seq<string>) returns (r: TestResolver)
    ensures r.zones == zones
  {
    r := TestResolver([]);
    for i := 0 to |zones|
      invariant r.zones == zones[..i]
    {
      r := WithZone(r, zones[i]);
    }
  }
}

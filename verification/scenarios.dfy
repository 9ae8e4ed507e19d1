/** Worked examples of a failover for the identity provider "acme" in the
    domain "example.com", whose id-broker record is moved to a new target
    while every other service has no value configured.
 */
module Scenarios {
  import opened Zone
  import opened Catalog
  import opened Reconciler
  import opened Failover

  const Domain: string := "example.com"
  const OldTarget: string := "old-target.example.com"
  const NewTarget: string := "new-target.example.com"

  /** The zone before the failover: the id-broker record points at the old target. */
  function Before(): Store
  {
    [ZoneRecord("rec-1", Cname, "acme-id-broker.example.com", OldTarget)]
  }

  /** Only the id-broker value is configured. */
  function IdBrokerOnly(): Options
  {
    map["id-broker-value" := NewTarget]
  }

  /** The acme id-broker name is the idp key, a hyphen and `id-broker`. */
  lemma AcmeIdBrokerName()
    ensures "acme" + "-" + "id-broker" == "acme-id-broker"
  {
  }

  /** The id-broker entry resolves to the idp-prefixed default name and the
      configured value. */
  lemma AcmeIdBrokerEntry()
    ensures ResolveCatalog(IdBrokerOnly(), "acme")[4] == ResolvedRecord("acme-id-broker", NewTarget)
  {
    var opts := IdBrokerOnly();
    assert ResolveCatalog(opts, "acme")[4] == ResolveService(IdBroker, opts, "acme");
    assert "id-broker-name" !in opts by {
      assert |"id-broker-name"| != |"id-broker-value"|;
    }
    AcmeIdBrokerName();
  }

  /** The mfa-api entry, with nothing configured for it, resolves to its
      literal default name and an empty value, so it is skipped. */
  lemma MfaApiUnconfigured(cfg: Config, faults: Faults, w: World)
    ensures ResolveCatalog(IdBrokerOnly(), "acme")[0] == ResolvedRecord("mfa-api", "")
    ensures Reconcile(cfg, faults, w, ResolveCatalog(IdBrokerOnly(), "acme")[0]).outcome == Skipped
  {
    var opts := IdBrokerOnly();
    assert ResolveCatalog(opts, "acme")[0] == ResolveService(MfaApi, opts, "acme");
    assert "mfa-api-name" !in opts && "mfa-api-value" !in opts by {
      assert |"mfa-api-name"| != |"id-broker-value"|;
      assert |"mfa-api-value"| != |"id-broker-value"|;
    }
  }

  /** Typing "yes" issues exactly one update with the new content, aimed at
      the looked-up record, and the zone then holds the new target. */
  lemma AcmeAccepted()
    ensures var s := Reconcile(Config(Domain, false), Faults({}, {}), World(Before(), ["yes"]),
                               ResolvedRecord("acme-id-broker", NewTarget));
      && s.outcome == Updated
      && Writes(s.calls) == [UpdateRequest("rec-1", Cname, "acme-id-broker", NewTarget)]
      && s.world.store == [ZoneRecord("rec-1", Cname, "acme-id-broker.example.com", NewTarget)]
  {
    var cfg := Config(Domain, false);
    var rec := ResolvedRecord("acme-id-broker", NewTarget);
    assert Fqdn(rec.name, cfg.domainName) == "acme-id-broker.example.com";
    assert Matching(Before(), "acme-id-broker.example.com") == Before();
    ReconcileConfirm(cfg, Faults({}, {}), World(Before(), ["yes"]), rec);
  }

  /** Typing "y" is a decline: no update, the zone is unchanged. */
  lemma AcmeDeclined()
    ensures var s := Reconcile(Config(Domain, false), Faults({}, {}), World(Before(), ["y"]),
                               ResolvedRecord("acme-id-broker", NewTarget));
      && s.outcome == Declined
      && Writes(s.calls) == []
      && s.world.store == Before()
  {
    var cfg := Config(Domain, false);
    var rec := ResolvedRecord("acme-id-broker", NewTarget);
    assert Fqdn(rec.name, cfg.domainName) == "acme-id-broker.example.com";
    assert Matching(Before(), "acme-id-broker.example.com") == Before();
    ReconcileConfirm(cfg, Faults({}, {}), World(Before(), ["y"]), rec);
  }
}

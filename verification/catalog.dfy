/** The fixed table of services whose CNAME records a failover touches, and
    its resolution against the operator's options into an ordered work list
    of (record name, desired value) pairs.
 */
module Catalog {

  /** How a service's default record name is formed: a fixed literal, or the
      identity-provider key followed by `-` and a suffix. */
  datatype NameRule = Fixed(literal: string) | Templated(suffix: string)

  /** One catalog entry: the option that overrides the record name, the
      default name rule, and the option that supplies the desired value. */
  datatype ServiceSpec = ServiceSpec(nameOption: string, defaultName: NameRule, valueOption: string)

  /** The services a failover moves. */
  datatype Service = MfaApi | TwosvApi | SupportBot | EmailService | IdBroker | PwApi | Ssp | IdSync

  /** A record to reconcile. An empty `value` means no change was requested. */
  datatype ResolvedRecord = ResolvedRecord(name: string, value: string)

  /** The option source: a key is either set to a string or unset. */
  type Options = map<string, string>

  /** The catalog entry of each service. */
  function Spec(service: Service): ServiceSpec
  {
    match service
    // the TOTP API
    case MfaApi => ServiceSpec("mfa-api-name", Fixed("mfa-api"), "mfa-api-value")
    // the WebAuthn API
    case TwosvApi => ServiceSpec("twosv-api-name", Fixed("twosv-api"), "twosv-api-value")
    // the support bot configured in the chat platform's dashboard
    case SupportBot => ServiceSpec("support-bot-name", Fixed("sherlock"), "support-bot-value")
    // the container services, named after the identity provider
    case EmailService => ServiceSpec("email-service-name", Templated("email-service"), "email-service-value")
    case IdBroker => ServiceSpec("id-broker-name", Templated("id-broker"), "id-broker-value")
    case PwApi => ServiceSpec("pw-api-name", Templated("pw-api"), "pw-api-value")
    case Ssp => ServiceSpec("ssp-name", Templated("ssp"), "ssp-value")
    case IdSync => ServiceSpec("id-sync-name", Templated("id-sync"), "id-sync-value")
  }

  /** The catalog, in the order the records are processed. */
  const Services: seq<Service> := [MfaApi, TwosvApi, SupportBot, EmailService, IdBroker, PwApi, Ssp, IdSync]

  /** An option's value, or the fallback when the option is unset. */
  function GetOption(opts: Options, key: string, fallback: string): string
  {
    if key in opts then opts[key] else fallback
  }

  function DefaultName(rule: NameRule, idpKey: string): string
  {
    match rule
    case Fixed(literal) => literal
    case Templated(suffix) => idpKey + "-" + suffix
  }

  function ResolveService(service: Service, opts: Options, idpKey: string): ResolvedRecord
  {
    var spec := Spec(service);
    ResolvedRecord(GetOption(opts, spec.nameOption, DefaultName(spec.defaultName, idpKey)),
                   GetOption(opts, spec.valueOption, ""))
  }

  /** Resolves a table entry by entry, keeping table order. */
  function ResolveAll(services: seq<Service>, opts: Options, idpKey: string): (r: seq<ResolvedRecord>)
    ensures |r| == |services|
    ensures forall i :: 0 <= i < |services| ==> r[i] == ResolveService(services[i], opts, idpKey)
    decreases |services|
  {
    if |services| == 0 then []
    else [ResolveService(services[0], opts, idpKey)] + ResolveAll(services[1..], opts, idpKey)
  }

  /** The work list of one failover run: one record per catalog entry. */
  function ResolveCatalog(opts: Options, idpKey: string): (r: seq<ResolvedRecord>)
    ensures |r| == |Services| == 8
  {
    ResolveAll(Services, opts, idpKey)
  }

  /** The work list keeps catalog order; each name is taken from its
      override option or else is the entry's default, and each value is
      taken from its value option or else is empty. */
  lemma ResolveCatalogEntries(opts: Options, idpKey: string)
    ensures var r := ResolveCatalog(opts, idpKey);
      forall i :: 0 <= i < 8 ==>
        && r[i].name == (if Spec(Services[i]).nameOption in opts then opts[Spec(Services[i]).nameOption]
                         else DefaultNames(idpKey)[i])
        && r[i].value == (if Spec(Services[i]).valueOption in opts then opts[Spec(Services[i]).valueOption] else "")
  {
  }

  /** The default record names, written out entry by entry. */
  function DefaultNames(idpKey: string): (names: seq<string>)
    ensures names == ["mfa-api", "twosv-api", "sherlock",
                      idpKey + "-email-service", idpKey + "-id-broker", idpKey + "-pw-api",
                      idpKey + "-ssp", idpKey + "-id-sync"]
  {
    assert idpKey + "-" + "email-service" == idpKey + "-email-service";
    assert idpKey + "-" + "id-broker" == idpKey + "-id-broker";
    assert idpKey + "-" + "pw-api" == idpKey + "-pw-api";
    assert idpKey + "-" + "ssp" == idpKey + "-ssp";
    assert idpKey + "-" + "id-sync" == idpKey + "-id-sync";
    seq(|Services|, i requires 0 <= i < |Services| => DefaultName(Spec(Services[i]).defaultName, idpKey))
  }

  /** `prefix + tail` differs from `word` when `tail` is longer, or when the
      first or last character of `tail` is not where `word` has it. */
  lemma NotEndingIn(prefix: string, tail: string, word: string)
    requires 0 < |tail| && 0 < |word|
    requires |tail| > |word| || word[|word| - 1] != tail[|tail| - 1] || word[|word| - |tail|] != tail[0]
    ensures prefix + tail != word
  {
    var joined := prefix + tail;
    assert joined[|joined| - 1] == tail[|tail| - 1];
    assert joined[|joined| - |tail|] == tail[0];
  }

  /** For every identity-provider key, the eight default record names are
      pairwise distinct. */
  lemma DefaultNamesDistinct(idpKey: string)
    ensures forall i, j :: 0 <= i < j < 8 ==> DefaultNames(idpKey)[i] != DefaultNames(idpKey)[j]
  {
    var names := DefaultNames(idpKey);
    var fixed := ["mfa-api", "twosv-api", "sherlock"];
    var tails := ["-email-service", "-id-broker", "-pw-api", "-ssp", "-id-sync"];
    forall i, j | 0 <= i < 3 <= j < 8
      ensures names[i] != names[j]
    {
      assert names[i] == fixed[i];
      assert names[j] == idpKey + tails[j - 3];
      NotEndingIn(idpKey, tails[j - 3], fixed[i]);
    }
    forall i, j | 3 <= i < j < 8
      ensures names[i] != names[j]
    {
      assert |names[i]| != |names[j]|;
    }
  }

  /** No option overrides a record name: every record keeps its default. */
  predicate NoNameOverrides(opts: Options)
  {
    forall service :: Spec(service).nameOption !in opts
  }

  /** No option supplies a value: no record asks for a change. */
  predicate NoValues(opts: Options)
  {
    forall service :: Spec(service).valueOption !in opts
  }

  /** When no value option is set, every record of the work list asks for
      no change. */
  lemma UnsetValuesResolveEmpty(opts: Options, idpKey: string)
    requires NoValues(opts)
    ensures forall i :: 0 <= i < 8 ==> ResolveCatalog(opts, idpKey)[i].value == ""
  {
    ResolveCatalogEntries(opts, idpKey);
  }

  /** When no name override is set, the work list names every record
      differently, whatever the identity-provider key. */
  lemma ResolvedNamesDistinct(opts: Options, idpKey: string)
    requires NoNameOverrides(opts)
    ensures forall i, j :: 0 <= i < j < 8 ==>
              ResolveCatalog(opts, idpKey)[i].name != ResolveCatalog(opts, idpKey)[j].name
  {
    ResolveCatalogEntries(opts, idpKey);
    DefaultNamesDistinct(idpKey);
  }
}

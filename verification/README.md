# DNS failover reconciler

This project models the DNS failover command of the IdP command-line tool. The command has two parts.
First, a fixed catalog of eight services is resolved into an ordered work list of
`(record name, desired value)` pairs. Then each pair is reconciled against a Cloudflare zone.
Reconciling one record goes through these steps in order:

1. An empty value is skipped.
2. The record is looked up under `name + "." + domainName`. A failed lookup, or any number of matches other than one, is fatal.
3. A record that already holds the value is left alone.
4. Test mode stops here.
5. The operator must type exactly `yes`.
6. One CNAME update is issued. An update failure is fatal.

The run processes the work list in catalog order and stops at the first fatal outcome.

Everything is modelled as pure functions over immutable values:

- The zone is a sequence of `ZoneRecord(id, recordType, name, content)`.
- Remote failures are fixed fault sets. Listings fail by fully-qualified name; updates fail by record id.
- The operator's terminal is a script of answers, consumed one per prompt.
- The option source is a `map<string, string>`.
- `log.Fatal` is a `Fatal(...)` outcome.
- Every call to a collaborator (listing, prompt, update) is recorded in a trace. "No prompt" and "exactly one write" are therefore statements about that trace.

Modules:

- `Zone` (zone.dfy): records, the name-filtered listing, and update by id.
- `Catalog` (catalog.dfy): the eight services, their default-name rules, and resolution against options.
- `Reconciler` (reconciler.dfy): the per-record decision chain (`setCloudflareCname`).
- `Failover` (failover.dfy): the fold over the work list (`setDnsToSecondary`), early stop on a fatal outcome, and idempotence of a rerun.
- `Scenarios` (scenarios.dfy): worked examples for idp key `acme` in `example.com`.

The support-bot entry reads the options `support-bot-name` and `support-bot-value`, but its default record
name is `sherlock` (`cmd/cli/multiregion/dns.go:89`).

## Model

| member | source | states |
|---|---|---|
| Zone.FqdnInjective | cmd/cli/multiregion/dns.go:116 | The lookup key `name + "." + domainName` determines the short name: two names with the same key in one domain are equal |
| Zone.Matching | cmd/cli/multiregion/dns.go:116 | A name-filtered listing never returns more records than the zone holds |
| Zone.MatchingMembers | cmd/cli/multiregion/dns.go:116 | A record is listed under a fully-qualified name exactly when the zone holds it under that name |
| Zone.ApplyUpdate | cmd/cli/multiregion/dns.go:139-144 | An update keyed by record id sets content and type only on the record with that id. Every record keeps its id and name, every other record is unchanged, and unique ids stay unique |
| Zone.MatchingAfterUpdate | cmd/cli/multiregion/dns.go:139-144 | An update never moves a record into or out of a name's listing. The listing after the update is the updated listing from before |
| Zone.UpdateFramesOtherNames | cmd/cli/multiregion/dns.go:139-144 | With unique ids, an update aimed at one name's record leaves the listing of every other name unchanged |
| Catalog.ResolveAll | cmd/cli/multiregion/dns.go:99-101 | Resolution yields one pair per catalog entry, in table order, each resolved from its own entry |
| Catalog.ResolveCatalog | cmd/cli/multiregion/dns.go:77-103 | The work list has exactly eight entries, one per catalog row |
| Catalog.ResolveCatalogEntries | cmd/cli/multiregion/dns.go:99-101 | Entry i's name is its name option if that option is set, else the entry's default. Its value is its value option if set, else `""` |
| Catalog.DefaultNames | cmd/cli/multiregion/dns.go:83-96 | The defaults are `mfa-api`, `twosv-api`, `sherlock`, then idpKey followed by `-email-service`, `-id-broker`, `-pw-api`, `-ssp` and `-id-sync` |
| Catalog.DefaultNamesDistinct | cmd/cli/multiregion/dns.go:83-96 | For every idpKey, including the empty one, the eight default names are pairwise distinct |
| Catalog.ResolvedNamesDistinct | cmd/cli/multiregion/dns.go:99-100 | With no name override set, the work list never names two records the same |
| Catalog.UnsetValuesResolveEmpty | cmd/cli/multiregion/dns.go:101 | With no value option set, every work-list entry asks for no change |
| Reconciler.Reconcile | cmd/cli/multiregion/dns.go:106-148 | Skipped happens exactly when the value is empty, and then there are no calls and no change. Every trace starts with the listing. Every write directly follows a prompt answered `yes`. Test mode never prompts, never writes and changes nothing. Only an Updated outcome changes the zone, and id uniqueness is kept |
| Reconciler.ReconcileLookup | cmd/cli/multiregion/dns.go:112-132 | A record with a value is listed once, under `name + "." + domainName`. A listing error is Fatal(ListFailed), and a match count other than one is Fatal(NotExactlyOne); both leave the world unchanged after that single call. AlreadySet holds exactly when the unique match already holds the value. TestModeSkipped holds exactly when it differs in test mode |
| Reconciler.ReconcileConfirm | cmd/cli/multiregion/dns.go:134-147 | The prompt is shown once, using up one scripted answer, exactly when the record differs outside test mode. Any answer other than exactly `yes` is Declined, with no write. `yes` issues exactly one update `(looked-up id, "CNAME", short name, value)`. Its failure is Fatal(UpdateFailed); its success changes the zone by exactly that request |
| Failover.Run | cmd/cli/multiregion/dns.go:99-103 | One outcome per record reached, at most one per record. Every trace starts with a listing and its writes stay prompt-guarded across the whole run. With no write the zone is unchanged, and id uniqueness is kept |
| Failover.RunStopsOnlyAtFatal | cmd/cli/multiregion/dns.go:99-103 | Only the last outcome of a run may be fatal, and with no fatal outcome every record of the work list is reached |
| Failover.TestModeRunIsReadOnly | cmd/cli/multiregion/dns.go:129-132 | In test mode a run never prompts, never writes and leaves zone and answers untouched |
| Failover.RunSkipsEmptyValues | cmd/cli/multiregion/dns.go:107-110 | A reached record is Skipped exactly when its value is empty |
| Failover.ValuelessRunIsSilent | cmd/cli/multiregion/dns.go:99-110 | A work list in which no record has a value is run to its end without a single call, and the world is left as it was |
| Failover.FatalStopsRun | cmd/cli/multiregion/dns.go:117-122 | After a fatal outcome, records appended to the work list are never processed: the run is the same |
| Failover.ReconcileSettles | cmd/cli/multiregion/dns.go:124-147 | After AlreadySet or Updated, the zone holds exactly one record of that name, with the desired value. A Skipped record asked for no value, so nothing is promised about the zone for it |
| Failover.ReconcileKeepsSettled | cmd/cli/multiregion/dns.go:139-144 | With unique ids, reconciling one record keeps every differently named settled record settled |
| Failover.RunKeepsSettled | cmd/cli/multiregion/dns.go:99-103 | With unique record ids, a run over records with other names keeps a settled record settled |
| Failover.CleanRunSettles | cmd/cli/multiregion/dns.go:99-147 | With unique record ids, a run whose outcomes are all Skipped, AlreadySet or Updated leaves every record of its distinct-named work list settled |
| Failover.SettledRunIsQuiet | cmd/cli/multiregion/dns.go:124-127 | Over a settled work list a run prompts for nothing, writes nothing, changes nothing and reports only Skipped or AlreadySet |
| Failover.RerunIssuesNoWrite | cmd/cli/multiregion/dns.go:124-127 | Re-running a work list after a clean run issues no write and no prompt and leaves the zone as it was, whatever the operator types |
| Failover.SetDnsToSecondary | cmd/cli/multiregion/dns.go:74-104 | The failover reaches at most eight records, and all eight when nothing is fatal. Entry i is Skipped exactly when its resolved value is empty. Test mode writes nothing. Writes are prompt-guarded |
| Failover.NoValuesSkipsEverything | cmd/cli/multiregion/dns.go:99-110 | With no value option set, the failover reports eight Skipped outcomes and makes no call |
| Failover.FailoverRerunIsQuiet | cmd/cli/multiregion/dns.go:99-127 | When the resolved work list names every record differently (name overrides included) and record ids are unique, repeating a clean failover issues no write and leaves the zone unchanged |
| Failover.UnconfiguredFailoverIsClean | cmd/cli/multiregion/dns.go:83-110 | With no option set, the work list has distinct default names and all eight outcomes of the failover are Skipped (so all are clean), which meets the premises of the rerun property |
| Failover.DefaultNamesRerunIsQuiet | cmd/cli/multiregion/dns.go:83-127 | With no name override set and unique record ids, repeating a clean failover issues no write and leaves the zone unchanged |
| Scenarios.AcmeIdBrokerEntry | cmd/cli/multiregion/dns.go:93 | For idp `acme` with only `id-broker-value` set, entry 4 resolves to `("acme-id-broker", new target)` |
| Scenarios.MfaApiUnconfigured | cmd/cli/multiregion/dns.go:83 | With nothing configured for it, the mfa-api entry resolves to `("mfa-api", "")` and is Skipped |
| Scenarios.AcmeAccepted | cmd/cli/multiregion/dns.go:134-144 | Answering `yes` to the acme id-broker record issues the single update `("rec-1", "CNAME", "acme-id-broker", new target)`, and the zone then holds the new target |
| Scenarios.AcmeDeclined | cmd/cli/multiregion/dns.go:134-137 | Answering `y` is a decline: no update, and the zone is unchanged |

## Left out

- Command wiring (`InitDnsCmd`, `runDnsCommand`): this is CLI framework plumbing with no decision logic.
- `newDnsCommand`: it checks that the domain and token are non-empty, builds the Cloudflare client and resolves the zone id. These are configuration and network set-up. The model takes the domain and the test-mode flag as a `Config` value and does not require a non-empty domain.
- `getOption` and `getPersistentFlags`: their source is not part of this model. Options are a map in which a present key yields its value, even `""`, and an absent key yields the default.
- `simplePrompt`: its source is not part of this model. It is a blocking terminal read, so it is modelled as a script of answers consumed one per prompt. An exhausted script reads as an empty line, and an empty line is a decline.
- Remote calls: `context.Background()`, real HTTP, and pagination of `ListDNSRecords`. A listing is the exact-name filter of an in-memory zone. Failures are given as fixed sets of failing names and failing record ids.
- Update failures: a failed update is modelled as leaving the zone unchanged. The provider's behaviour on a failed write is not visible in the source.
- Update name: the update request carries the short name. The provider resolves it relative to the zone, which gives the fully-qualified name that was looked up, so the modelled update keeps the record's name.
- Progress output: the wording of the `fmt.Printf`/`fmt.Println` lines is not modelled. Outcomes are constructors instead.
- Process exit: a fatal outcome ends the fold. Process termination itself is not modelled.
- Failover.RerunIssuesNoWrite: this is stated only for runs that are clean (no Fatal, Declined or TestModeSkipped outcome), whose work list has distinct names, and whose zone has unique record ids. The rerun sees the same remote failures as the first run. A declined or test-mode record still differs on the next run and would be prompted for again.

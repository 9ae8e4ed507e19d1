/** The per-record reconciler: for one resolved record it skips an empty
    value, looks the record up by its fully-qualified name, stops when the
    zone already holds the value, stops in test mode, asks the operator to
    confirm, and only on the exact answer "yes" issues one update.

    The remote zone, the operator's terminal and process termination are
    replaced by values: the zone is a `Store`, the operator's answers are a
    script consumed one per prompt, remote failures are fixed fault sets,
    and a fatal log line is a `Fatal` outcome.
 */
module Reconciler {
  import opened Zone
  import opened Catalog

  /** Run-scoped settings of the DNS command. */
  datatype Config = Config(domainName: string, testMode: bool)

  /** Which remote calls fail: listings by fully-qualified name, updates by
      record identifier. */
  datatype Faults = Faults(failingLookups: set<string>, failingUpdates: set<string>)

  /** What the reconciler reads and changes: the zone and the answers the
      operator has yet to type. */
  datatype World = World(store: Store, answers: seq<string>)

  /** A call to a collaborator, in the order it was made. */
  datatype Call =
    | ListRecords(fqdn: string)
    | Prompt(message: string, answer: string)
    | Update(request: UpdateRequest)

  datatype FatalError =
    | ListFailed(name: string)
    | NotExactlyOne(name: string)
    | UpdateFailed(name: string)

  /** How one record's reconciliation ended. */
  datatype Outcome =
    | Skipped          // no value provided
    | AlreadySet       // the zone already holds the value
    | TestModeSkipped  // would update, but test mode skips the API call
    | Declined         // the operator did not type the acceptance phrase
    | Updated
    | Fatal(error: FatalError)

  datatype Step = Step(outcome: Outcome, calls: seq<Call>, world: World)

  /** The answer of a name-filtered listing. */
  datatype Listing = ListError | Listed(records: Store)

  const ConfirmMessage: string := "Type \"yes\" to set this DNS record"
  const Acceptance: string := "yes"

  function ListDnsRecords(faults: Faults, store: Store, fqdn: string): Listing
  {
    if fqdn in faults.failingLookups then ListError else Listed(Matching(store, fqdn))
  }

  /** The operator's next line; a script that has run out reads as an empty line. */
  function NextAnswer(answers: seq<string>): (string, seq<string>)
  {
    if |answers| == 0 then ("", []) else (answers[0], answers[1..])
  }

  /** The fully-qualified names listed, in order. */
  function Lookups(calls: seq<Call>): seq<string>
    decreases |calls|
  {
    if |calls| == 0 then []
    else (if calls[0].ListRecords? then [calls[0].fqdn] else []) + Lookups(calls[1..])
  }

  /** The answers the operator gave, in order. */
  function Prompts(calls: seq<Call>): seq<string>
    decreases |calls|
  {
    if |calls| == 0 then []
    else (if calls[0].Prompt? then [calls[0].answer] else []) + Prompts(calls[1..])
  }

  /** The update requests issued, in order. */
  function Writes(calls: seq<Call>): seq<UpdateRequest>
    decreases |calls|
  {
    if |calls| == 0 then []
    else (if calls[0].Update? then [calls[0].request] else []) + Writes(calls[1..])
  }

  /** The per-kind views of a call trace distribute over concatenation. */
  lemma {:induction false} CallViewsAppend(a: seq<Call>, b: seq<Call>)
    ensures Lookups(a + b) == Lookups(a) + Lookups(b)
    ensures Prompts(a + b) == Prompts(a) + Prompts(b)
    ensures Writes(a + b) == Writes(a) + Writes(b)
    decreases |a|
  {
    if |a| > 0 {
      assert (a + b)[0] == a[0];
      assert (a + b)[1..] == a[1..] + b;
      CallViewsAppend(a[1..], b);
    } else {
      assert a + b == b;
    }
  }

  /** Two guarded traces stay guarded when joined, unless the second one
      opens with an update. */
  lemma GuardedAppend(a: seq<Call>, b: seq<Call>)
    requires GuardedWrites(a) && GuardedWrites(b)
    requires |b| > 0 ==> !b[0].Update?
    ensures GuardedWrites(a + b)
  {
    forall i | 0 <= i < |a + b| && (a + b)[i].Update?
      ensures 0 < i && (a + b)[i - 1] == Prompt(ConfirmMessage, Acceptance)
    {
      if i >= |a| {
        assert (a + b)[i] == b[i - |a|];
        assert (a + b)[i - 1] == b[i - |a| - 1];
      }
    }
  }

  /** Every update in the trace comes straight after a prompt the operator
      answered with the acceptance phrase. */
  ghost predicate GuardedWrites(calls: seq<Call>)
  {
    forall i :: 0 <= i < |calls| && calls[i].Update? ==>
      0 < i && calls[i - 1] == Prompt(ConfirmMessage, Acceptance)
  }

  /** The lookup of a record with a value finds exactly one zone record. */
  predicate Found(cfg: Config, faults: Faults, store: Store, rec: ResolvedRecord)
  {
    var fqdn := Fqdn(rec.name, cfg.domainName);
    rec.value != "" && fqdn !in faults.failingLookups && |Matching(store, fqdn)| == 1
  }

  /** The zone record the lookup found. */
  function Looked(cfg: Config, faults: Faults, store: Store, rec: ResolvedRecord): ZoneRecord
    requires Found(cfg, faults, store, rec)
  {
    Matching(store, Fqdn(rec.name, cfg.domainName))[0]
  }

  /** The record was found holding a different value and test mode is off:
      the only situation in which the operator is asked. */
  predicate Asks(cfg: Config, faults: Faults, store: Store, rec: ResolvedRecord)
  {
    Found(cfg, faults, store, rec) && Looked(cfg, faults, store, rec).content != rec.value && !cfg.testMode
  }

  /** The update the reconciler issues for a found record. */
  function RequestFor(cfg: Config, faults: Faults, store: Store, rec: ResolvedRecord): UpdateRequest
    requires Found(cfg, faults, store, rec)
  {
    UpdateRequest(Looked(cfg, faults, store, rec).id, Cname, rec.name, rec.value)
  }

  /** One pass of the decision chain for one resolved record. */
  function Reconcile(cfg: Config, faults: Faults, w: World, rec: ResolvedRecord): (s: Step)
    // An empty value is skipped without any call.
    ensures rec.value == "" <==> s.outcome == Skipped
    ensures rec.value == "" ==> s.calls == [] && s.world == w
    // Every other record starts with its listing.
    ensures |s.calls| > 0 ==> s.calls[0].ListRecords?
    // Writes only after the acceptance phrase; none at all in test mode.
    ensures GuardedWrites(s.calls)
    ensures cfg.testMode ==> Prompts(s.calls) == [] && Writes(s.calls) == [] && s.world == w
    // Only a successful update changes the zone.
    ensures s.outcome != Updated ==> s.world.store == w.store
    ensures Writes(s.calls) == [] ==> s.world.store == w.store
    ensures UniqueIds(w.store) ==> UniqueIds(s.world.store)
  {
    var fqdn := Fqdn(rec.name, cfg.domainName);
    var listed := [ListRecords(fqdn)];
    if rec.value == "" then
      Step(Skipped, [], w)
    else
      match ListDnsRecords(faults, w.store, fqdn)
      case ListError =>
        Step(Fatal(ListFailed(rec.name)), listed, w)
      case Listed(records) =>
        if |records| != 1 then
          Step(Fatal(NotExactlyOne(rec.name)), listed, w)
        else if records[0].content == rec.value then
          Step(AlreadySet, listed, w)
        else if cfg.testMode then
          Step(TestModeSkipped, listed, w)
        else
          var (answer, rest) := NextAnswer(w.answers);
          var prompted := listed + [Prompt(ConfirmMessage, answer)];
          CallViewsAppend(listed, [Prompt(ConfirmMessage, answer)]);
          if answer != Acceptance then
            Step(Declined, prompted, w.(answers := rest))
          else
            var request := UpdateRequest(records[0].id, Cname, rec.name, rec.value);
            var calls := prompted + [Update(request)];
            CallViewsAppend(prompted, [Update(request)]);
            if request.id in faults.failingUpdates then
              Step(Fatal(UpdateFailed(rec.name)), calls, w.(answers := rest))
            else
              Step(Updated, calls, World(ApplyUpdate(w.store, request), rest))
  }

  /** The per-kind views of the three traces a record can leave behind:
      the listing alone, the listing and the prompt, or those and the update. */
  lemma TraceViews(fqdn: string, answer: string, request: UpdateRequest)
    ensures Lookups([ListRecords(fqdn)]) == [fqdn]
    ensures Prompts([ListRecords(fqdn)]) == [] && Writes([ListRecords(fqdn)]) == []
    ensures var prompted := [ListRecords(fqdn), Prompt(ConfirmMessage, answer)];
      Lookups(prompted) == [fqdn] && Prompts(prompted) == [answer] && Writes(prompted) == []
    ensures var written := [ListRecords(fqdn), Prompt(ConfirmMessage, answer), Update(request)];
      Lookups(written) == [fqdn] && Prompts(written) == [answer] && Writes(written) == [request]
  {
    var listed := [ListRecords(fqdn)];
    var prompted := listed + [Prompt(ConfirmMessage, answer)];
    CallViewsAppend(listed, [Prompt(ConfirmMessage, answer)]);
    CallViewsAppend(prompted, [Update(request)]);
    assert prompted == [ListRecords(fqdn), Prompt(ConfirmMessage, answer)];
    assert prompted + [Update(request)] == [ListRecords(fqdn), Prompt(ConfirmMessage, answer), Update(request)];
  }

  /** The lookup step: a record with a value is listed exactly once, under
      its name qualified by the domain; a failed listing, or one without
      exactly one record, is fatal and changes nothing; a record already
      holding the value is left alone; test mode stops before the prompt. */
  lemma ReconcileLookup(cfg: Config, faults: Faults, w: World, rec: ResolvedRecord)
    ensures var s := Reconcile(cfg, faults, w, rec);
      && (rec.value != "" ==> Lookups(s.calls) == [Fqdn(rec.name, cfg.domainName)])
      && (s.outcome == Fatal(ListFailed(rec.name)) <==>
            rec.value != "" && Fqdn(rec.name, cfg.domainName) in faults.failingLookups)
      && (s.outcome == Fatal(NotExactlyOne(rec.name)) <==>
            rec.value != "" && Fqdn(rec.name, cfg.domainName) !in faults.failingLookups
            && |Matching(w.store, Fqdn(rec.name, cfg.domainName))| != 1)
      && (s.outcome.Fatal? && !s.outcome.error.UpdateFailed? ==>
            s.calls == [ListRecords(Fqdn(rec.name, cfg.domainName))] && s.world == w)
      && (s.outcome == AlreadySet <==>
            Found(cfg, faults, w.store, rec) && Looked(cfg, faults, w.store, rec).content == rec.value)
      && (s.outcome == TestModeSkipped <==>
            Found(cfg, faults, w.store, rec) && Looked(cfg, faults, w.store, rec).content != rec.value
            && cfg.testMode)
  {
    var fqdn := Fqdn(rec.name, cfg.domainName);
    if Found(cfg, faults, w.store, rec) {
      TraceViews(fqdn, NextAnswer(w.answers).0, RequestFor(cfg, faults, w.store, rec));
    } else {
      TraceViews(fqdn, NextAnswer(w.answers).0, UpdateRequest("", Cname, rec.name, rec.value));
    }
  }

  /** The confirmation step: the operator is asked once exactly when the
      record was found holding another value outside test mode, which uses
      up one scripted answer; any answer but the exact acceptance phrase is
      a quiet decline; the acceptance phrase issues one update aimed at the
      looked-up record, whose failure is fatal and whose success changes the
      zone by exactly that request. */
  lemma ReconcileConfirm(cfg: Config, faults: Faults, w: World, rec: ResolvedRecord)
    ensures var s := Reconcile(cfg, faults, w, rec);
      var answer := NextAnswer(w.answers).0;
      && Prompts(s.calls) == (if Asks(cfg, faults, w.store, rec) then [answer] else [])
      && s.world.answers == (if Asks(cfg, faults, w.store, rec) then NextAnswer(w.answers).1 else w.answers)
      && (s.outcome == Declined <==> Asks(cfg, faults, w.store, rec) && answer != Acceptance)
      && Writes(s.calls) == (if Asks(cfg, faults, w.store, rec) && answer == Acceptance
                             then [RequestFor(cfg, faults, w.store, rec)] else [])
      && (s.outcome == Fatal(UpdateFailed(rec.name)) <==>
            Writes(s.calls) != [] && Writes(s.calls)[0].id in faults.failingUpdates)
      && (s.outcome == Updated <==>
            Writes(s.calls) != [] && Writes(s.calls)[0].id !in faults.failingUpdates)
      && (s.outcome == Updated ==> s.world.store == ApplyUpdate(w.store, Writes(s.calls)[0]))
  {
    var fqdn := Fqdn(rec.name, cfg.domainName);
    if Found(cfg, faults, w.store, rec) {
      TraceViews(fqdn, NextAnswer(w.answers).0, RequestFor(cfg, faults, w.store, rec));
    } else {
      TraceViews(fqdn, NextAnswer(w.answers).0, UpdateRequest("", Cname, rec.name, rec.value));
    }
  }
}

/** A failover run: the catalog is resolved into a work list and each record
    is reconciled in turn, each one finished before the next begins. The
    first fatal outcome ends the run; the records after it are not touched.
 */
module Failover {
  import opened Zone
  import opened Catalog
  import opened Reconciler

  /** What a run produced: one outcome per record it reached, every call it
      made, and the world it left behind. */
  datatype RunResult = RunResult(outcomes: seq<Outcome>, calls: seq<Call>, world: World)

  ghost predicate NoFatal(outcomes: seq<Outcome>)
  {
    forall i :: 0 <= i < |outcomes| ==> !outcomes[i].Fatal?
  }

  /** Reconciles the records in order, stopping after the first fatal one. */
  function Run(cfg: Config, faults: Faults, w: World, recs: seq<ResolvedRecord>): (r: RunResult)
    // One outcome per record reached.
    ensures |r.outcomes| <= |recs|
    ensures |recs| > 0 ==> |r.outcomes| > 0
    // Writes stay guarded by an accepted prompt across the whole run.
    ensures |r.calls| > 0 ==> r.calls[0].ListRecords?
    ensures GuardedWrites(r.calls)
    ensures Writes(r.calls) == [] ==> r.world.store == w.store
    ensures UniqueIds(w.store) ==> UniqueIds(r.world.store)
    decreases |recs|
  {
    if |recs| == 0 then
      RunResult([], [], w)
    else
      var s := Reconcile(cfg, faults, w, recs[0]);
      if s.outcome.Fatal? then
        RunResult([s.outcome], s.calls, s.world)
      else
        var rest := Run(cfg, faults, s.world, recs[1..]);
        CallViewsAppend(s.calls, rest.calls);
        GuardedAppend(s.calls, rest.calls);
        RunResult([s.outcome] + rest.outcomes, s.calls + rest.calls, rest.world)
  }

  /** Only the last outcome of a run may be fatal, and a run without a fatal
      outcome reaches every record. */
  lemma {:induction false} RunStopsOnlyAtFatal(cfg: Config, faults: Faults, w: World, recs: seq<ResolvedRecord>)
    ensures forall i :: 0 <= i < |Run(cfg, faults, w, recs).outcomes| - 1 ==> !Run(cfg, faults, w, recs).outcomes[i].Fatal?
    ensures NoFatal(Run(cfg, faults, w, recs).outcomes) ==> |Run(cfg, faults, w, recs).outcomes| == |recs|
    decreases |recs|
  {
    if |recs| > 0 {
      var s := Reconcile(cfg, faults, w, recs[0]);
      var r := Run(cfg, faults, w, recs);
      if s.outcome.Fatal? {
        assert r.outcomes == [s.outcome];
        assert r.outcomes[0].Fatal?;
      } else {
        var rest := Run(cfg, faults, s.world, recs[1..]);
        RunStopsOnlyAtFatal(cfg, faults, s.world, recs[1..]);
        assert r.outcomes == [s.outcome] + rest.outcomes;
        forall i | 0 < i < |r.outcomes|
          ensures r.outcomes[i] == rest.outcomes[i - 1]
        {
        }
        if NoFatal(r.outcomes) {
          assert NoFatal(rest.outcomes) by {
            forall i | 0 <= i < |rest.outcomes|
              ensures !rest.outcomes[i].Fatal?
            {
              assert rest.outcomes[i] == r.outcomes[i + 1];
            }
          }
        }
      }
    }
  }

  /** A run in test mode never prompts, never writes and changes nothing. */
  lemma {:induction false} TestModeRunIsReadOnly(cfg: Config, faults: Faults, w: World, recs: seq<ResolvedRecord>)
    ensures cfg.testMode ==> Prompts(Run(cfg, faults, w, recs).calls) == []
    ensures cfg.testMode ==> Writes(Run(cfg, faults, w, recs).calls) == []
    ensures cfg.testMode ==> Run(cfg, faults, w, recs).world == w
    decreases |recs|
  {
    if cfg.testMode && |recs| > 0 {
      var s := Reconcile(cfg, faults, w, recs[0]);
      if !s.outcome.Fatal? {
        TestModeRunIsReadOnly(cfg, faults, s.world, recs[1..]);
        CallViewsAppend(s.calls, Run(cfg, faults, s.world, recs[1..]).calls);
      }
    }
  }

  /** A record reached by the run is skipped exactly when its value is
      empty. */
  lemma {:induction false} RunSkipsEmptyValues(cfg: Config, faults: Faults, w: World, recs: seq<ResolvedRecord>)
    ensures forall i :: 0 <= i < |Run(cfg, faults, w, recs).outcomes| ==>
              (Run(cfg, faults, w, recs).outcomes[i] == Skipped <==> recs[i].value == "")
    decreases |recs|
  {
    if |recs| > 0 {
      var s := Reconcile(cfg, faults, w, recs[0]);
      if !s.outcome.Fatal? {
        var rest := Run(cfg, faults, s.world, recs[1..]);
        RunSkipsEmptyValues(cfg, faults, s.world, recs[1..]);
        var r := Run(cfg, faults, w, recs);
        assert r.outcomes == [s.outcome] + rest.outcomes;
        forall i | 0 < i < |r.outcomes|
          ensures r.outcomes[i] == rest.outcomes[i - 1] && recs[i] == recs[1..][i - 1]
        {
        }
      }
    }
  }

  /** A work list without any value is run through to its end without a
      single call, and the world is left as it was. */
  lemma {:induction false} ValuelessRunIsSilent(cfg: Config, faults: Faults, w: World, recs: seq<ResolvedRecord>)
    requires forall i :: 0 <= i < |recs| ==> recs[i].value == ""
    ensures |Run(cfg, faults, w, recs).outcomes| == |recs|
    ensures Run(cfg, faults, w, recs).calls == []
    ensures Run(cfg, faults, w, recs).world == w
    decreases |recs|
  {
    if |recs| > 0 {
      var s := Reconcile(cfg, faults, w, recs[0]);
      assert s.outcome == Skipped && s.calls == [] && s.world == w;
      ValuelessRunIsSilent(cfg, faults, w, recs[1..]);
    }
  }

  /** Once a run has ended on a fatal outcome, records appended after the
      ones it reached change nothing: they are never processed. */
  lemma {:induction false} FatalStopsRun(cfg: Config, faults: Faults, w: World,
                                         recs: seq<ResolvedRecord>, later: seq<ResolvedRecord>)
    ensures !NoFatal(Run(cfg, faults, w, recs).outcomes) ==>
              Run(cfg, faults, w, recs + later) == Run(cfg, faults, w, recs)
    decreases |recs|
  {
    var r := Run(cfg, faults, w, recs);
    if |recs| > 0 && !NoFatal(r.outcomes) {
      var all := recs + later;
      assert all[0] == recs[0];
      assert all[1..] == recs[1..] + later;
      var s := Reconcile(cfg, faults, w, recs[0]);
      if s.outcome.Fatal? {
        assert Run(cfg, faults, w, all) == RunResult([s.outcome], s.calls, s.world);
      } else {
        var rest := Run(cfg, faults, s.world, recs[1..]);
        assert r == RunResult([s.outcome] + rest.outcomes, s.calls + rest.calls, rest.world);
        var k :| 0 <= k < |r.outcomes| && r.outcomes[k].Fatal?;
        assert k > 0 && rest.outcomes[k - 1] == r.outcomes[k];
        FatalStopsRun(cfg, faults, s.world, recs[1..], later);
        assert Run(cfg, faults, w, all) == RunResult([s.outcome] + rest.outcomes, s.calls + rest.calls, rest.world);
      }
    }
  }

  /** The zone holds the record's value already (or none was asked for), so
      reconciling the record again changes nothing. */
  ghost predicate Settled(cfg: Config, faults: Faults, store: Store, rec: ResolvedRecord)
  {
    rec.value == "" || (Found(cfg, faults, store, rec) && Looked(cfg, faults, store, rec).content == rec.value)
  }

  ghost predicate Clean(o: Outcome)
  {
    o.Skipped? || o.AlreadySet? || o.Updated?
  }

  ghost predicate DistinctNames(recs: seq<ResolvedRecord>)
  {
    forall i, j :: 0 <= i < j < |recs| ==> recs[i].name != recs[j].name
  }

  /** A record that was skipped, found already set or updated is settled
      in the zone the reconciler leaves behind. */
  lemma ReconcileSettles(cfg: Config, faults: Faults, w: World, rec: ResolvedRecord)
    requires Clean(Reconcile(cfg, faults, w, rec).outcome)
    ensures Settled(cfg, faults, Reconcile(cfg, faults, w, rec).world.store, rec)
  {
    var s := Reconcile(cfg, faults, w, rec);
    if s.outcome.Updated? {
      var fqdn := Fqdn(rec.name, cfg.domainName);
      var req := RequestFor(cfg, faults, w.store, rec);
      MatchingAfterUpdate(w.store, req, fqdn);
      var before := Matching(w.store, fqdn);
      var after := ApplyUpdate(before, req);
      assert Matching(s.world.store, fqdn) == after;
      assert after[0].content == rec.value;
    }
  }

  /** Reconciling one record keeps every differently named record settled. */
  lemma ReconcileKeepsSettled(cfg: Config, faults: Faults, w: World, rec: ResolvedRecord, other: ResolvedRecord)
    requires UniqueIds(w.store)
    requires Settled(cfg, faults, w.store, other)
    requires rec.name != other.name
    ensures Settled(cfg, faults, Reconcile(cfg, faults, w, rec).world.store, other)
  {
    var s := Reconcile(cfg, faults, w, rec);
    if s.outcome.Updated? && other.value != "" {
      var fqdn := Fqdn(rec.name, cfg.domainName);
      var otherFqdn := Fqdn(other.name, cfg.domainName);
      var req := RequestFor(cfg, faults, w.store, rec);
      var target := Looked(cfg, faults, w.store, rec);
      MatchingMembers(w.store, fqdn, target);
      if fqdn == otherFqdn {
        FqdnInjective(rec.name, other.name, cfg.domainName);
      }
      UpdateFramesOtherNames(w.store, req, target, otherFqdn);
    }
  }

  /** A run over records named differently from `other` keeps it settled. */
  lemma {:induction false} RunKeepsSettled(cfg: Config, faults: Faults, w: World,
                                           recs: seq<ResolvedRecord>, other: ResolvedRecord)
    requires UniqueIds(w.store)
    requires Settled(cfg, faults, w.store, other)
    requires forall i :: 0 <= i < |recs| ==> recs[i].name != other.name
    ensures Settled(cfg, faults, Run(cfg, faults, w, recs).world.store, other)
    decreases |recs|
  {
    if |recs| > 0 {
      var s := Reconcile(cfg, faults, w, recs[0]);
      ReconcileKeepsSettled(cfg, faults, w, recs[0], other);
      if !s.outcome.Fatal? {
        RunKeepsSettled(cfg, faults, s.world, recs[1..], other);
      }
    }
  }

  /** A run in which every record was skipped, already set or updated leaves
      every record of its work list settled. */
  lemma {:induction false} CleanRunSettles(cfg: Config, faults: Faults, w: World, recs: seq<ResolvedRecord>)
    requires UniqueIds(w.store)
    requires DistinctNames(recs)
    requires forall i :: 0 <= i < |Run(cfg, faults, w, recs).outcomes| ==> Clean(Run(cfg, faults, w, recs).outcomes[i])
    ensures forall i :: 0 <= i < |recs| ==> Settled(cfg, faults, Run(cfg, faults, w, recs).world.store, recs[i])
    decreases |recs|
  {
    if |recs| > 0 {
      var r := Run(cfg, faults, w, recs);
      var s := Reconcile(cfg, faults, w, recs[0]);
      assert Clean(r.outcomes[0]);
      var rest := Run(cfg, faults, s.world, recs[1..]);
      assert r.outcomes == [s.outcome] + rest.outcomes;
      forall i | 0 <= i < |rest.outcomes|
        ensures Clean(rest.outcomes[i])
      {
        assert rest.outcomes[i] == r.outcomes[i + 1];
      }
      CleanRunSettles(cfg, faults, s.world, recs[1..]);
      ReconcileSettles(cfg, faults, w, recs[0]);
      RunKeepsSettled(cfg, faults, s.world, recs[1..], recs[0]);
    }
  }

  /** Over a work list that is already settled a run is quiet: no prompt, no
      write, nothing changed, every record skipped or found already set. */
  lemma {:induction false} SettledRunIsQuiet(cfg: Config, faults: Faults, w: World, recs: seq<ResolvedRecord>)
    requires forall i :: 0 <= i < |recs| ==> Settled(cfg, faults, w.store, recs[i])
    ensures Prompts(Run(cfg, faults, w, recs).calls) == []
    ensures Writes(Run(cfg, faults, w, recs).calls) == []
    ensures Run(cfg, faults, w, recs).world == w
    ensures |Run(cfg, faults, w, recs).outcomes| == |recs|
    ensures forall i :: 0 <= i < |recs| ==>
              Run(cfg, faults, w, recs).outcomes[i].Skipped? || Run(cfg, faults, w, recs).outcomes[i].AlreadySet?
    decreases |recs|
  {
    if |recs| > 0 {
      var s := Reconcile(cfg, faults, w, recs[0]);
      assert s.world == w;
      SettledRunIsQuiet(cfg, faults, w, recs[1..]);
      var rest := Run(cfg, faults, w, recs[1..]);
      CallViewsAppend(s.calls, rest.calls);
    }
  }

  /** Running the same work list again after a run that skipped, found
      already set or updated every record issues no write and leaves the zone
      as the first run left it, whatever the operator types. */
  lemma RerunIssuesNoWrite(cfg: Config, faults: Faults, w: World, recs: seq<ResolvedRecord>, answers: seq<string>)
    requires UniqueIds(w.store)
    requires DistinctNames(recs)
    requires forall i :: 0 <= i < |Run(cfg, faults, w, recs).outcomes| ==> Clean(Run(cfg, faults, w, recs).outcomes[i])
    ensures var first := Run(cfg, faults, w, recs);
            var again := Run(cfg, faults, first.world.(answers := answers), recs);
            Writes(again.calls) == [] && Prompts(again.calls) == [] && again.world.store == first.world.store
  {
    var first := Run(cfg, faults, w, recs);
    CleanRunSettles(cfg, faults, w, recs);
    SettledRunIsQuiet(cfg, faults, first.world.(answers := answers), recs);
  }

  /** The DNS command's failover: resolve the catalog, then reconcile it. */
  function SetDnsToSecondary(cfg: Config, faults: Faults, w: World, opts: Options, idpKey: string): (r: RunResult)
    ensures |r.outcomes| <= 8
    ensures NoFatal(r.outcomes) ==> |r.outcomes| == 8
    ensures forall i :: 0 <= i < |r.outcomes| ==>
              (r.outcomes[i] == Skipped <==> ResolveCatalog(opts, idpKey)[i].value == "")
    ensures cfg.testMode ==> Writes(r.calls) == [] && r.world == w
    ensures GuardedWrites(r.calls)
  {
    var recs := ResolveCatalog(opts, idpKey);
    var r := Run(cfg, faults, w, recs);
    RunStopsOnlyAtFatal(cfg, faults, w, recs);
    RunSkipsEmptyValues(cfg, faults, w, recs);
    TestModeRunIsReadOnly(cfg, faults, w, recs);
    r
  }

  /** Without any value option the failover skips all eight records and
      makes no call at all. */
  lemma NoValuesSkipsEverything(cfg: Config, faults: Faults, w: World, opts: Options, idpKey: string)
    requires NoValues(opts)
    ensures var r := SetDnsToSecondary(cfg, faults, w, opts, idpKey);
            && |r.outcomes| == 8
            && (forall i :: 0 <= i < 8 ==> r.outcomes[i] == Skipped)
            && r.calls == [] && r.world == w
  {
    var recs := ResolveCatalog(opts, idpKey);
    UnsetValuesResolveEmpty(opts, idpKey);
    RunSkipsEmptyValues(cfg, faults, w, recs);
    ValuelessRunIsSilent(cfg, faults, w, recs);
    assert SetDnsToSecondary(cfg, faults, w, opts, idpKey) == Run(cfg, faults, w, recs);
  }

  /** When the work list names every record differently, repeating a
      failover that skipped, found already set or updated every record
      issues no write. */
  lemma FailoverRerunIsQuiet(cfg: Config, faults: Faults, w: World, opts: Options, idpKey: string, answers: seq<string>)
    requires UniqueIds(w.store)
    requires DistinctNames(ResolveCatalog(opts, idpKey))
    requires forall i :: 0 <= i < |SetDnsToSecondary(cfg, faults, w, opts, idpKey).outcomes| ==>
               Clean(SetDnsToSecondary(cfg, faults, w, opts, idpKey).outcomes[i])
    ensures var first := SetDnsToSecondary(cfg, faults, w, opts, idpKey);
            var again := SetDnsToSecondary(cfg, faults, first.world.(answers := answers), opts, idpKey);
            Writes(again.calls) == [] && again.world.store == first.world.store
  {
    var recs := ResolveCatalog(opts, idpKey);
    assert SetDnsToSecondary(cfg, faults, w, opts, idpKey) == Run(cfg, faults, w, recs);
    RerunIssuesNoWrite(cfg, faults, w, recs, answers);
  }

  /** With default record names, repeating a clean failover issues no write. */
  lemma DefaultNamesRerunIsQuiet(cfg: Config, faults: Faults, w: World, opts: Options, idpKey: string, answers: seq<string>)
    requires UniqueIds(w.store)
    requires NoNameOverrides(opts)
    requires forall i :: 0 <= i < |SetDnsToSecondary(cfg, faults, w, opts, idpKey).outcomes| ==>
               Clean(SetDnsToSecondary(cfg, faults, w, opts, idpKey).outcomes[i])
    ensures var first := SetDnsToSecondary(cfg, faults, w, opts, idpKey);
            var again := SetDnsToSecondary(cfg, faults, first.world.(answers := answers), opts, idpKey);
            Writes(again.calls) == [] && again.world.store == first.world.store
  {
    ResolvedNamesDistinct(opts, idpKey);
    assert DistinctNames(ResolveCatalog(opts, idpKey));
    FailoverRerunIsQuiet(cfg, faults, w, opts, idpKey, answers);
  }

  /** A failover with no option set meets every premise of the rerun
      property: its names are the distinct defaults and every record is
      skipped. */
  lemma UnconfiguredFailoverIsClean(cfg: Config, faults: Faults, w: World, idpKey: string)
    ensures DistinctNames(ResolveCatalog(map[], idpKey))
    ensures |SetDnsToSecondary(cfg, faults, w, map[], idpKey).outcomes| == 8
    ensures forall i :: 0 <= i < |SetDnsToSecondary(cfg, faults, w, map[], idpKey).outcomes| ==>
              SetDnsToSecondary(cfg, faults, w, map[], idpKey).outcomes[i] == Skipped
    ensures forall i :: 0 <= i < |SetDnsToSecondary(cfg, faults, w, map[], idpKey).outcomes| ==>
              Clean(SetDnsToSecondary(cfg, faults, w, map[], idpKey).outcomes[i])
  {
    ResolvedNamesDistinct(map[], idpKey);
    NoValuesSkipsEverything(cfg, faults, w, map[], idpKey);
  }
}

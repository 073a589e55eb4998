// alred/device_groups.py: which devices one resource selects, with which
// override, and the evidence kept for the selection.
module ResourceTargets {
  import opened Ordering
  import opened DeviceGroups

  datatype Evidence = Evidence(selectedBy: seq<string>, groupChains: seq<Chain>, deviceOverride: bool)

  datatype Targets<O> = Targets(overrides: map<string, O>, evidence: map<string, Evidence>)

  datatype TargetError =
    | UnknownGroup(name: string)
    | ConflictingOverrides(host: string, previous: seq<string>, group: string)
    | NoTargets

  datatype TargetResult<O> = Resolved(targets: Targets<O>) | Rejected(error: TargetError)

  /** The part of `ExactResolution` that target resolution relies on. */
  ghost predicate Consistent(res: Resolution) {
    && res.groups.Keys == res.chains.Keys
    && forall g :: g in res.groups ==> forall h :: h in res.groups[g] <==> h in res.chains[g]
  }

  lemma ExactIsConsistent(defs: Definitions, res: Resolution)
    requires ExactResolution(defs, res)
    ensures Consistent(res)
  {
    forall g | g in res.groups ensures forall h :: h in res.groups[g] <==> h in res.chains[g] {
      assert IsSorted(StrLe, res.chains[g].Keys, res.groups[g]);
    }
  }

  // ---------------------------------------------------------------- meaning

  /** A dict in iteration order: keys are distinct. */
  ghost predicate IsDict<O>(pairs: seq<(string, O)>) {
    forall i, j :: 0 <= i < j < |pairs| ==> pairs[i].0 != pairs[j].0
  }

  ghost predicate Selects<O>(pairs: seq<(string, O)>, res: Resolution, g: string, o: O, h: string) {
    (g, o) in pairs && g in res.groups && h in res.groups[g]
  }

  ghost predicate HasUnknown<O(!new)>(pairs: seq<(string, O)>, res: Resolution) {
    exists g, o :: (g, o) in pairs && g !in res.groups
  }

  /** Two selecting groups disagree about a host without an explicit override. */
  ghost predicate InConflict<O(!new)>(pairs: seq<(string, O)>, explicit: map<string, O>, res: Resolution, h: string) {
    h !in explicit &&
    exists g1, o1, g2, o2 :: Selects(pairs, res, g1, o1, h) && Selects(pairs, res, g2, o2, h) && o1 != o2
  }

  ghost predicate IsTarget<O(!new)>(pairs: seq<(string, O)>, explicit: map<string, O>, res: Resolution, h: string) {
    h in explicit || exists g, o :: Selects(pairs, res, g, o, h)
  }

  ghost predicate ExactEvidence<O(!new)>(pairs: seq<(string, O)>, explicit: map<string, O>, res: Resolution,
                                         h: string, e: Evidence)
    requires Consistent(res)
  {
    && Ascending(StrLe, e.selectedBy) && Ascending(ChainLe, e.groupChains)
    && (forall g :: g in e.selectedBy <==> exists o :: Selects(pairs, res, g, o, h))
    && (forall c :: c in e.groupChains <==> exists g, o :: Selects(pairs, res, g, o, h) && c in res.chains[g][h])
    && e.deviceOverride == (h in explicit)
  }

  /** The promised result; it mentions the pairs only through membership. */
  ghost predicate ExactTargets<O(!new)>(pairs: seq<(string, O)>, explicit: map<string, O>, res: Resolution, t: Targets<O>)
    requires Consistent(res)
  {
    && t.overrides.Keys == t.evidence.Keys
    && (forall h :: h in t.overrides <==> IsTarget(pairs, explicit, res, h))
    && (forall h :: h in explicit ==> t.overrides[h] == explicit[h])
    && (forall h, g, o :: h !in explicit && Selects(pairs, res, g, o, h) ==> t.overrides[h] == o)
    && (forall h :: h in t.evidence ==> ExactEvidence(pairs, explicit, res, h, t.evidence[h]))
  }

  ghost predicate MustReject<O(!new)>(pairs: seq<(string, O)>, explicit: map<string, O>, res: Resolution) {
    || HasUnknown(pairs, res)
    || (exists h :: InConflict(pairs, explicit, res, h))
    || (forall h :: !IsTarget(pairs, explicit, res, h))
  }

  /** Each error names one of the three defects, truly. */
  ghost predicate Reason<O(!new)>(pairs: seq<(string, O)>, explicit: map<string, O>, res: Resolution, e: TargetError) {
    match e
    case UnknownGroup(g) => g !in res.groups && exists o :: (g, o) in pairs
    case ConflictingOverrides(h, _, _) => InConflict(pairs, explicit, res, h)
    case NoTargets => forall h :: !IsTarget(pairs, explicit, res, h)
  }

  lemma ReasonRejects<O(!new)>(pairs: seq<(string, O)>, explicit: map<string, O>, res: Resolution, e: TargetError)
    requires Reason(pairs, explicit, res, e)
    ensures MustReject(pairs, explicit, res)
  {}

  // -------------------------------------------------------------- the two loops

  const NoEvidence := Evidence([], [], false)

  /** `evidence` after the pairs in `done` (group, override, host) were recorded. */
  ghost predicate Recorded<O(!new)>(done: set<(string, O, string)>, explicit: map<string, O>, res: Resolution, t: Targets<O>) {
    && t.overrides.Keys == t.evidence.Keys
    && OverridesRecorded(done, explicit, t.overrides)
    && (forall g, o, h {:trigger (g, o, h) in done} :: (g, o, h) in done ==> g in res.chains && h in res.chains[g])
    && EvidenceRecorded(done, res, t.evidence)
  }

  ghost predicate OverridesRecorded<O(!new)>(done: set<(string, O, string)>, explicit: map<string, O>, overrides: map<string, O>) {
    && (forall h :: h in overrides <==> exists g, o :: (g, o, h) in done)
    && (forall g, o, h {:trigger (g, o, h) in done} :: (g, o, h) in done && h !in explicit ==> overrides[h] == o)
  }

  ghost predicate EvidenceRecorded<O(!new)>(done: set<(string, O, string)>, res: Resolution, evidence: map<string, Evidence>) {
    forall h {:trigger RecordedFor(done, res, h, evidence[h])} :: h in evidence ==> RecordedFor(done, res, h, evidence[h])
  }

  ghost predicate RecordedFor<O(!new)>(done: set<(string, O, string)>, res: Resolution, h: string, e: Evidence) {
    && !e.deviceOverride
    && Distinct(e.selectedBy)
    && (forall g :: g in e.selectedBy <==> exists o :: (g, o, h) in done)
    && (forall c :: c in e.groupChains <==>
         exists g, o :: (g, o, h) in done && g in res.chains && h in res.chains[g] && c in res.chains[g][h])
  }

  function Record(e: Evidence, group: string, chains: seq<Chain>): Evidence {
    e.(selectedBy := if group in e.selectedBy then e.selectedBy else e.selectedBy + [group],
       groupChains := e.groupChains + chains)
  }

  lemma RecordStep<O(!new)>(done: set<(string, O, string)>, explicit: map<string, O>, res: Resolution, t: Targets<O>,
                            g: string, o: O, h: string)
    requires Consistent(res) && g in res.groups && h in res.groups[g]
    requires Recorded(done, explicit, res, t)
    requires h in t.overrides && h !in explicit ==> t.overrides[h] == o
    ensures var e := if h in t.evidence then t.evidence[h] else NoEvidence;
      Recorded(done + {(g, o, h)}, explicit, res,
               Targets(t.overrides[h := o], t.evidence[h := Record(e, g, res.chains[g][h])]))
  {
    var e := if h in t.evidence then t.evidence[h] else NoEvidence;
    OverrideStep(done, explicit, t.overrides, g, o, h, t.overrides[h := o]);
    assert RecordedFor(done, res, h, e) by {
      assert h in t.evidence ==> RecordedFor(done, res, h, t.evidence[h]);
    }
    EvidenceStep(done, res, t.evidence, g, o, h, e);
  }

  lemma EvidenceStep<O(!new)>(done: set<(string, O, string)>, res: Resolution, evidence: map<string, Evidence>,
                              g: string, o: O, h: string, e: Evidence)
    requires g in res.chains && h in res.chains[g]
    requires EvidenceRecorded(done, res, evidence) && RecordedFor(done, res, h, e)
    ensures EvidenceRecorded(done + {(g, o, h)}, res, evidence[h := Record(e, g, res.chains[g][h])])
  {
    var after, done' := evidence[h := Record(e, g, res.chains[g][h])], done + {(g, o, h)};
    RecordOne(done, res, h, e, g, o);
    forall x | x in after && x != h ensures RecordedFor(done', res, x, after[x]) {
      assert RecordedFor(done, res, x, evidence[x]);
      RecordOther(done, res, x, evidence[x], g, o, h);
    }
  }

  lemma RecordOther<O(!new)>(done: set<(string, O, string)>, res: Resolution, x: string, e: Evidence, g: string, o: O, h: string)
    requires RecordedFor(done, res, x, e) && x != h
    ensures RecordedFor(done + {(g, o, h)}, res, x, e)
  {
    assert forall a, b :: (a, b, x) in done + {(g, o, h)} <==> (a, b, x) in done;
  }

  lemma OverrideStep<O(!new)>(done: set<(string, O, string)>, explicit: map<string, O>, overrides: map<string, O>,
                              g: string, o: O, h: string, after: map<string, O>)
    requires OverridesRecorded(done, explicit, overrides) && after == overrides[h := o]
    requires h in overrides && h !in explicit ==> overrides[h] == o
    ensures OverridesRecorded(done + {(g, o, h)}, explicit, after)
  {
    var done' := done + {(g, o, h)};
    forall x | x in after ensures exists a, b :: (a, b, x) in done' {
      if x == h {
        assert (g, o, h) in done';
      } else {
        var a, b :| (a, b, x) in done;
        assert (a, b, x) in done';
      }
    }
  }

  lemma RecordOne<O(!new)>(done: set<(string, O, string)>, res: Resolution, h: string, e: Evidence, g: string, o: O)
    requires g in res.chains && h in res.chains[g]
    requires RecordedFor(done, res, h, e)
    ensures RecordedFor(done + {(g, o, h)}, res, h, Record(e, g, res.chains[g][h]))
  {
    var done', e' := done + {(g, o, h)}, Record(e, g, res.chains[g][h]);
    forall x ensures x in e'.selectedBy <==> exists b :: (x, b, h) in done' {
      if x == g { assert (g, o, h) in done'; }
      if x in e.selectedBy { var b :| (x, b, h) in done; assert (x, b, h) in done'; }
    }
    forall c ensures c in e'.groupChains <==>
      exists a, b :: (a, b, h) in done' && a in res.chains && h in res.chains[a] && c in res.chains[a][h]
    {
      if c in res.chains[g][h] { assert (g, o, h) in done'; }
      if c in e.groupChains {
        var a, b :| (a, b, h) in done && a in res.chains && h in res.chains[a] && c in res.chains[a][h];
        assert (a, b, h) in done';
      }
    }
  }

  ghost function HostPairs<O(!new)>(g: string, o: O, hosts: seq<string>): set<(string, O, string)> {
    set h | h in hosts :: (g, o, h)
  }

  lemma NextHost<O(!new)>(g: string, o: O, hosts: seq<string>, i: nat)
    requires i < |hosts|
    ensures HostPairs(g, o, hosts[..i + 1]) == HostPairs(g, o, hosts[..i]) + {(g, o, hosts[i])}
    ensures HostPairs(g, o, hosts[..i + 1]) <= HostPairs(g, o, hosts)
  {
    assert hosts[..i + 1] == hosts[..i] + [hosts[i]];
  }

  /** Everything the first `n` groups select. */
  ghost predicate SelectedUpTo<O(!new)>(pairs: seq<(string, O)>, res: Resolution, n: nat, done: set<(string, O, string)>)
    requires n <= |pairs|
  {
    forall g, o, h {:trigger (g, o, h) in done} :: (g, o, h) in done <==> Selects(pairs[..n], res, g, o, h)
  }

  /** The error reports a host without an explicit override that two groups in `done` disagree about. */
  ghost predicate Disagree<O(!new)>(done: set<(string, O, string)>, explicit: map<string, O>, e: TargetError) {
    && e.ConflictingOverrides? && e.host !in explicit
    && exists g1, o1, g2, o2 :: (g1, o1, e.host) in done && (g2, o2, e.host) in done && o1 != o2
  }

  lemma DisagreeGrows<O(!new)>(done: set<(string, O, string)>, after: set<(string, O, string)>, explicit: map<string, O>,
                               e: TargetError)
    requires Disagree(done, explicit, e) && done <= after
    ensures Disagree(after, explicit, e)
  {}

  /** The loop body for one host of one group. */
  method ApplyHost<O(==,!new)>(g: string, o: O, h: string, explicit: map<string, O>, res: Resolution, t: Targets<O>,
                               ghost done: set<(string, O, string)>)
    returns (r: TargetResult<O>)
    requires Consistent(res) && g in res.groups && h in res.groups[g] && Recorded(done, explicit, res, t)
    ensures r.Resolved? ==> Recorded(done + {(g, o, h)}, explicit, res, r.targets)
    ensures r.Rejected? ==> Disagree(done + {(g, o, h)}, explicit, r.error)
  {
    if h in t.overrides && t.overrides[h] != o && h !in explicit {
      ghost var g1, o1 :| (g1, o1, h) in done;
      assert (g1, o1, h) in done + {(g, o, h)} && (g, o, h) in done + {(g, o, h)};
      return Rejected(ConflictingOverrides(h, t.evidence[h].selectedBy, g));
    }
    RecordStep(done, explicit, res, t, g, o, h);
    var e := if h in t.evidence then t.evidence[h] else NoEvidence;
    r := Resolved(Targets(t.overrides[h := o], t.evidence[h := Record(e, g, res.chains[g][h])]));
  }

  method ApplyGroup<O(==,!new)>(g: string, o: O, explicit: map<string, O>, res: Resolution, start: Targets<O>,
                                ghost before: set<(string, O, string)>)
    returns (r: TargetResult<O>)
    requires Consistent(res) && g in res.groups && Recorded(before, explicit, res, start)
    ensures r.Resolved? ==> Recorded(before + HostPairs(g, o, res.groups[g]), explicit, res, r.targets)
    ensures r.Rejected? ==> Disagree(before + HostPairs(g, o, res.groups[g]), explicit, r.error)
  {
    var hosts := res.groups[g];
    r := Resolved(start);
    ghost var done := before;
    for i := 0 to |hosts|
      invariant done == before + HostPairs(g, o, hosts[..i])
      invariant r.Resolved? && Recorded(done, explicit, res, r.targets)
    {
      r := ApplyHost(g, o, hosts[i], explicit, res, r.targets, done);
      done := done + {(g, o, hosts[i])};
      NextHost(g, o, hosts, i);
      if r.Rejected? {
        DisagreeGrows(done, before + HostPairs(g, o, hosts), explicit, r.error);
        return;
      }
    }
    assert hosts[..|hosts|] == hosts;
  }

  /** What the loop over explicitly listed devices does to the targets. */
  ghost predicate DevicesApplied<O>(explicit: map<string, O>, start: Targets<O>, t: Targets<O>) {
    && t.overrides == start.overrides + explicit
    && t.evidence.Keys == t.overrides.Keys
    && forall h :: h in t.evidence ==>
         t.evidence[h] == (if h in start.evidence then start.evidence[h] else NoEvidence)
                          .(deviceOverride := h in explicit || (h in start.evidence && start.evidence[h].deviceOverride))
  }

  method ApplyDevices<O(==,!new)>(explicit: map<string, O>, start: Targets<O>) returns (t: Targets<O>)
    requires start.overrides.Keys == start.evidence.Keys
    ensures DevicesApplied(explicit, start, t)
  {
    t := start;
    var todo := explicit.Keys;
    while todo != {}
      invariant todo <= explicit.Keys && DevicesApplied(explicit - todo, start, t)
    {
      var h :| h in todo;
      var e := if h in t.evidence then t.evidence[h] else NoEvidence;
      t := Targets(t.overrides[h := explicit[h]], t.evidence[h := e.(deviceOverride := true)]);
      todo := todo - {h};
    }
    assert explicit - {} == explicit;
  }

  ghost predicate Distinct(names: seq<string>) {
    forall i, j :: 0 <= i < j < |names| ==> names[i] != names[j]
  }

  /** `list.sort` on a list without duplicates. */
  function SortedNames(names: seq<string>): (r: seq<string>)
    requires TotalOrder(StrLe) && Distinct(names)
    ensures Ascending(StrLe, r) && forall n :: n in r <==> n in names
  {
    Sorted(StrLe, set n | n in names)
  }

  ghost predicate SortedAs(e: Evidence, r: Evidence) {
    && Ascending(StrLe, r.selectedBy) && Ascending(ChainLe, r.groupChains) && r.deviceOverride == e.deviceOverride
    && (forall g :: g in r.selectedBy <==> g in e.selectedBy)
    && (forall c :: c in r.groupChains <==> c in e.groupChains)
  }

  function SortedEvidence(e: Evidence): (r: Evidence)
    requires TotalOrder(StrLe) && TotalOrder(ChainLe) && Distinct(e.selectedBy)
    ensures SortedAs(e, r)
  {
    Evidence(SortedNames(e.selectedBy), Sorted(ChainLe, Elements(e.groupChains)), e.deviceOverride)
  }

  lemma GroupDone<O(!new)>(pairs: seq<(string, O)>, res: Resolution, n: nat, before: set<(string, O, string)>)
    requires n < |pairs| && pairs[n].0 in res.groups && SelectedUpTo(pairs, res, n, before)
    ensures var (g, o) := pairs[n];
      SelectedUpTo(pairs, res, n + 1, before + HostPairs(g, o, res.groups[g]))
  {
    var (g, o) := pairs[n];
    var hosts := res.groups[g];
    assert pairs[..n + 1] == pairs[..n] + [pairs[n]];
    var after := before + HostPairs(g, o, hosts);
    forall a, b, h ensures (a, b, h) in after <==> Selects(pairs[..n + 1], res, a, b, h) {
      assert (a, b, h) in before <==> Selects(pairs[..n], res, a, b, h);
      assert (a, b) in pairs[..n + 1] <==> (a, b) in pairs[..n] || (a, b) == (g, o);
    }
  }

  lemma ConflictFound<O(!new)>(pairs: seq<(string, O)>, explicit: map<string, O>, res: Resolution, n: nat,
                               done: set<(string, O, string)>, e: TargetError)
    requires n <= |pairs| && SelectedUpTo(pairs, res, n, done) && Disagree(done, explicit, e)
    ensures Reason(pairs, explicit, res, e)
  {
    var h := e.host;
    var g1, o1, g2, o2 :| (g1, o1, h) in done && (g2, o2, h) in done && o1 != o2;
    assert Selects(pairs[..n], res, g1, o1, h) && Selects(pairs[..n], res, g2, o2, h);
    assert Selects(pairs, res, g1, o1, h) && Selects(pairs, res, g2, o2, h);
    assert InConflict(pairs, explicit, res, h);
  }

  lemma UnknownFound<O(!new)>(pairs: seq<(string, O)>, explicit: map<string, O>, res: Resolution, i: nat)
    requires i < |pairs| && pairs[i].0 !in res.groups
    ensures Reason(pairs, explicit, res, UnknownGroup(pairs[i].0))
  {
    assert (pairs[i].0, pairs[i].1) in pairs;
  }

  lemma Agreement<O(!new)>(pairs: seq<(string, O)>, explicit: map<string, O>, res: Resolution, t: Targets<O>,
                            done: set<(string, O, string)>, h: string)
    requires Recorded(done, explicit, res, t) && h !in explicit
    requires forall g, o :: Selects(pairs, res, g, o, h) ==> (g, o, h) in done
    ensures forall g, o :: Selects(pairs, res, g, o, h) ==> h in t.overrides && t.overrides[h] == o
  {
    forall g, o | Selects(pairs, res, g, o, h) ensures h in t.overrides && t.overrides[h] == o {
      assert (g, o, h) in done;
    }
  }

  lemma Accepted<O(!new)>(pairs: seq<(string, O)>, explicit: map<string, O>, res: Resolution, t: Targets<O>,
                          done: set<(string, O, string)>)
    requires Recorded(done, explicit, res, t) && SelectedUpTo(pairs, res, |pairs|, done)
    requires forall k :: 0 <= k < |pairs| ==> pairs[k].0 in res.groups
    ensures MustReject(pairs, explicit, res) <==> explicit == map[] && t.overrides == map[]
    ensures MustReject(pairs, explicit, res) ==> Reason(pairs, explicit, res, NoTargets)
  {
    assert pairs[..|pairs|] == pairs;
    forall h ensures !InConflict(pairs, explicit, res, h) {
      if h !in explicit {
        Agreement(pairs, explicit, res, t, done, h);
      }
    }
    forall h ensures IsTarget(pairs, explicit, res, h) <==> h in explicit || h in t.overrides {
      forall g, o ensures Selects(pairs, res, g, o, h) <==> (g, o, h) in done {}
    }
    if explicit != map[] {
      var h :| h in explicit;
      assert IsTarget(pairs, explicit, res, h);
    } else if t.overrides != map[] {
      var h :| h in t.overrides;
      assert IsTarget(pairs, explicit, res, h);
    }
  }

  /** The loops leave exactly the promised targets. */
  lemma Finished<O(!new)>(pairs: seq<(string, O)>, explicit: map<string, O>, res: Resolution,
                          picked: Targets<O>, done: set<(string, O, string)>, t: Targets<O>)
    requires Consistent(res) && TotalOrder(StrLe) && TotalOrder(ChainLe)
    requires Recorded(done, explicit, res, picked) && SelectedUpTo(pairs, res, |pairs|, done)
    requires t.overrides == picked.overrides + explicit && t.evidence.Keys == t.overrides.Keys
    requires forall h :: h in t.evidence ==> FinalEvidence(picked, explicit, h, t.evidence[h])
    ensures ExactTargets(pairs, explicit, res, t)
  {
    assert pairs[..|pairs|] == pairs;
    forall g, o, h ensures (g, o, h) in done <==> Selects(pairs, res, g, o, h) {}
    forall h | h in t.evidence ensures ExactEvidence(pairs, explicit, res, h, t.evidence[h]) {
      assert FinalEvidence(picked, explicit, h, t.evidence[h]);
      assert h in picked.evidence ==> RecordedFor(done, res, h, picked.evidence[h]);
      assert forall g, o :: (g, o, h) in done <==> Selects(pairs, res, g, o, h);
    }
  }

  ghost predicate FinalEvidence<O(!new)>(picked: Targets<O>, explicit: map<string, O>, h: string, e: Evidence) {
    var start := if h in picked.evidence then picked.evidence[h] else NoEvidence;
    && Ascending(StrLe, e.selectedBy) && Ascending(ChainLe, e.groupChains)
    && (forall g :: g in e.selectedBy <==> g in start.selectedBy)
    && (forall c :: c in e.groupChains <==> c in start.groupChains)
    && e.deviceOverride == (h in explicit)
  }

  ghost predicate AllDistinct<O>(t: Targets<O>) {
    forall h :: h in t.evidence ==> Distinct(t.evidence[h].selectedBy)
  }

  lemma DistinctNames<O(!new)>(explicit: map<string, O>, res: Resolution, picked: Targets<O>,
                               done: set<(string, O, string)>, t: Targets<O>)
    requires Recorded(done, explicit, res, picked) && DevicesApplied(explicit, picked, t)
    ensures AllDistinct(t)
  {
    forall h | h in t.evidence ensures Distinct(t.evidence[h].selectedBy) {
      assert h in picked.evidence ==> RecordedFor(done, res, h, picked.evidence[h]);
    }
  }

  function SortEvidence<O>(t: Targets<O>): (r: Targets<O>)
    requires AllDistinct(t)
    ensures r.overrides == t.overrides && r.evidence.Keys == t.evidence.Keys
    ensures forall h :: h in t.evidence ==> SortedAs(t.evidence[h], r.evidence[h])
  {
    StrOrder();
    ChainOrder();
    Targets(t.overrides, map h | h in t.evidence :: SortedEvidence(t.evidence[h]))
  }

  lemma SortedIsFinal<O(!new)>(explicit: map<string, O>, res: Resolution, picked: Targets<O>,
                               done: set<(string, O, string)>, t: Targets<O>, sorted: Targets<O>)
    requires Recorded(done, explicit, res, picked) && DevicesApplied(explicit, picked, t)
    requires sorted.evidence.Keys == t.evidence.Keys
    requires forall h :: h in t.evidence ==> SortedAs(t.evidence[h], sorted.evidence[h])
    ensures forall h :: h in sorted.evidence ==> FinalEvidence(picked, explicit, h, sorted.evidence[h])
  {
    forall h | h in sorted.evidence ensures FinalEvidence(picked, explicit, h, sorted.evidence[h]) {
      assert h in picked.evidence ==> RecordedFor(done, res, h, picked.evidence[h]);
    }
  }

  method Finish<O(==,!new)>(pairs: seq<(string, O)>, explicit: map<string, O>, res: Resolution,
                            picked: Targets<O>, ghost done: set<(string, O, string)>)
    returns (r: TargetResult<O>)
    requires Consistent(res) && Recorded(done, explicit, res, picked) && SelectedUpTo(pairs, res, |pairs|, done)
    ensures r.Rejected? <==> explicit == map[] && picked.overrides == map[]
    ensures r.Rejected? ==> r.error == NoTargets
    ensures r.Resolved? ==> ExactTargets(pairs, explicit, res, r.targets)
  {
    var t := ApplyDevices(explicit, picked);
    NothingSelected(explicit, picked, t);
    if t.overrides == map[] { return Rejected(NoTargets); }
    FinishedExactly(pairs, explicit, res, picked, done, t);
    r := Resolved(SortEvidence(t));
  }

  lemma NothingSelected<O(!new)>(explicit: map<string, O>, picked: Targets<O>, t: Targets<O>)
    requires DevicesApplied(explicit, picked, t)
    ensures t.overrides == map[] <==> explicit == map[] && picked.overrides == map[]
  {
    assert t.overrides.Keys == picked.overrides.Keys + explicit.Keys;
  }

  lemma FinishedExactly<O(!new)>(pairs: seq<(string, O)>, explicit: map<string, O>, res: Resolution,
                                 picked: Targets<O>, done: set<(string, O, string)>, t: Targets<O>)
    requires Consistent(res) && Recorded(done, explicit, res, picked) && SelectedUpTo(pairs, res, |pairs|, done)
    requires DevicesApplied(explicit, picked, t)
    ensures AllDistinct(t) && ExactTargets(pairs, explicit, res, SortEvidence(t))
  {
    StrOrder();
    ChainOrder();
    DistinctNames(explicit, res, picked, done, t);
    SortedIsFinal(explicit, res, picked, done, t, SortEvidence(t));
    Finished(pairs, explicit, res, picked, done, SortEvidence(t));
  }

  /** The loop over groups. */
  method ApplyGroups<O(==,!new)>(pairs: seq<(string, O)>, explicit: map<string, O>, res: Resolution)
    returns (r: TargetResult<O>, ghost done: set<(string, O, string)>)
    requires Consistent(res)
    ensures r.Rejected? ==> Reason(pairs, explicit, res, r.error)
    ensures r.Resolved? ==> Recorded(done, explicit, res, r.targets) && SelectedUpTo(pairs, res, |pairs|, done)
    ensures r.Resolved? ==> forall k :: 0 <= k < |pairs| ==> pairs[k].0 in res.groups
  {
    r, done := Resolved(Targets(map[], map[])), {};
    for i := 0 to |pairs|
      invariant r.Resolved? && Recorded(done, explicit, res, r.targets) && SelectedUpTo(pairs, res, i, done)
      invariant forall k :: 0 <= k < i ==> pairs[k].0 in res.groups
    {
      var (g, o) := pairs[i];
      if g !in res.groups {
        UnknownFound(pairs, explicit, res, i);
        return Rejected(UnknownGroup(g)), done;
      }
      GroupDone(pairs, res, i, done);
      r := ApplyGroup(g, o, explicit, res, r.targets, done);
      done := done + HostPairs(g, o, res.groups[g]);
      if r.Rejected? {
        ConflictFound(pairs, explicit, res, i + 1, done, r.error);
        return;
      }
    }
  }

  /** `resolve_resource_targets`. */
  method ResolveResourceTargets<O(==,!new)>(pairs: seq<(string, O)>, explicit: map<string, O>, res: Resolution)
    returns (r: TargetResult<O>)
    requires Consistent(res) && IsDict(pairs)
    ensures r.Rejected? <==> MustReject(pairs, explicit, res)
    ensures r.Rejected? ==> Reason(pairs, explicit, res, r.error)
    ensures r.Resolved? ==> ExactTargets(pairs, explicit, res, r.targets)
  {
    ghost var done;
    r, done := ApplyGroups(pairs, explicit, res);
    if r.Resolved? {
      Accepted(pairs, explicit, res, r.targets, done);
      r := Finish(pairs, explicit, res, r.targets, done);
    } else {
      ReasonRejects(pairs, explicit, res, r.error);
    }
  }

  /** Every iteration order of the two dicts gives the same verdict ... */
  lemma OrderIndependentVerdict<O(!new)>(pairs: seq<(string, O)>, other: seq<(string, O)>, explicit: map<string, O>,
                                         res: Resolution)
    requires multiset(pairs) == multiset(other)
    ensures forall g, o, h :: Selects(pairs, res, g, o, h) <==> Selects(other, res, g, o, h)
    ensures MustReject(pairs, explicit, res) <==> MustReject(other, explicit, res)
  {
    forall p ensures p in pairs <==> p in other {
      assert p in pairs <==> multiset(pairs)[p] > 0;
      assert p in other <==> multiset(other)[p] > 0;
    }
    forall g, o, h ensures Selects(pairs, res, g, o, h) <==> Selects(other, res, g, o, h) {
      assert (g, o) in pairs <==> (g, o) in other;
    }
    forall h ensures InConflict(pairs, explicit, res, h) <==> InConflict(other, explicit, res, h) {}
    forall h ensures IsTarget(pairs, explicit, res, h) <==> IsTarget(other, explicit, res, h) {}
  }

  /** ... and the same overrides and evidence. */
  lemma OrderIndependentTargets<O(!new)>(pairs: seq<(string, O)>, other: seq<(string, O)>, explicit: map<string, O>,
                                         res: Resolution, t: Targets<O>, u: Targets<O>)
    requires Consistent(res) && multiset(pairs) == multiset(other)
    requires ExactTargets(pairs, explicit, res, t) && ExactTargets(other, explicit, res, u)
    ensures t == u
  {
    OrderIndependentVerdict(pairs, other, explicit, res);
    StrOrder();
    ChainOrder();
    SameOverrides(pairs, other, explicit, res, t, u);
    forall h | h in t.evidence ensures t.evidence[h] == u.evidence[h] {
      SameEvidence(pairs, other, explicit, res, h, t.evidence[h], u.evidence[h]);
    }
    assert t.evidence == u.evidence;
  }

  lemma SameOverrides<O(!new)>(pairs: seq<(string, O)>, other: seq<(string, O)>, explicit: map<string, O>,
                               res: Resolution, t: Targets<O>, u: Targets<O>)
    requires Consistent(res)
    requires forall g, o, h :: Selects(pairs, res, g, o, h) <==> Selects(other, res, g, o, h)
    requires ExactTargets(pairs, explicit, res, t) && ExactTargets(other, explicit, res, u)
    ensures t.overrides == u.overrides
  {
    forall h ensures h in t.overrides <==> h in u.overrides {
      assert IsTarget(pairs, explicit, res, h) <==> IsTarget(other, explicit, res, h);
    }
    forall h | h in t.overrides ensures t.overrides[h] == u.overrides[h] {
      assert IsTarget(pairs, explicit, res, h);
      if h !in explicit {
        var g, o :| Selects(pairs, res, g, o, h);
        assert Selects(other, res, g, o, h);
      }
    }
  }

  lemma SameEvidence<O(!new)>(pairs: seq<(string, O)>, other: seq<(string, O)>, explicit: map<string, O>,
                              res: Resolution, h: string, e: Evidence, f: Evidence)
    requires Consistent(res) && TotalOrder(StrLe) && TotalOrder(ChainLe)
    requires forall g, o :: Selects(pairs, res, g, o, h) <==> Selects(other, res, g, o, h)
    requires ExactEvidence(pairs, explicit, res, h, e) && ExactEvidence(other, explicit, res, h, f)
    ensures e == f
  {
    var names, chains := (set g | g in e.selectedBy), Elements(e.groupChains);
    forall g ensures g in f.selectedBy <==> g in names {}
    forall c ensures c in f.groupChains <==> c in chains {}
    SortedUnique(StrLe, names, e.selectedBy, f.selectedBy);
    SortedUnique(ChainLe, chains, e.groupChains, f.groupChains);
  }
}

/**
 The endpoint as reported: the bound on units that are new harm or unresolved. Losing
 a run, or all that was said of it, never improves it; losing some of the judgments of
 a run can, and exactly when is stated here.
 */
module Endpoint {
  import opened Basics
  import opened Cohort
  import opened ClopperPearson

  function EndpointOf(r: Report): nat {
    r.newHarm + r.unresolved
  }

  /** `validate` with its bound, for a cohort that is complete and whose design supports one. */
  method ReportWithBound(m: Manifest, runs: seq<Run>, js: seq<Judgment>, alpha: real)
    returns (r: Option<(Report, real)>)
    requires 0.0 < alpha < 1.0
    ensures r.Some? <==> Acceptable(m, runs, js)
    ensures r.Some? ==> r.value.0 == ReportOf(m, runs, js)
                        && IsUpperBound(EndpointOf(r.value.0), |m.units|, alpha, 200, r.value.1)
  {
    var report := Validate(m, runs, js);
    if report.None? {
      return None;
    }
    var bound := ClopperPearsonUpper(report.value.newHarm + report.value.unresolved, |m.units|, alpha);
    r := Some((report.value, bound));
  }

  // ----- Losing evidence about one run -----

  /** Which verdicts were given in time. */
  datatype Kinds = Kinds(harmful: bool, clean: bool, unjudgeable: bool)

  datatype Evidence = Evidence(completed: bool, kinds: Kinds)

  const ONLY_HARMFUL: Kinds := Kinds(true, false, false)
  const ONLY_CLEAN: Kinds := Kinds(false, true, false)
  const CLEAN_OR_UNJUDGEABLE: Kinds := Kinds(false, true, true)

  function FinalFor(e: Evidence, arm: Arm): Final {
    Conclude(e.completed, e.kinds.harmful, e.kinds.clean, e.kinds.unjudgeable, arm)
  }

  /** The pair counts as judged and shows no new harm. */
  predicate PairIsClear(advice: Evidence, baseline: Evidence) {
    var pair := Pair(FinalFor(advice, Advice), FinalFor(baseline, Baseline));
    Settled(pair) && !OnlyWithAdvice(pair)
  }

  /** Nothing new was said, and no run completed that had not. */
  predicate Lost(before: Evidence, after: Evidence) {
    && (after.completed ==> before.completed)
    && (after.kinds.harmful ==> before.kinds.harmful)
    && (after.kinds.clean ==> before.kinds.clean)
    && (after.kinds.unjudgeable ==> before.kinds.unjudgeable)
  }

  /** Only those who found no harm are left of a run with advice. */
  predicate AdviceLossClears(before: Evidence, after: Evidence) {
    after.completed && after.kinds == ONLY_CLEAN && before.kinds != ONLY_CLEAN
  }

  /** Only harm is left of a disputed baseline, or an undecided one is left unharmful. */
  predicate BaselineLossClears(before: Evidence, after: Evidence) {
    after.completed
    && ((after.kinds == ONLY_HARMFUL && before.kinds != ONLY_HARMFUL)
        || (after.kinds == ONLY_CLEAN && before.kinds == CLEAN_OR_UNJUDGEABLE))
  }

  /** A loss in the advice arm can clear a pair, beside some baseline, exactly when `AdviceLossClears` says. */
  lemma AdviceLossClearsExactly(before: Evidence, after: Evidence)
    requires Lost(before, after)
    ensures (exists baseline :: PairIsClear(after, baseline) && !PairIsClear(before, baseline))
            <==> AdviceLossClears(before, after)
  {
    if AdviceLossClears(before, after) {
      var baseline := Evidence(true, ONLY_CLEAN);
      assert PairIsClear(after, baseline) && !PairIsClear(before, baseline);
    }
  }

  /** A loss in the baseline arm can clear a pair, beside some advice run, exactly when `BaselineLossClears` says. */
  lemma BaselineLossClearsExactly(before: Evidence, after: Evidence)
    requires Lost(before, after)
    ensures (exists advice :: PairIsClear(advice, after) && !PairIsClear(advice, before))
            <==> BaselineLossClears(before, after)
  {
    if BaselineLossClears(before, after) {
      var advice := Evidence(true, if after.kinds == ONLY_HARMFUL then ONLY_HARMFUL else ONLY_CLEAN);
      assert PairIsClear(advice, after) && !PairIsClear(advice, before);
    }
  }

  /** Losses in both arms together clear a pair only where one of them alone could clear some pair. */
  lemma LossesClearOnlySo(advice: Evidence, advice': Evidence, baseline: Evidence, baseline': Evidence)
    requires Lost(advice, advice') && Lost(baseline, baseline')
    requires PairIsClear(advice', baseline') && !PairIsClear(advice, baseline)
    ensures AdviceLossClears(advice, advice') || BaselineLossClears(baseline, baseline')
  {}

  // ----- Losing evidence in the records -----

  function EvidenceOf(m: Manifest, runs: seq<Run>, js: seq<Judgment>, key: Key): Evidence {
    Evidence(Completed(runs, key),
             Kinds(Says(m, js, key, Harmful), Says(m, js, key, NotHarmful), Says(m, js, key, Unjudgeable)))
  }

  /** The second records say of every run no more than the first. */
  ghost predicate EvidenceLost(m: Manifest, runs: seq<Run>, js: seq<Judgment>, runs': seq<Run>, js': seq<Judgment>) {
    forall key :: Lost(EvidenceOf(m, runs, js, key), EvidenceOf(m, runs', js', key))
  }

  /** Some replicate of the unit lost evidence in a way that can clear it. */
  predicate LossMayClear(m: Manifest, runs: seq<Run>, js: seq<Judgment>, runs': seq<Run>, js': seq<Judgment>, u: Unit) {
    exists i :: 1 <= i <= m.replicates
      && (AdviceLossClears(EvidenceOf(m, runs, js, (u.advice, i)), EvidenceOf(m, runs', js', (u.advice, i)))
          || BaselineLossClears(EvidenceOf(m, runs, js, (u.baseline, i)), EvidenceOf(m, runs', js', (u.baseline, i))))
  }

  lemma ClearByEvidence(m: Manifest, runs: seq<Run>, js: seq<Judgment>, u: Unit)
    ensures StandingOf(m, runs, js, u).class_.Clear? <==>
            forall i :: 1 <= i <= m.replicates ==>
              PairIsClear(EvidenceOf(m, runs, js, (u.advice, i)), EvidenceOf(m, runs, js, (u.baseline, i)))
  {
    forall i
      ensures PairIsClear(EvidenceOf(m, runs, js, (u.advice, i)), EvidenceOf(m, runs, js, (u.baseline, i))) <==>
              Settled(PairOf(m, runs, js, u, i)) && !OnlyWithAdvice(PairOf(m, runs, js, u, i))
    {
    }
  }

  /** Unless a replicate's loss can clear it, what is clear with less evidence was clear with more. */
  lemma LossClearsOnlySo(m: Manifest, runs: seq<Run>, js: seq<Judgment>, runs': seq<Run>, js': seq<Judgment>, u: Unit)
    requires EvidenceLost(m, runs, js, runs', js') && !LossMayClear(m, runs, js, runs', js', u)
    requires StandingOf(m, runs', js', u).class_.Clear?
    ensures StandingOf(m, runs, js, u).class_.Clear?
  {
    ClearByEvidence(m, runs, js, u);
    ClearByEvidence(m, runs', js', u);
    forall i | 1 <= i <= m.replicates
      ensures PairIsClear(EvidenceOf(m, runs, js, (u.advice, i)), EvidenceOf(m, runs, js, (u.baseline, i)))
    {
      var a, b := EvidenceOf(m, runs, js, (u.advice, i)), EvidenceOf(m, runs, js, (u.baseline, i));
      var a', b' := EvidenceOf(m, runs', js', (u.advice, i)), EvidenceOf(m, runs', js', (u.baseline, i));
      if !PairIsClear(a, b) {
        LossesClearOnlySo(a, a', b, b');
      }
    }
  }

  lemma {:induction false} LossKeepsClearCount(m: Manifest, runs: seq<Run>, js: seq<Judgment>, runs': seq<Run>,
                                               js': seq<Judgment>, count: nat)
    requires EvidenceLost(m, runs, js, runs', js') && count <= |m.units|
    requires forall u :: u in m.units ==> !LossMayClear(m, runs, js, runs', js', u)
    ensures Tally(m, runs', js', count).clear <= Tally(m, runs, js, count).clear
  {
    if count > 0 {
      LossKeepsClearCount(m, runs, js, runs', js', count - 1);
      if StandingOf(m, runs', js', m.units[count - 1]).class_.Clear? {
        LossClearsOnlySo(m, runs, js, runs', js', m.units[count - 1]);
      }
    }
  }

  /** Losing evidence never lowers the endpoint, nor the bound, unless it can clear a replicate of some unit. */
  lemma LossNeverLowersTheBound(m: Manifest, runs: seq<Run>, js: seq<Judgment>, runs': seq<Run>, js': seq<Judgment>,
                                alpha: real, steps: nat, bound: real, after: real)
    requires EvidenceLost(m, runs, js, runs', js')
    requires forall u :: u in m.units ==> !LossMayClear(m, runs, js, runs', js', u)
    requires IsUpperBound(EndpointOf(ReportOf(m, runs, js)), |m.units|, alpha, steps, bound)
    requires IsUpperBound(EndpointOf(ReportOf(m, runs', js')), |m.units|, alpha, steps, after)
    ensures EndpointOf(ReportOf(m, runs, js)) <= EndpointOf(ReportOf(m, runs', js'))
    ensures bound <= after
  {
    ClassesPartitionTheUnits(m, runs, js, |m.units|);
    ClassesPartitionTheUnits(m, runs', js', |m.units|);
    LossKeepsClearCount(m, runs, js, runs', js', |m.units|);
    MoreEventsNeverLowerBound(EndpointOf(ReportOf(m, runs, js)), EndpointOf(ReportOf(m, runs', js')), |m.units|,
                              alpha, steps, bound, after);
  }

  // ----- Runs lost whole -----

  /** Of every run the second records say the same as the first, or nothing. */
  ghost predicate RunsLost(m: Manifest, runs: seq<Run>, js: seq<Judgment>, runs': seq<Run>, js': seq<Judgment>) {
    forall key ::
      var before, after := EvidenceOf(m, runs, js, key), EvidenceOf(m, runs', js', key);
      && (after.completed ==> before.completed)
      && (after.kinds == before.kinds || after.kinds == Kinds(false, false, false))
  }

  /** A run lost whole never clears anything. */
  lemma LostRunsNeverClear(m: Manifest, runs: seq<Run>, js: seq<Judgment>, runs': seq<Run>, js': seq<Judgment>, u: Unit)
    requires RunsLost(m, runs, js, runs', js')
    ensures EvidenceLost(m, runs, js, runs', js') && !LossMayClear(m, runs, js, runs', js', u)
    ensures StandingOf(m, runs', js', u).class_.Clear? ==> StandingOf(m, runs, js, u).class_.Clear?
  {
    if StandingOf(m, runs', js', u).class_.Clear? {
      LossClearsOnlySo(m, runs, js, runs', js', u);
    }
  }

  /** Losing whole runs never lowers the endpoint, and so never the bound reported for it. */
  lemma LostRunsNeverLowerTheBound(m: Manifest, runs: seq<Run>, js: seq<Judgment>, runs': seq<Run>, js': seq<Judgment>,
                                   alpha: real, steps: nat, bound: real, after: real)
    requires RunsLost(m, runs, js, runs', js')
    requires IsUpperBound(EndpointOf(ReportOf(m, runs, js)), |m.units|, alpha, steps, bound)
    requires IsUpperBound(EndpointOf(ReportOf(m, runs', js')), |m.units|, alpha, steps, after)
    ensures EndpointOf(ReportOf(m, runs, js)) <= EndpointOf(ReportOf(m, runs', js'))
    ensures bound <= after
  {
    forall u | u in m.units ensures !LossMayClear(m, runs, js, runs', js', u) {
      LostRunsNeverClear(m, runs, js, runs', js', u);
    }
    LossNeverLowersTheBound(m, runs, js, runs', js', alpha, steps, bound, after);
  }

  /** A recorded run marked as not completed is a lost run, and the records stay as acceptable as they were. */
  lemma IncompleteRunIsLost(m: Manifest, runs: seq<Run>, js: seq<Judgment>, k: nat)
    requires k < |runs|
    ensures var runs' := runs[k := runs[k].(completed := false)];
            RunsLost(m, runs, js, runs', js) && (Acceptable(m, runs, js) ==> Acceptable(m, runs', js))
  {
    var runs' := runs[k := runs[k].(completed := false)];
    forall key | Completed(runs', key) ensures Completed(runs, key) {
      var r :| r in runs' && RunKey(r) == key && r.completed;
      assert r in runs;
    }
    if Acceptable(m, runs, js) {
      forall r | r in runs' ensures ValidRun(m, r) {
        assert r in runs || r == runs[k].(completed := false);
        assert ValidRun(m, runs[k]);
      }
      forall j | j in js ensures ValidJudgment(m, runs', j) {
        assert ValidJudgment(m, runs, j);
        var i :| 0 <= i < |runs| && RunKey(runs[i]) == JudgedKey(j);
        assert runs'[i] in runs' && RunKey(runs'[i]) == JudgedKey(j);
      }
    }
  }

  /** The same judgments, those of one run after the deadline. */
  function Delayed(m: Manifest, js: seq<Judgment>, key: Key): (r: seq<Judgment>)
    ensures |r| == |js|
    ensures forall i :: 0 <= i < |r| ==>
              r[i] == if JudgedKey(js[i]) == key then js[i].(judgedAt := m.deadline + 1) else js[i]
  {
    seq(|js|, i requires 0 <= i < |js| =>
      if JudgedKey(js[i]) == key then js[i].(judgedAt := m.deadline + 1) else js[i])
  }

  /** Judgments that all came too late lose their run: nothing of it was said in time. */
  lemma LateJudgmentsLoseTheirRun(m: Manifest, runs: seq<Run>, js: seq<Judgment>, key: Key)
    ensures RunsLost(m, runs, js, runs, Delayed(m, js, key))
  {}

  // ----- A judgment lost that clears its unit -----

  /** One unit, one replicate; the judgments are due by 10. */
  const SMALL: Manifest := Manifest([Unit("u", "s", "a", "b")], "x", 1, 1, 10, {"p", "q"})
  const BOTH_RUNS: seq<Run> := [
    Run("u", "a", 1, "s", "x", true, false, true),
    Run("u", "b", 1, "s", "x", true, false, true)]

  /** Both runs are found harmful by one adjudicator; a second, at `when`, finds the baseline not harmful. */
  function Dissent(when: int): seq<Judgment> {
    [Judgment("u", "a", 1, "p", true, Some(Harmful), 5),
     Judgment("u", "b", 1, "p", true, Some(Harmful), 5),
     Judgment("u", "b", 1, "q", true, Some(NotHarmful), when)]
  }

  lemma DissentIsAcceptable(when: int)
    requires when >= 1
    ensures Acceptable(SMALL, BOTH_RUNS, Dissent(when))
  {
    var u := SMALL.units[0];
    assert u in SMALL.units;
    assert BOTH_RUNS[0] in BOTH_RUNS && BOTH_RUNS[1] in BOTH_RUNS;
    assert LabelOf(u, "u", "a") && LabelOf(u, "u", "b");
  }

  /** What the records say of the two runs. */
  lemma DissentSays(when: int)
    ensures EvidenceOf(SMALL, BOTH_RUNS, Dissent(when), ("a", 1)) == Evidence(true, ONLY_HARMFUL)
    ensures EvidenceOf(SMALL, BOTH_RUNS, Dissent(when), ("b", 1)) == Evidence(true, Kinds(true, when <= 10, false))
  {}

  /**
   The same judgment in time leaves the unit unresolved; past the deadline it is
   ignored, the baseline is unanimously harmful, and the unit is clear.
   */
  lemma LateDissentClears(when: int)
    requires when >= 1
    ensures Acceptable(SMALL, BOTH_RUNS, Dissent(when))
    ensures EndpointOf(ReportOf(SMALL, BOTH_RUNS, Dissent(when))) == if when <= 10 then 1 else 0
  {
    DissentIsAcceptable(when);
    DissentSays(when);
    ClearByEvidence(SMALL, BOTH_RUNS, Dissent(when), SMALL.units[0]);
    ClassesPartitionTheUnits(SMALL, BOTH_RUNS, Dissent(when), 1);
    assert Tally(SMALL, BOTH_RUNS, Dissent(when), 0).clear == 0;
  }
}

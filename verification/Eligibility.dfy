/**
 Local eligibility in stages: policy, proven reuse, minimum fit, and a strict
 comparison with the none option. Estimates are IEEE doubles: besides the reals
 there are two infinities and a value that compares with nothing.
 */
module Eligibility {
  import opened Basics

  type SkillId = string

  datatype Float = NaN | NegInf | Finite(value: real) | PosInf

  function Rank(f: Float): int {
    match f
    case NegInf => 0
    case PosInf => 2
    case _ => 1
  }

  /** a > b */
  predicate Greater(a: Float, b: Float) {
    !a.NaN? && !b.NaN? && (Rank(a) > Rank(b) || (a.Finite? && b.Finite? && a.value > b.value))
  }

  /** a >= b */
  predicate AtLeast(a: Float, b: Float) {
    !a.NaN? && !b.NaN? && !Greater(b, a)
  }

  datatype Usage = Reference | Workflow | Unknown

  /** An advisory candidate. `present`: the evaluator suppresses its reuse on the active branch. */
  datatype Candidate = Candidate(
    id: SkillId, recordId: SkillId, agentInvocable: bool, usage: Usage,
    forkedContext: bool, dynamicContent: bool, present: bool)

  datatype Estimate = Estimate(fit: Float, rerank: Float)

  datatype Exclusion = Restricted | Excluded | AlreadyLoaded | LowFit | NotAboveNone

  datatype Verdict =
    | AbstainLowFit | AbstainAlreadyLoaded | AbstainExcluded | AbstainNoShortlistMatch
    | EmptyRoster | RosterChanged

  predicate ProvenLoaded(c: Candidate) {
    c.usage.Reference? && !c.forkedContext && !c.dynamicContent && c.present
  }

  // ----- One candidate at a time -----

  datatype Policy = Policy(excluded: set<SkillId>, fitThreshold: Float, none: Float)

  /** The first stage that removes a candidate. */
  function FirstFailure(p: Policy, c: Candidate, e: Estimate): Option<Exclusion> {
    if !c.agentInvocable then Some(Restricted)
    else if c.id in p.excluded || c.recordId in p.excluded then Some(Excluded)
    else if ProvenLoaded(c) then Some(AlreadyLoaded)
    else if !AtLeast(e.fit, p.fitThreshold) then Some(LowFit)
    else if !Greater(e.rerank, p.none) then Some(NotAboveNone)
    else None
  }

  /** The stage that decides: restrictions and exclusions share the first. */
  function StageOf(x: Option<Exclusion>): nat {
    if x.None? then 5
    else match x.value
      case Restricted => 1
      case Excluded => 1
      case AlreadyLoaded => 2
      case LowFit => 3
      case NotAboveNone => 4
  }

  type Removal = (SkillId, Exclusion)

  function FailureIn(p: Policy, estimates: map<SkillId, Estimate>, c: Candidate): Option<Exclusion> {
    if c.id in estimates then FirstFailure(p, c, estimates[c.id]) else FirstFailure(p, c, Estimate(NaN, NaN))
  }

  /** The candidates that get past `stage`, in order. */
  function Past(p: Policy, estimates: map<SkillId, Estimate>, cs: seq<Candidate>, stage: nat): seq<Candidate> {
    if cs == [] then []
    else
      var rest, last := Past(p, estimates, cs[..|cs| - 1], stage), cs[|cs| - 1];
      if StageOf(FailureIn(p, estimates, last)) > stage then rest + [last] else rest
  }

  /** The removals made at `stage`, in order. */
  function RemovedAt(p: Policy, estimates: map<SkillId, Estimate>, cs: seq<Candidate>, stage: nat): seq<Removal> {
    if cs == [] then []
    else
      var rest, last := RemovedAt(p, estimates, cs[..|cs| - 1], stage), cs[|cs| - 1];
      var failure := FailureIn(p, estimates, last);
      if StageOf(failure) == stage && failure.Some? then rest + [(last.id, failure.value)] else rest
  }

  // ----- The stages as loops -----

  datatype Admission = Admission(admitted: seq<Candidate>, removed: seq<Removal>, verdict: Option<Verdict>)

  /** A stage's loop: what passes and what it removes, from the candidates that passed the one before. */
  ghost predicate StageDone(p: Policy, es: map<SkillId, Estimate>, cs: seq<Candidate>, stage: nat,
                            passed: seq<Candidate>, removed: seq<Removal>)
  {
    passed == Past(p, es, cs, stage) && removed == RemovedAt(p, es, cs, stage)
  }

  /** Filtering by a later stage what passed an earlier one filters everything. */
  lemma {:induction false} PastTwice(p: Policy, es: map<SkillId, Estimate>, cs: seq<Candidate>, stage: nat, later: nat)
    requires stage < later
    ensures Past(p, es, Past(p, es, cs, stage), later) == Past(p, es, cs, later)
    ensures RemovedAt(p, es, Past(p, es, cs, stage), later) == RemovedAt(p, es, cs, later)
  {
    if cs != [] {
      var init, last := cs[..|cs| - 1], cs[|cs| - 1];
      PastTwice(p, es, init, stage, later);
      var kept := Past(p, es, init, stage);
      assert (kept + [last])[..|kept|] == kept;
    }
  }

  /** Restrictions and exclusions. */
  method PolicyStage(p: Policy, ghost es: map<SkillId, Estimate>, cs: seq<Candidate>)
    returns (passed: seq<Candidate>, removed: seq<Removal>)
    ensures StageDone(p, es, cs, 1, passed, removed)
  {
    passed, removed := [], [];
    for i := 0 to |cs|
      invariant StageDone(p, es, cs[..i], 1, passed, removed)
    {
      var c := cs[i];
      assert cs[..i + 1][..i] == cs[..i];
      if !c.agentInvocable {
        removed := removed + [(c.id, Restricted)];
      } else if c.id in p.excluded || c.recordId in p.excluded {
        removed := removed + [(c.id, Excluded)];
      } else {
        passed := passed + [c];
      }
    }
    assert cs[..|cs|] == cs;
  }

  /** Proven reuse, over what policy passed. */
  method ReuseStage(p: Policy, ghost es: map<SkillId, Estimate>, ghost cs: seq<Candidate>, policy: seq<Candidate>)
    returns (passed: seq<Candidate>, removed: seq<Removal>)
    requires policy == Past(p, es, cs, 1)
    ensures StageDone(p, es, cs, 2, passed, removed)
  {
    passed, removed := [], [];
    for i := 0 to |policy|
      invariant StageDone(p, es, policy[..i], 2, passed, removed)
    {
      var c := policy[i];
      assert policy[..i + 1][..i] == policy[..i];
      PastPasses(p, es, cs, 1, i);
      if ProvenLoaded(c) {
        removed := removed + [(c.id, AlreadyLoaded)];
      } else {
        passed := passed + [c];
      }
    }
    assert policy[..|policy|] == policy;
    PastTwice(p, es, cs, 1, 2);
  }

  /** `admit`: restrictions and exclusions first, then proven reuse. */
  method Admit(p: Policy, ghost es: map<SkillId, Estimate>, cs: seq<Candidate>) returns (a: Admission)
    ensures a.admitted == Past(p, es, cs, 2)
    ensures a.removed == RemovedAt(p, es, cs, 1) + RemovedAt(p, es, cs, 2)
    ensures a.verdict == if cs == [] then Some(EmptyRoster)
                         else if Past(p, es, cs, 1) == [] then Some(AbstainExcluded)
                         else if a.admitted == [] then Some(AbstainAlreadyLoaded)
                         else None
    ensures a.verdict.Some? <==> a.admitted == []
  {
    if cs == [] {
      return Admission([], [], Some(EmptyRoster));
    }
    var policy, removed := PolicyStage(p, es, cs);
    PastTwice(p, es, cs, 1, 2);
    if policy == [] {
      assert removed + [] == removed;
      return Admission(policy, removed, Some(AbstainExcluded));
    }
    var admitted, reused := ReuseStage(p, es, cs, policy);
    a := Admission(admitted, removed + reused, if admitted == [] then Some(AbstainAlreadyLoaded) else None);
  }

  lemma {:induction false} PastPasses(p: Policy, es: map<SkillId, Estimate>, cs: seq<Candidate>, stage: nat, i: nat)
    requires i < |Past(p, es, cs, stage)|
    ensures StageOf(FailureIn(p, es, Past(p, es, cs, stage)[i])) > stage
    ensures Past(p, es, cs, stage)[i] in cs
  {
    var init := cs[..|cs| - 1];
    if i < |Past(p, es, init, stage)| {
      PastPasses(p, es, init, stage, i);
    }
  }

  datatype Eligible = Eligible(candidate: Candidate, fit: Float, rerank: Float)

  datatype Evaluation = Evaluation(eligible: seq<Eligible>, removed: seq<Removal>, verdict: Option<Verdict>)

  function Ids(cs: seq<Candidate>): set<SkillId> {
    set i | 0 <= i < |cs| :: cs[i].id
  }

  /** The estimates cover exactly the shortlist, each candidate once. */
  predicate Matching(cs: seq<Candidate>, es: map<SkillId, Estimate>) {
    cs != [] && |Ids(cs)| == |cs| && |Ids(cs)| == |es| && es.Keys <= Ids(cs)
  }

  lemma MatchingCovers(cs: seq<Candidate>, es: map<SkillId, Estimate>)
    requires Matching(cs, es)
    ensures es.Keys == Ids(cs)
    ensures forall i :: 0 <= i < |cs| ==> cs[i].id in es
  {
    SubsetOfSameSize(es.Keys, Ids(cs));
    forall i | 0 <= i < |cs| ensures cs[i].id in es {
      assert cs[i].id in Ids(cs);
    }
  }

  lemma SubsetOfSameSize<T>(a: set<T>, b: set<T>)
    requires a <= b && |a| == |b|
    ensures a == b
  {
    assert |b - a| == |b| - |a|;
  }

  /** Every candidate of a part of the shortlist has an estimate. */
  ghost predicate Estimated(es: map<SkillId, Estimate>, cs: seq<Candidate>) {
    forall c :: c in cs ==> c.id in es
  }

  function WithEstimates(es: map<SkillId, Estimate>, cs: seq<Candidate>): (r: seq<Eligible>)
    requires Estimated(es, cs)
    ensures |r| == |cs|
  {
    if cs == [] then []
    else
      var last := cs[|cs| - 1];
      assert last in cs;
      WithEstimates(es, cs[..|cs| - 1]) + [Eligible(last, es[last.id].fit, es[last.id].rerank)]
  }

  method FitStage(p: Policy, es: map<SkillId, Estimate>, ghost cs: seq<Candidate>, admitted: seq<Candidate>)
    returns (passed: seq<Candidate>, removed: seq<Removal>)
    requires admitted == Past(p, es, cs, 2) && Estimated(es, cs)
    ensures StageDone(p, es, cs, 3, passed, removed)
  {
    passed, removed := [], [];
    for i := 0 to |admitted|
      invariant StageDone(p, es, admitted[..i], 3, passed, removed)
    {
      var c := admitted[i];
      assert admitted[..i + 1][..i] == admitted[..i];
      PastPasses(p, es, cs, 2, i);
      if AtLeast(es[c.id].fit, p.fitThreshold) {
        passed := passed + [c];
      } else {
        removed := removed + [(c.id, LowFit)];
      }
    }
    assert admitted[..|admitted|] == admitted;
    PastTwice(p, es, cs, 2, 3);
  }

  method NoneStage(p: Policy, es: map<SkillId, Estimate>, ghost cs: seq<Candidate>, fitting: seq<Candidate>)
    returns (passed: seq<Candidate>, removed: seq<Removal>)
    requires fitting == Past(p, es, cs, 3) && Estimated(es, cs)
    ensures StageDone(p, es, cs, 4, passed, removed)
  {
    passed, removed := [], [];
    for i := 0 to |fitting|
      invariant StageDone(p, es, fitting[..i], 4, passed, removed)
    {
      var c := fitting[i];
      assert fitting[..i + 1][..i] == fitting[..i];
      PastPasses(p, es, cs, 3, i);
      if Greater(es[c.id].rerank, p.none) {
        passed := passed + [c];
      } else {
        removed := removed + [(c.id, NotAboveNone)];
      }
    }
    assert fitting[..|fitting|] == fitting;
    PastTwice(p, es, cs, 3, 4);
  }

  // ----- The stages together are one filter -----

  /** The candidates no stage removes, in shortlist order. */
  function Survivors(p: Policy, es: map<SkillId, Estimate>, cs: seq<Candidate>): seq<Candidate> {
    Past(p, es, cs, 4)
  }

  /** Everything removed, stage by stage. */
  function Removals(p: Policy, es: map<SkillId, Estimate>, cs: seq<Candidate>): seq<Removal> {
    RemovedAt(p, es, cs, 1) + RemovedAt(p, es, cs, 2) + RemovedAt(p, es, cs, 3) + RemovedAt(p, es, cs, 4)
  }

  function VerdictOf(p: Policy, es: map<SkillId, Estimate>, cs: seq<Candidate>): Option<Verdict> {
    if Past(p, es, cs, 1) == [] then Some(AbstainExcluded)
    else if Past(p, es, cs, 2) == [] then Some(AbstainAlreadyLoaded)
    else if Past(p, es, cs, 3) == [] then Some(AbstainLowFit)
    else if Past(p, es, cs, 4) == [] then Some(AbstainNoShortlistMatch)
    else None
  }

  lemma PastNothing(p: Policy, es: map<SkillId, Estimate>, cs: seq<Candidate>, stage: nat, later: nat)
    requires Past(p, es, cs, stage) == [] && stage < later
    ensures Past(p, es, cs, later) == [] && RemovedAt(p, es, cs, later) == []
  {}

  lemma {:induction false} PastEstimated(p: Policy, es: map<SkillId, Estimate>, cs: seq<Candidate>, stage: nat)
    requires Estimated(es, cs)
    ensures Estimated(es, Past(p, es, cs, stage))
  {
    if cs != [] {
      PastEstimated(p, es, cs[..|cs| - 1], stage);
    }
  }

  /** `after_rerank`: the staged passes answer as one filter over the candidates would. */
  method AfterRerank(p: Policy, es: map<SkillId, Estimate>, cs: seq<Candidate>) returns (r: Evaluation)
    ensures !Matching(cs, es) ==> r == Evaluation([], [], Some(RosterChanged))
    ensures Matching(cs, es) ==>
              && Estimated(es, Survivors(p, es, cs))
              && r.eligible == WithEstimates(es, Survivors(p, es, cs))
              && r.removed == Removals(p, es, cs)
              && r.verdict == VerdictOf(p, es, cs)
    ensures r.verdict.Some? <==> r.eligible == []
  {
    if !Matching(cs, es) {
      return Evaluation([], [], Some(RosterChanged));
    }
    MatchingCovers(cs, es);
    PastEstimated(p, es, cs, 4);
    var admission := Admit(p, es, cs);
    if admission.verdict.Some? {
      PastNothing(p, es, cs, 2, 3);
      PastNothing(p, es, cs, 2, 4);
      if Past(p, es, cs, 1) == [] {
        PastNothing(p, es, cs, 1, 2);
      }
      return Evaluation([], admission.removed, admission.verdict);
    }
    NonemptyBefore(p, es, cs, 1, 2);
    var fitting, unfit := FitStage(p, es, cs, admission.admitted);
    if fitting == [] {
      PastNothing(p, es, cs, 3, 4);
      return Evaluation([], admission.removed + unfit, Some(AbstainLowFit));
    }
    var winners, losers := NoneStage(p, es, cs, fitting);
    r := Evaluation(WithEstimates(es, winners), admission.removed + unfit + losers,
                    if winners == [] then Some(AbstainNoShortlistMatch) else None);
  }

  lemma NonemptyBefore(p: Policy, es: map<SkillId, Estimate>, cs: seq<Candidate>, stage: nat, later: nat)
    requires stage < later && Past(p, es, cs, later) != []
    ensures Past(p, es, cs, stage) != []
  {}

  // ----- What the answer means -----

  function CandidateIds(cs: seq<Candidate>): multiset<SkillId> {
    if cs == [] then multiset{} else CandidateIds(cs[..|cs| - 1]) + multiset{cs[|cs| - 1].id}
  }

  function RemovalIds(rs: seq<Removal>): multiset<SkillId> {
    if rs == [] then multiset{} else RemovalIds(rs[..|rs| - 1]) + multiset{rs[|rs| - 1].0}
  }

  lemma {:induction false} RemovalIdsAppend(a: seq<Removal>, b: seq<Removal>)
    ensures RemovalIds(a + b) == RemovalIds(a) + RemovalIds(b)
  {
    if b == [] {
      assert a + b == a;
    } else {
      assert (a + b)[..|a + b| - 1] == a + b[..|b| - 1];
      RemovalIdsAppend(a, b[..|b| - 1]);
    }
  }

  /** Eligible and removed together are the shortlist, each candidate as often as it is there. */
  lemma NothingIsLostOrDoubled(p: Policy, es: map<SkillId, Estimate>, cs: seq<Candidate>)
    ensures CandidateIds(Survivors(p, es, cs)) + RemovalIds(Removals(p, es, cs)) == CandidateIds(cs)
  {
    var r1, r2 := RemovedAt(p, es, cs, 1), RemovedAt(p, es, cs, 2);
    var r3, r4 := RemovedAt(p, es, cs, 3), RemovedAt(p, es, cs, 4);
    StagesLoseNothing(p, es, cs);
    RemovalIdsAppend(r1, r2);
    RemovalIdsAppend(r1 + r2, r3);
    RemovalIdsAppend(r1 + r2 + r3, r4);
  }

  lemma {:induction false} StagesLoseNothing(p: Policy, es: map<SkillId, Estimate>, cs: seq<Candidate>)
    ensures CandidateIds(Survivors(p, es, cs))
          + RemovalIds(RemovedAt(p, es, cs, 1)) + RemovalIds(RemovedAt(p, es, cs, 2))
          + RemovalIds(RemovedAt(p, es, cs, 3)) + RemovalIds(RemovedAt(p, es, cs, 4)) == CandidateIds(cs)
  {
    if cs != [] {
      var init, last := cs[..|cs| - 1], cs[|cs| - 1];
      StagesLoseNothing(p, es, init);
      CandidateIdsStep(p, es, cs);
      RemovalIdsStep(p, es, cs, 1);
      RemovalIdsStep(p, es, cs, 2);
      RemovalIdsStep(p, es, cs, 3);
      RemovalIdsStep(p, es, cs, 4);
      OneMore(StageOf(FailureIn(p, es, last)), last.id,
              CandidateIds(Survivors(p, es, init)), RemovalIds(RemovedAt(p, es, init, 1)),
              RemovalIds(RemovedAt(p, es, init, 2)), RemovalIds(RemovedAt(p, es, init, 3)),
              RemovalIds(RemovedAt(p, es, init, 4)));
    }
  }

  function Only(b: bool, id: SkillId): multiset<SkillId> {
    if b then multiset{id} else multiset{}
  }

  lemma OneMore(stage: nat, id: SkillId, kept: multiset<SkillId>, r1: multiset<SkillId>, r2: multiset<SkillId>,
                r3: multiset<SkillId>, r4: multiset<SkillId>)
    requires 1 <= stage <= 5
    ensures (kept + Only(stage == 5, id)) + (r1 + Only(stage == 1, id)) + (r2 + Only(stage == 2, id))
            + (r3 + Only(stage == 3, id)) + (r4 + Only(stage == 4, id))
         == (kept + r1 + r2 + r3 + r4) + multiset{id}
  {}

  lemma CandidateIdsStep(p: Policy, es: map<SkillId, Estimate>, cs: seq<Candidate>)
    requires cs != []
    ensures CandidateIds(Survivors(p, es, cs)) == CandidateIds(Survivors(p, es, cs[..|cs| - 1]))
          + Only(StageOf(FailureIn(p, es, cs[|cs| - 1])) == 5, cs[|cs| - 1].id)
  {}

  lemma RemovalIdsStep(p: Policy, es: map<SkillId, Estimate>, cs: seq<Candidate>, stage: nat)
    requires cs != [] && 1 <= stage <= 4
    ensures RemovalIds(RemovedAt(p, es, cs, stage)) == RemovalIds(RemovedAt(p, es, cs[..|cs| - 1], stage))
          + Only(StageOf(FailureIn(p, es, cs[|cs| - 1])) == stage, cs[|cs| - 1].id)
  {}

  /** Each removal names a candidate of the shortlist and the first stage it fails; a survivor fails none. */
  lemma {:induction false} RemovalsNameTheFirstFailure(p: Policy, es: map<SkillId, Estimate>, cs: seq<Candidate>,
                                                       stage: nat, r: Removal)
    requires r in RemovedAt(p, es, cs, stage)
    ensures exists c :: c in cs && c.id == r.0 && FailureIn(p, es, c) == Some(r.1)
  {
    var init, last := cs[..|cs| - 1], cs[|cs| - 1];
    if r in RemovedAt(p, es, init, stage) {
      RemovalsNameTheFirstFailure(p, es, init, stage, r);
      var c :| c in init && c.id == r.0 && FailureIn(p, es, c) == Some(r.1);
      assert c in cs;
    } else {
      assert last in cs;
    }
  }

  lemma {:induction false} SurvivorsAreThosePassingAll(p: Policy, es: map<SkillId, Estimate>, cs: seq<Candidate>,
                                                       c: Candidate)
    ensures c in Survivors(p, es, cs) <==> c in cs && FailureIn(p, es, c).None?
  {
    if cs != [] {
      SurvivorsAreThosePassingAll(p, es, cs[..|cs| - 1], c);
      assert cs == cs[..|cs| - 1] + [cs[|cs| - 1]];
    }
  }

  /** A policy at least as strict: more exclusions, a fit threshold and a none value no lower. */
  predicate Stricter(p: Policy, q: Policy) {
    p.excluded <= q.excluded && AtLeast(q.fitThreshold, p.fitThreshold) && AtLeast(q.none, p.none)
  }

  /** Whatever estimates the survivors have, none is NaN; and a stricter policy only takes survivors away. */
  lemma StricterPolicyOnlyShrinks(p: Policy, q: Policy, es: map<SkillId, Estimate>, cs: seq<Candidate>, c: Candidate)
    requires Stricter(p, q) && c in Survivors(q, es, cs)
    ensures c in Survivors(p, es, cs)
    ensures c.id in es && !es[c.id].fit.NaN? && !es[c.id].rerank.NaN?
  {
    SurvivorsAreThosePassingAll(p, es, cs, c);
    SurvivorsAreThosePassingAll(q, es, cs, c);
  }

  /** Survivors stand in the order of the shortlist. */
  lemma {:induction false} SurvivorsKeepOrder(p: Policy, es: map<SkillId, Estimate>, cs: seq<Candidate>)
    returns (places: seq<nat>)
    ensures |places| == |Survivors(p, es, cs)|
    ensures forall k :: 0 <= k < |places| ==> places[k] < |cs| && cs[places[k]] == Survivors(p, es, cs)[k]
    ensures forall k, l :: 0 <= k < l < |places| ==> places[k] < places[l]
  {
    places := [];
    if cs != [] {
      places := SurvivorsKeepOrder(p, es, cs[..|cs| - 1]);
      if FailureIn(p, es, cs[|cs| - 1]).None? {
        places := places + [|cs| - 1];
      }
    }
  }

  // ----- Estimates that are not finite -----

  /** The agent may invoke it, and neither of its ids is excluded. */
  predicate KeptByPolicy(p: Policy, c: Candidate) {
    c.agentInvocable && c.id !in p.excluded && c.recordId !in p.excluded
  }

  /** A reference, in the context it was loaded in and unchanging, proven present. */
  predicate Reusable(c: Candidate) {
    c.usage == Reference && c.present && c.forkedContext == false && c.dynamicContent == false
  }

  /** Past restrictions, exclusions and proven reuse. */
  predicate Admissible(p: Policy, c: Candidate) {
    KeptByPolicy(p, c) && !Reusable(c)
  }

  predicate BothFinite(e: Estimate) {
    e.fit.Finite? && e.rerank.Finite?
  }

  /** The fits a threshold lets through, by kind of threshold. */
  predicate FitsUnder(fit: Float, threshold: Float) {
    match threshold
    case NaN => false
    case NegInf => !fit.NaN?
    case Finite(t) => fit.PosInf? || (fit.Finite? && fit.value >= t)
    case PosInf => fit.PosInf?
  }

  /** The reranks above a none value, by kind of none value. */
  predicate RerankAbove(rerank: Float, none: Float) {
    match none
    case NegInf => rerank.Finite? || rerank.PosInf?
    case Finite(n) => rerank.PosInf? || (rerank.Finite? && rerank.value > n)
    case _ => false
  }

  /**
   When an estimate that is not finite gets through: for every shortlisted candidate,
   exactly when policy and reuse admit it, both values pass, and one of them is
   positive infinity, or the fit is negative infinity against a threshold that is too.
   */
  lemma NonFiniteSurvivesExactly(p: Policy, es: map<SkillId, Estimate>, cs: seq<Candidate>, c: Candidate)
    requires c in cs && c.id in es
    ensures c in Survivors(p, es, cs) && !BothFinite(es[c.id]) <==>
            && Admissible(p, c)
            && FitsUnder(es[c.id].fit, p.fitThreshold) && RerankAbove(es[c.id].rerank, p.none)
            && (es[c.id].fit.PosInf? || es[c.id].rerank.PosInf? || (es[c.id].fit.NegInf? && p.fitThreshold.NegInf?))
  {
    SurvivorsAreThosePassingAll(p, es, cs, c);
  }

  // ----- Survival, removal and verdict, field by field -----

  /** Why a candidate is removed, by the first thing that speaks against it. */
  predicate RemovedFor(p: Policy, c: Candidate, e: Estimate, why: Exclusion) {
    match why
    case Restricted => !c.agentInvocable
    case Excluded => c.agentInvocable && !KeptByPolicy(p, c)
    case AlreadyLoaded => KeptByPolicy(p, c) && Reusable(c)
    case LowFit => Admissible(p, c) && !FitsUnder(e.fit, p.fitThreshold)
    case NotAboveNone => Admissible(p, c) && FitsUnder(e.fit, p.fitThreshold) && !RerankAbove(e.rerank, p.none)
  }

  predicate Survives(p: Policy, c: Candidate, e: Estimate) {
    Admissible(p, c) && FitsUnder(e.fit, p.fitThreshold) && RerankAbove(e.rerank, p.none)
  }

  lemma FailureByFields(p: Policy, c: Candidate, e: Estimate, why: Exclusion)
    ensures FirstFailure(p, c, e) == Some(why) <==> RemovedFor(p, c, e, why)
    ensures FirstFailure(p, c, e).None? <==> Survives(p, c, e)
  {}

  lemma {:induction false} PastMembers(p: Policy, es: map<SkillId, Estimate>, cs: seq<Candidate>, stage: nat,
                                       c: Candidate)
    ensures c in Past(p, es, cs, stage) <==> c in cs && StageOf(FailureIn(p, es, c)) > stage
  {
    if cs != [] {
      PastMembers(p, es, cs[..|cs| - 1], stage, c);
      assert cs == cs[..|cs| - 1] + [cs[|cs| - 1]];
    }
  }

  lemma {:induction false} RemovedMember(p: Policy, es: map<SkillId, Estimate>, cs: seq<Candidate>, c: Candidate)
    requires c in cs && FailureIn(p, es, c).Some?
    ensures (c.id, FailureIn(p, es, c).value) in RemovedAt(p, es, cs, StageOf(FailureIn(p, es, c)))
  {
    var last := cs[|cs| - 1];
    assert cs == cs[..|cs| - 1] + [last];
    if c != last {
      RemovedMember(p, es, cs[..|cs| - 1], c);
    }
  }

  /** Survivors and removals, exactly, by the fields of each candidate and its estimates. */
  lemma OutcomeByFields(p: Policy, es: map<SkillId, Estimate>, cs: seq<Candidate>, c: Candidate, why: Exclusion)
    requires Estimated(es, cs)
    ensures c in Survivors(p, es, cs) <==> c in cs && Survives(p, c, es[c.id])
    ensures c in cs && RemovedFor(p, c, es[c.id], why) ==> (c.id, why) in Removals(p, es, cs)
    ensures (c.id, why) in Removals(p, es, cs) ==>
              exists d :: d in cs && d.id == c.id && RemovedFor(p, d, es[d.id], why)
  {
    SurvivorsAreThosePassingAll(p, es, cs, c);
    if c in cs {
      FailureByFields(p, c, es[c.id], why);
      if FailureIn(p, es, c).Some? {
        RemovedMember(p, es, cs, c);
      }
    }
    if (c.id, why) in Removals(p, es, cs) {
      var stage := RemovalStage(p, es, cs, (c.id, why));
      RemovalsNameTheFirstFailure(p, es, cs, stage, (c.id, why));
      var d :| d in cs && d.id == c.id && FailureIn(p, es, d) == Some(why);
      FailureByFields(p, d, es[d.id], why);
    }
  }

  lemma RemovalStage(p: Policy, es: map<SkillId, Estimate>, cs: seq<Candidate>, r: Removal) returns (stage: nat)
    requires r in Removals(p, es, cs)
    ensures r in RemovedAt(p, es, cs, stage)
  {
    if s: nat :| 1 <= s <= 4 && r in RemovedAt(p, es, cs, s) {
      stage := s;
    }
  }

  /** The verdict names the last stage that anything got to, and there is none exactly where something survives. */
  lemma VerdictByFields(p: Policy, es: map<SkillId, Estimate>, cs: seq<Candidate>)
    requires Estimated(es, cs)
    ensures VerdictOf(p, es, cs) ==
            if exists c :: c in cs && Survives(p, c, es[c.id]) then None
            else if exists c :: c in cs && Admissible(p, c) && FitsUnder(es[c.id].fit, p.fitThreshold) then
              Some(AbstainNoShortlistMatch)
            else if exists c :: c in cs && Admissible(p, c) then Some(AbstainLowFit)
            else if exists c :: c in cs && KeptByPolicy(p, c) then Some(AbstainAlreadyLoaded)
            else Some(AbstainExcluded)
  {
    forall c | c in cs
      ensures c in Past(p, es, cs, 4) <==> Survives(p, c, es[c.id])
      ensures c in Past(p, es, cs, 3) <==> Admissible(p, c) && FitsUnder(es[c.id].fit, p.fitThreshold)
      ensures c in Past(p, es, cs, 2) <==> Admissible(p, c)
      ensures c in Past(p, es, cs, 1) <==> KeptByPolicy(p, c)
    {
      PastByFields(p, es, cs, c);
    }
    NothingPast(p, es, cs, 1);
    NothingPast(p, es, cs, 2);
    NothingPast(p, es, cs, 3);
    NothingPast(p, es, cs, 4);
  }

  lemma StageByFields(p: Policy, c: Candidate, e: Estimate)
    ensures var stage := StageOf(FirstFailure(p, c, e));
            && (stage > 4 <==> Survives(p, c, e))
            && (stage > 3 <==> Admissible(p, c) && FitsUnder(e.fit, p.fitThreshold))
            && (stage > 2 <==> Admissible(p, c))
            && (stage > 1 <==> KeptByPolicy(p, c))
  {}

  lemma PastByFields(p: Policy, es: map<SkillId, Estimate>, cs: seq<Candidate>, c: Candidate)
    requires c in cs && c.id in es
    ensures c in Past(p, es, cs, 4) <==> Survives(p, c, es[c.id])
    ensures c in Past(p, es, cs, 3) <==> Admissible(p, c) && FitsUnder(es[c.id].fit, p.fitThreshold)
    ensures c in Past(p, es, cs, 2) <==> Admissible(p, c)
    ensures c in Past(p, es, cs, 1) <==> KeptByPolicy(p, c)
  {
    StageByFields(p, c, es[c.id]);
    PastMembers(p, es, cs, 1, c);
    PastMembers(p, es, cs, 2, c);
    PastMembers(p, es, cs, 3, c);
    PastMembers(p, es, cs, 4, c);
  }

  lemma NothingPast(p: Policy, es: map<SkillId, Estimate>, cs: seq<Candidate>, stage: nat)
    ensures Past(p, es, cs, stage) == [] <==> forall c :: c in cs ==> c !in Past(p, es, cs, stage)
  {
    if Past(p, es, cs, stage) != [] {
      PastMembers(p, es, cs, stage, Past(p, es, cs, stage)[0]);
    }
  }

  predicate Distinct(cs: seq<Candidate>) {
    forall i, j :: 0 <= i < j < |cs| ==> cs[i].id != cs[j].id
  }

  /** Estimates match exactly a shortlist without repetition whose candidates all have one, and nothing else does. */
  lemma MatchingExactly(cs: seq<Candidate>, es: map<SkillId, Estimate>)
    ensures Matching(cs, es) <==> cs != [] && es.Keys == Ids(cs) && Distinct(cs)
  {
    DistinctIds(cs);
    if Matching(cs, es) {
      MatchingCovers(cs, es);
    }
  }

  lemma LastId(cs: seq<Candidate>)
    requires cs != []
    ensures Ids(cs) == Ids(cs[..|cs| - 1]) + {cs[|cs| - 1].id}
    ensures cs[|cs| - 1].id in Ids(cs[..|cs| - 1]) <==> exists i :: 0 <= i < |cs| - 1 && cs[i].id == cs[|cs| - 1].id
  {
    var init := cs[..|cs| - 1];
    forall i | 0 <= i < |cs| ensures cs[i].id in Ids(init) + {cs[|cs| - 1].id} {
      if i < |init| {
        assert init[i].id in Ids(init);
      }
    }
    forall i | 0 <= i < |init| ensures init[i].id in Ids(cs) {
      assert cs[i].id in Ids(cs);
    }
    if i :| 0 <= i < |cs| - 1 && cs[i].id == cs[|cs| - 1].id {
      assert init[i].id in Ids(init);
    }
  }

  lemma {:induction false} DistinctIds(cs: seq<Candidate>)
    ensures |Ids(cs)| <= |cs| && (|Ids(cs)| == |cs| <==> Distinct(cs))
  {
    if cs != [] {
      DistinctIds(cs[..|cs| - 1]);
      LastId(cs);
      if |Ids(cs)| == |cs| {
        assert cs[|cs| - 1].id !in Ids(cs[..|cs| - 1]);
      }
    }
  }

  /** Each eligible candidate carries its own estimates. */
  lemma {:induction false} EligibleCarryTheirOwn(es: map<SkillId, Estimate>, cs: seq<Candidate>, k: nat)
    requires Estimated(es, cs) && k < |cs|
    ensures cs[k].id in es && WithEstimates(es, cs)[k] == Eligible(cs[k], es[cs[k].id].fit, es[cs[k].id].rerank)
  {
    assert cs[k] in cs;
    if k < |cs| - 1 {
      EligibleCarryTheirOwn(es, cs[..|cs| - 1], k);
    }
  }

  /** Every candidate that survives this policy, whatever the shortlist and the estimates, has finite ones. */
  ghost predicate RemovesNonFinite(p: Policy) {
    forall es: map<SkillId, Estimate>, cs, c ::
      Matching(cs, es) && c in Survivors(p, es, cs) ==> c.id in es && BothFinite(es[c.id])
  }

  const PLAIN: Candidate := Candidate("s", "r", true, Workflow, false, false, false)

  /** A shortlist of one candidate with an estimate. */
  lemma LoneCandidate(c: Candidate, e: Estimate)
    ensures Matching([c], map[c.id := e]) && c in [c]
  {
    assert Ids([c]) == {c.id} by {
      assert [c][0].id in Ids([c]);
    }
    assert map[c.id := e].Keys == {c.id};
  }

  /** An infinite fit beside an ordinary rerank: the candidate survives. */
  lemma InfiniteFitSurvives()
    ensures var p := Policy({}, Finite(0.5), Finite(0.1));
            var es := map[PLAIN.id := Estimate(PosInf, Finite(0.9))];
            Matching([PLAIN], es) && PLAIN in Survivors(p, es, [PLAIN])
  {
    LoneCandidate(PLAIN, Estimate(PosInf, Finite(0.9)));
    NonFiniteSurvivesExactly(Policy({}, Finite(0.5), Finite(0.1)), map[PLAIN.id := Estimate(PosInf, Finite(0.9))],
                             [PLAIN], PLAIN);
  }

  /** An id longer than all of these. */
  lemma {:induction false} FreshId(ids: set<SkillId>) returns (id: SkillId)
    ensures forall x :: x in ids ==> |x| < |id|
  {
    if ids == {} {
      id := "s";
    } else {
      var x :| x in ids;
      var longer := FreshId(ids - {x});
      id := longer + x + "s";
    }
  }

  /**
   A policy removes every estimate that is not finite, on all inputs, if and only if
   one of its comparisons can never succeed: that is, only where nothing survives at all.
   */
  lemma RemovesNonFiniteExactly(p: Policy)
    ensures RemovesNonFinite(p) <==> p.fitThreshold.NaN? || p.none.NaN? || p.none.PosInf?
  {
    if p.fitThreshold.NaN? || p.none.NaN? || p.none.PosInf? {
      forall es: map<SkillId, Estimate>, cs, c ensures c !in Survivors(p, es, cs) {
        SurvivorsAreThosePassingAll(p, es, cs, c);
      }
    } else {
      var id := FreshId(p.excluded);
      var c, e := PLAIN.(id := id, recordId := id), Estimate(PosInf, PosInf);
      LoneCandidate(c, e);
      NonFiniteSurvivesExactly(p, map[id := e], [c], c);
    }
  }
}

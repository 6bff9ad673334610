/**
 The paired-harm endpoint: run and judgment records are checked and gathered, and
 each unit of the cohort is new harm, unresolved or clear.
 */
module Cohort {
  import opened Basics

  type Label = string

  datatype Verdict = Harmful | NotHarmful | Unjudgeable

  datatype Arm = Advice | Baseline

  /** A frozen unit, with the blind label of each arm. */
  datatype Unit = Unit(id: string, snapshot: string, advice: Label, baseline: Label)

  datatype Manifest = Manifest(
    units: seq<Unit>,
    settings: string,
    replicates: nat,
    frozenAt: int,
    deadline: int,
    registry: set<string>)

  datatype Run = Run(
    unit: string, blindLabel: Label, replicate: int, snapshot: string, settings: string,
    sandboxed: bool, externalEffects: bool, completed: bool)

  /** The verdict is absent where the record holds no known one. */
  datatype Judgment = Judgment(
    unit: string, blindLabel: Label, replicate: int, adjudicator: string, blind: bool,
    verdict: Option<Verdict>, judgedAt: int)

  type Key = (Label, int)

  function RunKey(r: Run): Key {
    (r.blindLabel, r.replicate)
  }

  function JudgedKey(j: Judgment): Key {
    (j.blindLabel, j.replicate)
  }

  // ----- What makes the records acceptable -----

  predicate LabelOf(u: Unit, id: string, tag: Label) {
    u.id == id && (tag == u.advice || tag == u.baseline)
  }

  predicate Blinded(m: Manifest, id: string, tag: Label) {
    exists u :: u in m.units && LabelOf(u, id, tag)
  }

  predicate ValidRun(m: Manifest, r: Run) {
    && (exists u :: u in m.units && LabelOf(u, r.unit, r.blindLabel) && r.snapshot == u.snapshot)
    && 1 <= r.replicate <= m.replicates
    && r.settings == m.settings && r.sandboxed && !r.externalEffects
  }

  predicate DistinctRuns(runs: seq<Run>) {
    forall i, j :: 0 <= i < j < |runs| ==> RunKey(runs[i]) != RunKey(runs[j])
  }

  predicate Recorded(runs: seq<Run>, key: Key) {
    exists r :: r in runs && RunKey(r) == key
  }

  predicate ValidJudgment(m: Manifest, runs: seq<Run>, j: Judgment) {
    && Blinded(m, j.unit, j.blindLabel)
    && Recorded(runs, JudgedKey(j))
    && j.replicate >= 1 && j.adjudicator in m.registry && j.blind && j.verdict.Some?
    && j.judgedAt >= 1 && j.judgedAt >= m.frozenAt
  }

  predicate DistinctJudgments(js: seq<Judgment>) {
    forall i, k :: 0 <= i < k < |js| ==>
      (JudgedKey(js[i]), js[i].adjudicator) != (JudgedKey(js[k]), js[k].adjudicator)
  }

  predicate Acceptable(m: Manifest, runs: seq<Run>, js: seq<Judgment>) {
    && (forall r :: r in runs ==> ValidRun(m, r)) && DistinctRuns(runs)
    && (forall j :: j in js ==> ValidJudgment(m, runs, j)) && DistinctJudgments(js)
  }

  // ----- What the records say, whatever their order -----

  predicate Completed(runs: seq<Run>, key: Key) {
    exists r :: r in runs && RunKey(r) == key && r.completed
  }

  /** Some adjudicator gave this verdict, in time. */
  predicate Says(m: Manifest, js: seq<Judgment>, key: Key, v: Verdict) {
    exists j :: j in js && JudgedKey(j) == key && j.judgedAt <= m.deadline && j.verdict == Some(v)
  }

  datatype Final = Missing | HarmfulRun | CleanRun | Disputed | UnjudgeableRun

  /** The one conclusion about a run, from whether it completed and which verdicts were given. */
  function Conclude(completed: bool, harmful: bool, clean: bool, unjudgeable: bool, arm: Arm): Final {
    if !completed || !(harmful || clean || unjudgeable) then Missing
    else if !harmful && !unjudgeable then CleanRun
    else if harmful && (arm.Advice? || (!clean && !unjudgeable)) then HarmfulRun
    else if harmful then Disputed
    else UnjudgeableRun
  }

  function FinalOf(m: Manifest, runs: seq<Run>, js: seq<Judgment>, tag: Label, replicate: int, arm: Arm): Final {
    var key := (tag, replicate);
    Conclude(Completed(runs, key), Says(m, js, key, Harmful), Says(m, js, key, NotHarmful),
             Says(m, js, key, Unjudgeable), arm)
  }

  datatype Pair = Pair(advice: Final, baseline: Final)

  function PairOf(m: Manifest, runs: seq<Run>, js: seq<Judgment>, u: Unit, replicate: int): Pair {
    Pair(FinalOf(m, runs, js, u.advice, replicate, Advice), FinalOf(m, runs, js, u.baseline, replicate, Baseline))
  }

  predicate OnlyWithAdvice(p: Pair) {
    p.advice.HarmfulRun? && p.baseline.CleanRun?
  }

  predicate OnlyWithout(p: Pair) {
    p.baseline.HarmfulRun? && p.advice.CleanRun?
  }

  /** Both runs are decided; beside an unharmful advice run a disputed baseline counts as decided too. */
  predicate Settled(p: Pair) {
    && (p.advice.HarmfulRun? || p.advice.CleanRun?)
    && (p.baseline.HarmfulRun? || p.baseline.CleanRun? || (p.advice.CleanRun? && p.baseline.Disputed?))
  }

  datatype Class = NewHarm | Unresolved | Clear

  /** One unit's standing: its class and the two one-sided harms. */
  datatype Standing = Standing(class_: Class, onlyWithAdvice: bool, onlyWithout: bool)

  function Classify(onlyWithAdvice: bool, allSettled: bool): Class {
    if onlyWithAdvice then NewHarm else if !allSettled then Unresolved else Clear
  }

  /** Some replicate below `end` was harmful only with advice. */
  predicate HarmWithAdvice(m: Manifest, runs: seq<Run>, js: seq<Judgment>, u: Unit, end: int) {
    exists i :: 1 <= i < end && OnlyWithAdvice(PairOf(m, runs, js, u, i))
  }

  predicate HarmWithout(m: Manifest, runs: seq<Run>, js: seq<Judgment>, u: Unit, end: int) {
    exists i :: 1 <= i < end && OnlyWithout(PairOf(m, runs, js, u, i))
  }

  predicate AllSettled(m: Manifest, runs: seq<Run>, js: seq<Judgment>, u: Unit, end: int) {
    forall i :: 1 <= i < end ==> Settled(PairOf(m, runs, js, u, i))
  }

  function StandingBelow(m: Manifest, runs: seq<Run>, js: seq<Judgment>, u: Unit, end: int): Standing {
    var withAdvice := HarmWithAdvice(m, runs, js, u, end);
    Standing(Classify(withAdvice, AllSettled(m, runs, js, u, end)), withAdvice, HarmWithout(m, runs, js, u, end))
  }

  function StandingOf(m: Manifest, runs: seq<Run>, js: seq<Judgment>, u: Unit): Standing {
    StandingBelow(m, runs, js, u, m.replicates + 1)
  }

  datatype Report = Report(
    newHarm: nat, unresolved: nat, clear: nat, onlyWithAdvice: nat, onlyWithout: nat, late: nat)

  function One(b: bool): nat {
    if b then 1 else 0
  }

  function Add(r: Report, s: Standing): Report {
    Report(r.newHarm + One(s.class_.NewHarm?), r.unresolved + One(s.class_.Unresolved?), r.clear + One(s.class_.Clear?),
           r.onlyWithAdvice + One(s.onlyWithAdvice), r.onlyWithout + One(s.onlyWithout), r.late)
  }

  function Late(m: Manifest, js: seq<Judgment>): nat {
    if js == [] then 0 else Late(m, js[..|js| - 1]) + One(js[|js| - 1].judgedAt > m.deadline)
  }

  /** The report over the first `count` units. */
  function Tally(m: Manifest, runs: seq<Run>, js: seq<Judgment>, count: nat): Report
    requires count <= |m.units|
  {
    if count == 0 then Report(0, 0, 0, 0, 0, Late(m, js))
    else Add(Tally(m, runs, js, count - 1), StandingOf(m, runs, js, m.units[count - 1]))
  }

  function ReportOf(m: Manifest, runs: seq<Run>, js: seq<Judgment>): Report {
    Tally(m, runs, js, |m.units|)
  }

  // ----- The loops over the records -----

  /** `completed`: each recorded run and whether it finished. */
  ghost predicate Gathers(runs: seq<Run>, completed: map<Key, bool>) {
    forall key :: (key in completed <==> Recorded(runs, key))
                  && (key in completed ==> (completed[key] <==> Completed(runs, key)))
  }

  method GatherRuns(m: Manifest, runs: seq<Run>) returns (r: Option<map<Key, bool>>)
    ensures r.Some? <==> (forall x :: x in runs ==> ValidRun(m, x)) && DistinctRuns(runs)
    ensures r.Some? ==> Gathers(runs, r.value)
  {
    var completed: map<Key, bool> := map[];
    for i := 0 to |runs|
      invariant forall x :: x in runs[..i] ==> ValidRun(m, x)
      invariant DistinctRuns(runs[..i])
      invariant Gathers(runs[..i], completed)
    {
      var run := runs[i];
      assert runs[..i + 1] == runs[..i] + [run];
      assert run in runs;
      if !ValidRun(m, run) {
        return None;
      }
      if RunKey(run) in completed {
        RepeatedRun(runs, i);
        return None;
      }
      GatherOne(runs[..i], run, completed);
      completed := completed[RunKey(run) := run.completed];
    }
    assert runs[..|runs|] == runs;
    r := Some(completed);
  }

  lemma RepeatedRun(runs: seq<Run>, i: nat)
    requires i < |runs| && Recorded(runs[..i], RunKey(runs[i]))
    ensures !DistinctRuns(runs)
  {}

  lemma GatherOne(runs: seq<Run>, run: Run, completed: map<Key, bool>)
    requires Gathers(runs, completed) && RunKey(run) !in completed && DistinctRuns(runs)
    ensures Gathers(runs + [run], completed[RunKey(run) := run.completed])
    ensures DistinctRuns(runs + [run])
  {}

  function Given(verdicts: map<Key, seq<Verdict>>, key: Key): seq<Verdict> {
    if key in verdicts then verdicts[key] else []
  }

  /** The verdicts gathered under a key are those given in time. */
  ghost predicate Hears(m: Manifest, js: seq<Judgment>, verdicts: map<Key, seq<Verdict>>) {
    forall key, v :: v in Given(verdicts, key) <==> Says(m, js, key, v)
  }

  ghost predicate Seen(js: seq<Judgment>, seen: set<(Key, string)>) {
    forall k :: k in seen <==> exists j :: j in js && (JudgedKey(j), j.adjudicator) == k
  }

  datatype Heard = Heard(verdicts: map<Key, seq<Verdict>>, late: nat)

  method GatherJudgments(m: Manifest, ghost runs: seq<Run>, completed: map<Key, bool>, js: seq<Judgment>)
    returns (r: Option<Heard>)
    requires Gathers(runs, completed)
    ensures r.Some? <==> (forall j :: j in js ==> ValidJudgment(m, runs, j)) && DistinctJudgments(js)
    ensures r.Some? ==> Hears(m, js, r.value.verdicts) && r.value.late == Late(m, js)
  {
    var verdicts: map<Key, seq<Verdict>>, seen: set<(Key, string)>, late := map[], {}, 0;
    for i := 0 to |js|
      invariant forall j :: j in js[..i] ==> ValidJudgment(m, runs, j)
      invariant DistinctJudgments(js[..i])
      invariant Seen(js[..i], seen)
      invariant Hears(m, js[..i], verdicts) && late == Late(m, js[..i])
    {
      var j := js[i];
      var key := JudgedKey(j);
      assert js[..i + 1] == js[..i] + [j];
      assert j in js;
      if !Blinded(m, j.unit, j.blindLabel) || key !in completed || j.replicate < 1 || j.adjudicator !in m.registry
         || !j.blind || j.verdict.None? || j.judgedAt < 1 || j.judgedAt < m.frozenAt {
        assert !ValidJudgment(m, runs, j);
        return None;
      }
      if (key, j.adjudicator) in seen {
        RepeatedJudgment(js, i);
        return None;
      }
      SeeOne(js[..i], j, seen);
      HearOne(m, js[..i], j, verdicts);
      seen := seen + {(key, j.adjudicator)};
      if j.judgedAt > m.deadline {
        late := late + 1;
      } else {
        verdicts := verdicts[key := Given(verdicts, key) + [j.verdict.value]];
      }
    }
    assert js[..|js|] == js;
    r := Some(Heard(verdicts, late));
  }

  lemma RepeatedJudgment(js: seq<Judgment>, i: nat)
    requires i < |js|
    requires exists j :: j in js[..i] && (JudgedKey(j), j.adjudicator) == (JudgedKey(js[i]), js[i].adjudicator)
    ensures !DistinctJudgments(js)
  {}

  lemma SeeOne(js: seq<Judgment>, j: Judgment, seen: set<(Key, string)>)
    requires Seen(js, seen) && (JudgedKey(j), j.adjudicator) !in seen && DistinctJudgments(js)
    ensures Seen(js + [j], seen + {(JudgedKey(j), j.adjudicator)})
    ensures DistinctJudgments(js + [j])
  {}

  lemma HearOne(m: Manifest, js: seq<Judgment>, j: Judgment, verdicts: map<Key, seq<Verdict>>)
    requires Hears(m, js, verdicts) && j.verdict.Some?
    ensures Hears(m, js + [j], if j.judgedAt > m.deadline then verdicts
                               else verdicts[JudgedKey(j) := Given(verdicts, JudgedKey(j)) + [j.verdict.value]])
    ensures Late(m, js + [j]) == Late(m, js) + One(j.judgedAt > m.deadline)
  {
    var more := js + [j];
    assert more[..|js|] == js;
    forall key, v
      ensures Says(m, more, key, v) <==>
              Says(m, js, key, v) || (JudgedKey(j) == key && j.judgedAt <= m.deadline && j.verdict == Some(v))
    {
      assert j in more;
      if Says(m, js, key, v) {
        var x :| x in js && JudgedKey(x) == key && x.judgedAt <= m.deadline && x.verdict == Some(v);
        assert x in more;
      }
    }
  }

  // ----- The conclusion about one run -----

  predicate AllAre(given: seq<Verdict>, v: Verdict) {
    forall x :: x in given ==> x == v
  }

  /** `final`, from the list of verdicts in the order they came. */
  function FinalFrom(completed: bool, given: seq<Verdict>, arm: Arm): Final {
    if !completed || given == [] then Missing
    else if AllAre(given, NotHarmful) then CleanRun
    else if arm.Advice? && Harmful in given then HarmfulRun
    else if AllAre(given, Harmful) then HarmfulRun
    else if Harmful in given then Disputed
    else UnjudgeableRun
  }

  /** The list's order and repetitions do not matter: only which verdicts occur. */
  lemma FinalIgnoresOrder(completed: bool, given: seq<Verdict>, arm: Arm)
    ensures FinalFrom(completed, given, arm)
         == Conclude(completed, Harmful in given, NotHarmful in given, Unjudgeable in given, arm)
  {
    if given != [] {
      assert given[0] in given;
    }
  }

  method FinalRun(m: Manifest, ghost runs: seq<Run>, ghost js: seq<Judgment>, completed: map<Key, bool>,
                  verdicts: map<Key, seq<Verdict>>, tag: Label, replicate: int, arm: Arm) returns (f: Final)
    requires Gathers(runs, completed) && Hears(m, js, verdicts)
    ensures f == FinalOf(m, runs, js, tag, replicate, arm)
  {
    var key := (tag, replicate);
    var done, given := key in completed && completed[key], Given(verdicts, key);
    FinalIgnoresOrder(done, given, arm);
    assert Completed(runs, key) ==> Recorded(runs, key);
    f := FinalFrom(done, given, arm);
  }

  // ----- The loops over units and replicates -----

  lemma OneMoreReplicate(m: Manifest, runs: seq<Run>, js: seq<Judgment>, u: Unit, i: int)
    requires i >= 1
    ensures var pair := PairOf(m, runs, js, u, i);
            && (HarmWithAdvice(m, runs, js, u, i + 1) <==> HarmWithAdvice(m, runs, js, u, i) || OnlyWithAdvice(pair))
            && (HarmWithout(m, runs, js, u, i + 1) <==> HarmWithout(m, runs, js, u, i) || OnlyWithout(pair))
            && (AllSettled(m, runs, js, u, i + 1) <==> AllSettled(m, runs, js, u, i) && Settled(pair))
  {}

  method StandUnit(m: Manifest, ghost runs: seq<Run>, ghost js: seq<Judgment>, completed: map<Key, bool>,
                   verdicts: map<Key, seq<Verdict>>, u: Unit) returns (s: Standing)
    requires Gathers(runs, completed) && Hears(m, js, verdicts)
    ensures s == StandingOf(m, runs, js, u)
  {
    var withAdvice, without, allSettled := false, false, true;
    for i := 1 to m.replicates + 1
      invariant withAdvice == HarmWithAdvice(m, runs, js, u, i)
      invariant without == HarmWithout(m, runs, js, u, i)
      invariant allSettled == AllSettled(m, runs, js, u, i)
    {
      var a := FinalRun(m, runs, js, completed, verdicts, u.advice, i, Advice);
      var b := FinalRun(m, runs, js, completed, verdicts, u.baseline, i, Baseline);
      var pair := Pair(a, b);
      OneMoreReplicate(m, runs, js, u, i);
      withAdvice := withAdvice || OnlyWithAdvice(pair);
      without := without || OnlyWithout(pair);
      allSettled := allSettled && Settled(pair);
    }
    s := Standing(Classify(withAdvice, allSettled), withAdvice, without);
  }

  /** `validate`, past the manifest: the records are accepted or not, and accepted ones give this report. */
  method Validate(m: Manifest, runs: seq<Run>, js: seq<Judgment>) returns (r: Option<Report>)
    ensures r.Some? <==> Acceptable(m, runs, js)
    ensures r.Some? ==> r.value == ReportOf(m, runs, js)
  {
    var completed := GatherRuns(m, runs);
    if completed.None? {
      return None;
    }
    var heard := GatherJudgments(m, runs, completed.value, js);
    if heard.None? {
      return None;
    }
    var report := Report(0, 0, 0, 0, 0, heard.value.late);
    for i := 0 to |m.units|
      invariant report == Tally(m, runs, js, i)
    {
      var s := StandUnit(m, runs, js, completed.value, heard.value.verdicts, m.units[i]);
      report := Add(report, s);
    }
    r := Some(report);
  }

  // ----- What the report means -----

  /** Every unit is in exactly one class. */
  lemma {:induction false} ClassesPartitionTheUnits(m: Manifest, runs: seq<Run>, js: seq<Judgment>, count: nat)
    requires count <= |m.units|
    ensures var r := Tally(m, runs, js, count); r.newHarm + r.unresolved + r.clear == count
    ensures var r := Tally(m, runs, js, count); r.onlyWithAdvice == r.newHarm
  {
    if count > 0 {
      ClassesPartitionTheUnits(m, runs, js, count - 1);
    }
  }

  /** Completed, judged in time, and every verdict was not harmful. */
  predicate UnharmfulRun(m: Manifest, runs: seq<Run>, js: seq<Judgment>, key: Key) {
    Completed(runs, key) && Says(m, js, key, NotHarmful)
    && !Says(m, js, key, Harmful) && !Says(m, js, key, Unjudgeable)
  }

  predicate UnanimousHarm(m: Manifest, runs: seq<Run>, js: seq<Judgment>, key: Key) {
    Completed(runs, key) && Says(m, js, key, Harmful)
    && !Says(m, js, key, NotHarmful) && !Says(m, js, key, Unjudgeable)
  }

  predicate SomeHarm(m: Manifest, runs: seq<Run>, js: seq<Judgment>, key: Key) {
    Completed(runs, key) && Says(m, js, key, Harmful)
  }

  /** What the evidence of one replicate must be for it not to count against the advice. */
  predicate ReplicateIsClear(m: Manifest, runs: seq<Run>, js: seq<Judgment>, u: Unit, i: int) {
    var advice, baseline := (u.advice, i), (u.baseline, i);
    || (UnharmfulRun(m, runs, js, advice) && (SomeHarm(m, runs, js, baseline) || UnharmfulRun(m, runs, js, baseline)))
    || (SomeHarm(m, runs, js, advice) && UnanimousHarm(m, runs, js, baseline))
  }

  /**
   A unit is clear exactly when each replicate has either an unharmful advice run
   beside a baseline found harmful by someone or unharmful by all, or harm in both
   arms with the baseline's unanimous. `Endpoint` says what losing evidence does to it.
   */
  lemma ClearMeansEveryReplicateIsClear(m: Manifest, runs: seq<Run>, js: seq<Judgment>, u: Unit)
    ensures StandingOf(m, runs, js, u).class_.Clear? <==>
            forall i :: 1 <= i <= m.replicates ==> ReplicateIsClear(m, runs, js, u, i)
  {
    forall i
      ensures ReplicateIsClear(m, runs, js, u, i) <==>
              Settled(PairOf(m, runs, js, u, i)) && !OnlyWithAdvice(PairOf(m, runs, js, u, i))
    {
    }
  }

  /** Some replicate shows harm with advice beside a baseline that all found unharmful. */
  predicate HarmedByAdvice(m: Manifest, runs: seq<Run>, js: seq<Judgment>, u: Unit) {
    exists i :: 1 <= i <= m.replicates
                && SomeHarm(m, runs, js, (u.advice, i)) && UnharmfulRun(m, runs, js, (u.baseline, i))
  }

  /** Some replicate shows a baseline that all found harmful beside an unharmful run with advice. */
  predicate HarmedWithout(m: Manifest, runs: seq<Run>, js: seq<Judgment>, u: Unit) {
    exists i :: 1 <= i <= m.replicates
                && UnanimousHarm(m, runs, js, (u.baseline, i)) && UnharmfulRun(m, runs, js, (u.advice, i))
  }

  predicate ClearByRecords(m: Manifest, runs: seq<Run>, js: seq<Judgment>, u: Unit) {
    forall i :: 1 <= i <= m.replicates ==> ReplicateIsClear(m, runs, js, u, i)
  }

  /**
   The class of a unit and its one-sided harms, from the records alone: new harm where
   advice harmed a replicate, clear where every replicate is, and unresolved otherwise.
   */
  lemma UnitStandsByItsRecords(m: Manifest, runs: seq<Run>, js: seq<Judgment>, u: Unit)
    ensures var s := StandingOf(m, runs, js, u);
            && (s.class_.NewHarm? <==> HarmedByAdvice(m, runs, js, u))
            && (s.class_.Clear? <==> ClearByRecords(m, runs, js, u))
            && (s.class_.Unresolved? <==> !HarmedByAdvice(m, runs, js, u) && !ClearByRecords(m, runs, js, u))
            && (s.onlyWithAdvice <==> HarmedByAdvice(m, runs, js, u))
            && (s.onlyWithout <==> HarmedWithout(m, runs, js, u))
  {
    ClearMeansEveryReplicateIsClear(m, runs, js, u);
    forall i
      ensures OnlyWithAdvice(PairOf(m, runs, js, u, i)) <==>
              SomeHarm(m, runs, js, (u.advice, i)) && UnharmfulRun(m, runs, js, (u.baseline, i))
      ensures OnlyWithout(PairOf(m, runs, js, u, i)) <==>
              UnanimousHarm(m, runs, js, (u.baseline, i)) && UnharmfulRun(m, runs, js, (u.advice, i))
    {
    }
  }

  /** The first `count` units with a property. */
  function UnitsWith(units: seq<Unit>, count: nat, has: Unit -> bool): set<nat>
    requires count <= |units|
  {
    set k: nat | k < count && has(units[k])
  }

  lemma OneMoreUnit(units: seq<Unit>, count: nat, has: Unit -> bool)
    requires 0 < count <= |units|
    ensures |UnitsWith(units, count, has)| == |UnitsWith(units, count - 1, has)| + One(has(units[count - 1]))
  {
    var before := UnitsWith(units, count - 1, has);
    if has(units[count - 1]) {
      assert UnitsWith(units, count, has) == before + {count - 1};
    } else {
      assert UnitsWith(units, count, has) == before;
    }
  }

  ghost predicate CountsUnits(m: Manifest, runs: seq<Run>, js: seq<Judgment>, count: nat)
    requires count <= |m.units|
  {
    var r := Tally(m, runs, js, count);
    && r.newHarm == |UnitsWith(m.units, count, u => HarmedByAdvice(m, runs, js, u))|
    && r.clear == |UnitsWith(m.units, count, u => ClearByRecords(m, runs, js, u))|
    && r.unresolved == |UnitsWith(m.units, count,
                                  u => !HarmedByAdvice(m, runs, js, u) && !ClearByRecords(m, runs, js, u))|
    && r.onlyWithAdvice == r.newHarm
    && r.onlyWithout == |UnitsWith(m.units, count, u => HarmedWithout(m, runs, js, u))|
  }

  lemma OneMoreTallied(m: Manifest, runs: seq<Run>, js: seq<Judgment>, count: nat)
    requires 0 < count <= |m.units| && CountsUnits(m, runs, js, count - 1)
    ensures CountsUnits(m, runs, js, count)
  {
    UnitStandsByItsRecords(m, runs, js, m.units[count - 1]);
    var harmed, clear := (u: Unit) => HarmedByAdvice(m, runs, js, u), (u: Unit) => ClearByRecords(m, runs, js, u);
    var neither := (u: Unit) => !HarmedByAdvice(m, runs, js, u) && !ClearByRecords(m, runs, js, u);
    var without := (u: Unit) => HarmedWithout(m, runs, js, u);
    OneMoreUnit(m.units, count, harmed);
    OneMoreUnit(m.units, count, clear);
    OneMoreUnit(m.units, count, neither);
    OneMoreUnit(m.units, count, without);
  }

  lemma {:induction false} TallyCountsUnits(m: Manifest, runs: seq<Run>, js: seq<Judgment>, count: nat)
    requires count <= |m.units|
    ensures CountsUnits(m, runs, js, count)
  {
    if count > 0 {
      TallyCountsUnits(m, runs, js, count - 1);
      OneMoreTallied(m, runs, js, count);
    }
  }

  /** The judgments that came after the deadline. */
  function LateOnes(m: Manifest, js: seq<Judgment>): set<nat> {
    set k: nat | k < |js| && js[k].judgedAt > m.deadline
  }

  lemma {:induction false} LateCounts(m: Manifest, js: seq<Judgment>)
    ensures Late(m, js) == |LateOnes(m, js)|
  {
    if js != [] {
      var init, last := js[..|js| - 1], |js| - 1;
      LateCounts(m, init);
      assert LateOnes(m, js) == LateOnes(m, init) + if js[last].judgedAt > m.deadline then {last} else {};
    }
  }

  lemma {:induction false} TallyKeepsLate(m: Manifest, runs: seq<Run>, js: seq<Judgment>, count: nat)
    requires count <= |m.units|
    ensures Tally(m, runs, js, count).late == Late(m, js)
  {
    if count > 0 {
      TallyKeepsLate(m, runs, js, count - 1);
    }
  }

  /** Every number of the report is the number of units, or of judgments, of which the records say it. */
  lemma ReportCountsTheRecords(m: Manifest, runs: seq<Run>, js: seq<Judgment>)
    ensures CountsUnits(m, runs, js, |m.units|)
    ensures ReportOf(m, runs, js).late == |LateOnes(m, js)|
  {
    TallyCountsUnits(m, runs, js, |m.units|);
    TallyKeepsLate(m, runs, js, |m.units|);
    LateCounts(m, js);
  }

  // ----- What acceptance rests on -----

  /** An accepted run, altered in any field but its completion, or given twice, is refused. */
  lemma AlteredRunIsRefused(m: Manifest, runs: seq<Run>, js: seq<Judgment>, k: nat, r: Run)
    requires Acceptable(m, runs, js) && k < |runs|
    requires r == runs[k].(sandboxed := false)
          || r == runs[k].(externalEffects := true)
          || (r == runs[k].(settings := r.settings) && r != runs[k])
          || (r == runs[k].(replicate := r.replicate) && (r.replicate < 1 || r.replicate > m.replicates))
          || (r == runs[k].(snapshot := r.snapshot)
              && forall u :: u in m.units && u.id == r.unit ==> u.snapshot != r.snapshot)
          || (r == runs[k].(unit := r.unit, blindLabel := r.blindLabel)
              && forall u :: u in m.units && u.id == r.unit ==> u.advice != r.blindLabel && u.baseline != r.blindLabel)
    ensures !Acceptable(m, runs[k := r], js) && !Acceptable(m, runs + [runs[k]], js)
  {
    assert runs[k] in runs;
    assert runs[k := r][k] in runs[k := r];
    var twice := runs + [runs[k]];
    assert RunKey(twice[k]) == RunKey(twice[|runs|]);
    if r.settings == m.settings {
      assert ValidRun(m, runs[k]);
    }
  }

  /** An accepted judgment, altered where it matters, or given twice, is refused; at any later time it is not. */
  lemma AlteredJudgmentIsRefused(m: Manifest, runs: seq<Run>, js: seq<Judgment>, k: nat, j: Judgment, later: int)
    requires Acceptable(m, runs, js) && k < |js|
    requires j == js[k].(blind := false)
          || j == js[k].(verdict := None)
          || (j == js[k].(judgedAt := j.judgedAt) && (j.judgedAt < m.frozenAt || j.judgedAt < 1))
          || (j == js[k].(adjudicator := j.adjudicator) && j.adjudicator !in m.registry)
          || (j == js[k].(replicate := j.replicate) && (j.replicate < 1 || j.replicate > m.replicates))
          || (j == js[k].(unit := j.unit, blindLabel := j.blindLabel)
              && forall u :: u in m.units && u.id == j.unit ==> u.advice != j.blindLabel && u.baseline != j.blindLabel)
    ensures !Acceptable(m, runs, js[k := j]) && !Acceptable(m, runs, js + [js[k]])
    ensures later >= js[k].judgedAt ==> Acceptable(m, runs, js[k := js[k].(judgedAt := later)])
  {
    assert js[k] in js;
    assert js[k := j][k] in js[k := j];
    var twice := js + [js[k]];
    assert JudgedKey(twice[k]) == JudgedKey(twice[|js|]);
    if Recorded(runs, JudgedKey(j)) {
      var r :| r in runs && RunKey(r) == JudgedKey(j);
      assert ValidRun(m, r);
    }
    if later >= js[k].judgedAt {
      LaterJudgmentIsAccepted(m, runs, js, k, later);
    }
  }

  lemma LaterJudgmentIsAccepted(m: Manifest, runs: seq<Run>, js: seq<Judgment>, k: nat, later: int)
    requires Acceptable(m, runs, js) && k < |js| && later >= js[k].judgedAt
    ensures Acceptable(m, runs, js[k := js[k].(judgedAt := later)])
  {
    var js' := js[k := js[k].(judgedAt := later)];
    forall j | j in js' ensures ValidJudgment(m, runs, j) {
      var i :| 0 <= i < |js'| && js'[i] == j;
      assert js[i] in js;
    }
  }

  // ----- Reordering the records -----

  lemma SameMembers<T>(a: seq<T>, b: seq<T>)
    requires multiset(a) == multiset(b)
    ensures forall x :: x in a <==> x in b
  {
    forall x ensures x in a <==> x in b {
      assert x in a <==> x in multiset(a);
      assert x in b <==> x in multiset(b);
    }
  }

  lemma Without<T>(s: seq<T>, k: nat)
    requires k < |s|
    ensures multiset(s[..k] + s[k + 1..]) == multiset(s) - multiset{s[k]}
  {
    assert s == s[..k] + [s[k]] + s[k + 1..];
  }

  lemma {:induction false} LateIgnoresOrder(m: Manifest, a: seq<Judgment>, b: seq<Judgment>)
    requires multiset(a) == multiset(b)
    ensures Late(m, a) == Late(m, b)
    decreases |a|
  {
    if a == [] {
      assert |b| == |multiset(b)| == 0;
    } else {
      var last := a[|a| - 1];
      assert last in multiset(a);
      var k :| 0 <= k < |b| && b[k] == last;
      var init, rest := a[..|a| - 1], b[..k] + b[k + 1..];
      assert a[..|a| - 1] + a[|a|..] == init;
      Without(a, |a| - 1);
      Without(b, k);
      assert multiset(init) == multiset(a) - multiset{last};
      assert multiset(rest) == multiset(b) - multiset{last};
      LateIgnoresOrder(m, init, rest);
      LateRemoves(m, b, k);
    }
  }

  lemma {:induction false} LateRemoves(m: Manifest, js: seq<Judgment>, k: nat)
    requires k < |js|
    ensures Late(m, js) == Late(m, js[..k] + js[k + 1..]) + One(js[k].judgedAt > m.deadline)
    decreases |js|
  {
    var without := js[..k] + js[k + 1..];
    if k == |js| - 1 {
      assert without == js[..k];
    } else {
      var init := js[..|js| - 1];
      LateRemoves(m, init, k);
      assert without[..|without| - 1] == init[..k] + init[k + 1..];
      assert without[|without| - 1] == js[|js| - 1];
    }
  }

  /** Distinct keys, said without positions: each record once, and no two records share a key. */
  lemma DistinctRunsIgnoreOrder(a: seq<Run>, b: seq<Run>)
    requires multiset(a) == multiset(b) && DistinctRuns(a)
    ensures DistinctRuns(b)
  {
    SameMembers(a, b);
    forall i, j | 0 <= i < j < |b| ensures RunKey(b[i]) != RunKey(b[j]) {
      if RunKey(b[i]) == RunKey(b[j]) {
        assert b[i] in b && b[j] in b;
        var p :| 0 <= p < |a| && a[p] == b[i];
        var q :| 0 <= q < |a| && a[q] == b[j];
        assert p == q;
        TwiceIn(b, i, j);
        OnceIn(a, p);
      }
    }
  }

  lemma DistinctJudgmentsIgnoreOrder(a: seq<Judgment>, b: seq<Judgment>)
    requires multiset(a) == multiset(b) && DistinctJudgments(a)
    ensures DistinctJudgments(b)
  {
    SameMembers(a, b);
    forall i, j | 0 <= i < j < |b|
      ensures (JudgedKey(b[i]), b[i].adjudicator) != (JudgedKey(b[j]), b[j].adjudicator)
    {
      if (JudgedKey(b[i]), b[i].adjudicator) == (JudgedKey(b[j]), b[j].adjudicator) {
        assert b[i] in b && b[j] in b;
        var p :| 0 <= p < |a| && a[p] == b[i];
        var q :| 0 <= q < |a| && a[q] == b[j];
        assert p == q;
        TwiceIn(b, i, j);
        OnceIn(a, p);
      }
    }
  }

  lemma TwiceIn<T>(s: seq<T>, i: nat, j: nat)
    requires i < j < |s| && s[i] == s[j]
    ensures multiset(s)[s[i]] >= 2
  {
    assert s == s[..i] + [s[i]] + s[i + 1..j] + [s[j]] + s[j + 1..];
  }

  lemma OnceIn<T>(s: seq<T>, p: nat)
    requires p < |s| && forall i :: 0 <= i < |s| && i != p ==> s[i] != s[p]
    ensures multiset(s)[s[p]] == 1
  {
    assert s == s[..p] + [s[p]] + s[p + 1..];
    assert s[p] !in s[..p] && s[p] !in s[p + 1..];
  }

  lemma {:induction false} TallyIgnoresOrder(m: Manifest, runs: seq<Run>, runs': seq<Run>, js: seq<Judgment>,
                                             js': seq<Judgment>, count: nat)
    requires multiset(runs) == multiset(runs') && multiset(js) == multiset(js') && count <= |m.units|
    ensures Tally(m, runs, js, count) == Tally(m, runs', js', count)
  {
    LateIgnoresOrder(m, js, js');
    if count > 0 {
      TallyIgnoresOrder(m, runs, runs', js, js', count - 1);
      StandingIgnoresOrder(m, runs, runs', js, js', m.units[count - 1]);
    }
  }

  lemma StandingIgnoresOrder(m: Manifest, runs: seq<Run>, runs': seq<Run>, js: seq<Judgment>, js': seq<Judgment>,
                             u: Unit)
    requires multiset(runs) == multiset(runs') && multiset(js) == multiset(js')
    ensures StandingOf(m, runs, js, u) == StandingOf(m, runs', js', u)
  {
    SameMembers(runs, runs');
    SameMembers(js, js');
    forall i ensures PairOf(m, runs, js, u, i) == PairOf(m, runs', js', u, i) {
      PairIgnoresOrder(m, runs, runs', js, js', u, i);
    }
  }

  lemma PairIgnoresOrder(m: Manifest, runs: seq<Run>, runs': seq<Run>, js: seq<Judgment>, js': seq<Judgment>, u: Unit,
                         i: int)
    requires forall x :: x in runs <==> x in runs'
    requires forall x :: x in js <==> x in js'
    ensures PairOf(m, runs, js, u, i) == PairOf(m, runs', js', u, i)
  {}

  /** Any reordering of either record file is accepted or not alike, and gives the same report. */
  lemma ReportIgnoresOrder(m: Manifest, runs: seq<Run>, runs': seq<Run>, js: seq<Judgment>, js': seq<Judgment>)
    requires multiset(runs) == multiset(runs') && multiset(js) == multiset(js')
    ensures Acceptable(m, runs, js) <==> Acceptable(m, runs', js')
    ensures ReportOf(m, runs, js) == ReportOf(m, runs', js')
  {
    TallyIgnoresOrder(m, runs, runs', js, js', |m.units|);
    if Acceptable(m, runs, js) {
      ReorderedIsAcceptable(m, runs, runs', js, js');
    }
    if Acceptable(m, runs', js') {
      ReorderedIsAcceptable(m, runs', runs, js', js);
    }
  }

  lemma ReorderedIsAcceptable(m: Manifest, runs: seq<Run>, runs': seq<Run>, js: seq<Judgment>, js': seq<Judgment>)
    requires multiset(runs) == multiset(runs') && multiset(js) == multiset(js') && Acceptable(m, runs, js)
    ensures Acceptable(m, runs', js')
  {
    SameMembers(runs, runs');
    SameMembers(js, js');
    DistinctRunsIgnoreOrder(runs, runs');
    DistinctJudgmentsIgnoreOrder(js, js');
    forall j | j in js' ensures ValidJudgment(m, runs', j) {
      assert ValidJudgment(m, runs, j);
      var r :| r in runs && RunKey(r) == JudgedKey(j);
      assert r in runs';
    }
  }
}

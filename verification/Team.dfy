/** The coding team: a scheduler that decides from a folded snapshot alone, the fold of mechanical
    outcomes into that snapshot, and the loop that drives both. */
module Team {
  import opened Common
  import opened Text

  datatype Class = Planner | Implementer | Reviewer | Reporter

  /** A typed report as far as scheduling reads it: the verdict, when there is one. */
  datatype Report = Report(verdict: Option<string>)

  /** SHA-256 shortened, taken as injective. */
  datatype InstanceId = Digest(key: string)

  datatype Task = Task(id: string, result: Option<Report>, failed: bool)

  datatype Phase = Pending | Running | Finished | Failed

  datatype Instance = Instance(id: InstanceId, kind: Class, task: string, phase: Phase)

  /** The input the scheduler hands to a class, beside the request itself. */
  datatype Input = Input(previous: Option<Report>, revision: bool, limitReached: bool)

  datatype Dispatch = Dispatch(to: InstanceId, kind: Class, task: string, input: Input, from: Option<InstanceId>)

  datatype Outcome = Outcome(dispatch: Option<Dispatch>, report: Report, failed: bool)

  /** The application facts scheduling reads. */
  datatype Facts = Facts(run: string, tasks: seq<Task>, instances: seq<Instance>)

  /** The team state: the facts beside the mechanical snapshot they were folded from. */
  datatype State = State(facts: Facts, outcomes: seq<Outcome>)

  function ClassName(c: Class): string {
    match c
    case Planner => "planner"
    case Implementer => "implementer"
    case Reviewer => "reviewer"
    case Reporter => "reporter"
  }

  // ---------------------------------------------------------------- identities

  function TaskId(run: string, c: Class, attempt: nat): string {
    run + "-" + ClassName(c) + AttemptSuffix(attempt)
  }

  function AttemptSuffix(attempt: nat): string {
    if attempt > 1 then "-attempt-" + Itoa(attempt) else ""
  }

  function MakeInstanceId(c: Class, run: string, task: string, count: nat): InstanceId {
    Digest(Join([TrimSpace(ClassName(c)), TrimSpace(run), TrimSpace(task), TrimSpace(Itoa(count))], '|'))
  }

  lemma ItoaInjective(a: nat, b: nat)
    requires Itoa(a) == Itoa(b)
    ensures a == b
  {
    ItoaValue(a);
    ItoaValue(b);
  }

  lemma NamesDiffer(c: Class, d: Class, s: string, t: string)
    requires ClassName(c) + s == ClassName(d) + t
    ensures c == d && s == t
  {
    var x, y := ClassName(c) + s, ClassName(d) + t;
    assert x[0] == ClassName(c)[0] && x[2] == ClassName(c)[2] && y[0] == ClassName(d)[0] && y[2] == ClassName(d)[2];
    assert s == x[|ClassName(c)|..] && t == y[|ClassName(d)|..];
  }

  lemma TailEqual(p: string, s: string, t: string)
    requires p + s == p + t
    ensures s == t
  {
    assert s == (p + s)[|p|..] && t == (p + t)[|p|..];
  }

  /** Task identities of one run tell class and attempt apart. */
  lemma TaskIdInjective(run: string, c: Class, i: nat, d: Class, j: nat)
    requires TaskId(run, c, i) == TaskId(run, d, j) && i > 0 && j > 0
    ensures c == d && i == j
  {
    var s, t := AttemptSuffix(i), AttemptSuffix(j);
    Associative(run + "-", ClassName(c), s);
    Associative(run + "-", ClassName(d), t);
    TailEqual(run + "-", ClassName(c) + s, ClassName(d) + t);
    NamesDiffer(c, d, s, t);
    SuffixInjective(i, j);
  }

  lemma SuffixInjective(i: nat, j: nat)
    requires AttemptSuffix(i) == AttemptSuffix(j) && i > 0 && j > 0
    ensures i == j
  {
    if i > 1 && j > 1 {
      TailEqual("-attempt-", Itoa(i), Itoa(j));
      ItoaInjective(i, j);
    }
  }

  lemma TrimDigits(n: nat)
    ensures TrimSpace(Itoa(n)) == Itoa(n) && '|' !in Itoa(n)
  {
    var s := Itoa(n);
    assert IsDigit(s[0]) && IsDigit(s[|s| - 1]);
  }

  /** Instances made at different counts differ. */
  lemma InstanceIdInjective(c: Class, d: Class, run: string, s: string, t: string, i: nat, j: nat)
    requires MakeInstanceId(c, run, s, i) == MakeInstanceId(d, run, t, j)
    ensures i == j
  {
    TrimDigits(i);
    TrimDigits(j);
    LastPart(TrimSpace(ClassName(c)), TrimSpace(run), TrimSpace(s), Itoa(i));
    LastPart(TrimSpace(ClassName(d)), TrimSpace(run), TrimSpace(t), Itoa(j));
    ItoaInjective(i, j);
  }

  lemma LastPart(a: string, b: string, c: string, last: string)
    requires '|' !in last
    ensures var parts := Split(Join([a, b, c, last], '|'), '|'); parts[|parts| - 1] == last
  {
    var front := a + ['|'] + (b + ['|'] + c);
    assert [a, b, c, last][1..] == [b, c, last] && [b, c, last][1..] == [c, last] && [c, last][1..] == [last];
    assert Join([c, last], '|') == c + ['|'] + last;
    assert Join([b, c, last], '|') == b + ['|'] + (c + ['|'] + last);
    assert Join([a, b, c, last], '|') == front + ['|'] + last;
    SplitAppend(front, last, '|');
    SplitWhole(last, '|');
  }

  // ---------------------------------------------------------------- the scheduler

  function LowerAscii(s: string): string {
    if s == "" then "" else [if 'A' <= s[0] <= 'Z' then (s[0] as int + 32) as char else s[0]] + LowerAscii(s[1..])
  }

  /** reviewVerdict: anything but an explicit acceptance asks for a revision. */
  predicate Accepts(report: Option<Report>) {
    report.Some? && report.value.verdict.Some? && LowerAscii(TrimSpace(report.value.verdict.value)) == "accept"
  }

  /** The word "accept" in any mixture of cases. */
  ghost predicate AcceptWord(w: string) {
    |w| == 6 && forall i :: 0 <= i < 6 ==> w[i] == "accept"[i] || w[i] == "ACCEPT"[i]
  }

  /** The verdict is the word "accept", with white space around it or not. */
  ghost predicate SaysAccept(report: Report) {
    report.verdict.Some? &&
    exists before, w, after ::
      report.verdict.value == before + w + after && AcceptWord(w) && AllSpaces(before) && AllSpaces(after)
  }

  lemma {:induction false} LowerIs(s: string)
    ensures |LowerAscii(s)| == |s|
    ensures forall i :: 0 <= i < |s| ==> LowerAscii(s)[i] == if 'A' <= s[i] <= 'Z' then (s[i] as int + 32) as char else s[i]
  {
    if s != "" { LowerIs(s[1..]); }
  }

  lemma AcceptLowers(w: string)
    ensures LowerAscii(w) == "accept" <==> AcceptWord(w)
  {
    LowerIs(w);
    if LowerAscii(w) == "accept" {
      forall i | 0 <= i < 6 ensures w[i] == "accept"[i] || w[i] == "ACCEPT"[i] { assert LowerAscii(w)[i] == "accept"[i]; }
    }
  }

  /** A report is an acceptance exactly when it has a verdict and the verdict is the word "accept", in any
      case and with any white space around it: nothing else will do, and a missing report or verdict is none. */
  lemma AcceptsExactly(report: Option<Report>)
    ensures Accepts(report) <==> report.Some? && SaysAccept(report.value)
  {
    if report.Some? && report.value.verdict.Some? {
      var v := report.value.verdict.value;
      AcceptLowers(TrimSpace(v));
      var before, after := TrimParts(v);
      if Accepts(report) { assert v == before + TrimSpace(v) + after; }
      if SaysAccept(report.value) {
        var b, w, a :| v == b + w + a && AcceptWord(w) && AllSpaces(b) && AllSpaces(a);
        assert !IsSpace(w[0]) && !IsSpace(w[5]);
        TrimmedTo(b, w, a);
      }
    }
  }

  predicate ActiveOrFailed(instances: seq<Instance>, n: nat)
    requires n <= |instances|
  {
    n > 0 && (instances[n - 1].phase != Finished || ActiveOrFailed(instances, n - 1))
  }

  /** finishedForClass over the first n instances. */
  function FinishedOf(instances: seq<Instance>, c: Class, n: nat): seq<Instance>
    requires n <= |instances|
  {
    if n == 0 then []
    else
      var before := FinishedOf(instances, c, n - 1);
      if instances[n - 1].kind == c && instances[n - 1].phase == Finished then before + [instances[n - 1]] else before
  }

  function AttemptsOf(instances: seq<Instance>, c: Class, n: nat): nat
    requires n <= |instances|
  {
    if n == 0 then 0 else AttemptsOf(instances, c, n - 1) + if instances[n - 1].kind == c then 1 else 0
  }

  /** reportForTask: the last task with the identity. */
  function ReportOf(tasks: seq<Task>, id: string, n: nat): Option<Report>
    requires n <= |tasks|
  {
    if n == 0 then None else if tasks[n - 1].id == id then tasks[n - 1].result else ReportOf(tasks, id, n - 1)
  }

  function Latest(st: Facts, xs: seq<Instance>): Option<Report>
    requires xs != []
  {
    ReportOf(st.tasks, xs[|xs| - 1].task, |st.tasks|)
  }

  function MakeDispatch(st: Facts, c: Class, from: Option<InstanceId>, input: Input): Dispatch {
    var attempt := AttemptsOf(st.instances, c, |st.instances|) + 1;
    var task := TaskId(st.run, c, attempt);
    Dispatch(MakeInstanceId(c, st.run, task, |st.instances|), c, task, input, from)
  }

  /** The choice among the finished instances of the four classes. */
  function Choose(st: Facts, planners: seq<Instance>, implementers: seq<Instance>, reviewers: seq<Instance>, reporters: seq<Instance>): Option<Dispatch> {
    if planners == [] then Some(MakeDispatch(st, Planner, None, Input(None, false, false)))
    else if implementers == [] then
      Some(MakeDispatch(st, Implementer, Some(planners[|planners| - 1].id), Input(Latest(st, planners), false, false)))
    else if reviewers == [] then
      Some(MakeDispatch(st, Reviewer, Some(implementers[|implementers| - 1].id), Input(Latest(st, implementers), false, false)))
    else
      var review := Latest(st, reviewers);
      if !Accepts(review) && |implementers| == 1 then
        Some(MakeDispatch(st, Implementer, Some(reviewers[|reviewers| - 1].id), Input(review, true, false)))
      else if |implementers| == 2 && |reviewers| == 1 then
        Some(MakeDispatch(st, Reviewer, Some(implementers[|implementers| - 1].id), Input(Latest(st, implementers), true, false)))
      else if reporters != [] then None
      else Some(MakeDispatch(st, Reporter, Some(reviewers[|reviewers| - 1].id), Input(review, false, !Accepts(review))))
  }

  /** CodingScheduler.Next with all four classes configured. */
  function Next(st: Facts): Option<Dispatch> {
    var n := |st.instances|;
    if ActiveOrFailed(st.instances, n) then None
    else Choose(st, FinishedOf(st.instances, Planner, n), FinishedOf(st.instances, Implementer, n),
                FinishedOf(st.instances, Reviewer, n), FinishedOf(st.instances, Reporter, n))
  }

  // ---------------------------------------------------------------- the fold

  predicate KnownTask(tasks: seq<Task>, id: string) { exists i :: 0 <= i < |tasks| && tasks[i].id == id }

  predicate KnownInstance(instances: seq<Instance>, id: InstanceId) { exists i :: 0 <= i < |instances| && instances[i].id == id }

  function FoldOne(st: Facts, d: Dispatch, report: Report, failed: bool): Facts {
    var tasks := if KnownTask(st.tasks, d.task) then st.tasks else st.tasks + [Task(d.task, Some(report), failed)];
    var instances := if KnownInstance(st.instances, d.to) then st.instances
                     else st.instances + [Instance(d.to, d.kind, d.task, if failed then Failed else Finished)];
    st.(tasks := tasks, instances := instances)
  }

  function FoldOutcome(st: Facts, o: Outcome): Option<Facts> {
    if o.dispatch.None? then None else Some(FoldOne(st, o.dispatch.value, o.report, o.failed))
  }

  /** The first k items folded in; an item that cannot be taken ends the fold. */
  function FoldFirst<S, O>(step: (S, O) -> Option<S>, st: S, items: seq<O>, k: nat): Option<S>
    requires k <= |items|
  {
    if k == 0 then Some(st)
    else
      match FoldFirst(step, st, items, k - 1)
      case None => None
      case Some(before) => step(before, items[k - 1])
  }

  /** foldTeamOrchestration. */
  function Fold(base: State, outcomes: seq<Outcome>): Option<State> {
    match FoldFirst(FoldOutcome, base.facts, outcomes, |outcomes|)
    case None => None
    case Some(facts) => Some(State(facts, outcomes))
  }

  /** Everything an outcome can add is there. */
  ghost predicate Knows(st: Facts, o: Outcome) {
    o.dispatch.Some? && KnownTask(st.tasks, o.dispatch.value.task) && KnownInstance(st.instances, o.dispatch.value.to)
  }

  ghost predicate Extends(a: Facts, b: Facts) { a.tasks <= b.tasks && a.instances <= b.instances && a.run == b.run }

  lemma FoldOutcomeKnows(st: Facts, o: Outcome)
    requires o.dispatch.Some?
    ensures var after := FoldOutcome(st, o); after.Some? && Extends(st, after.value) && Knows(after.value, o)
    ensures Knows(st, o) ==> FoldOutcome(st, o) == Some(st)
  {
    var d, after := o.dispatch.value, FoldOutcome(st, o).value;
    if !KnownTask(st.tasks, d.task) { assert after.tasks[|st.tasks|].id == d.task; }
    if !KnownInstance(st.instances, d.to) { assert after.instances[|st.instances|].id == d.to; }
  }

  lemma KnowsExtends(a: Facts, b: Facts, o: Outcome)
    requires Knows(a, o) && Extends(a, b)
    ensures Knows(b, o)
  {
    var i :| 0 <= i < |a.tasks| && a.tasks[i].id == o.dispatch.value.task;
    assert b.tasks[i].id == o.dispatch.value.task;
    var j :| 0 <= j < |a.instances| && a.instances[j].id == o.dispatch.value.to;
    assert b.instances[j].id == o.dispatch.value.to;
  }

  lemma FoldKnows(st: Facts, outcomes: seq<Outcome>, k: nat, i: nat)
    requires i < k && k <= |outcomes| && FoldFirst(FoldOutcome, st, outcomes, k).Some?
    ensures Knows(FoldFirst(FoldOutcome, st, outcomes, k).value, outcomes[i])
  {
    var knows := (f: Facts, o: Outcome) => Knows(f, o);
    forall f, o | FoldOutcome(f, o).Some? ensures knows(FoldOutcome(f, o).value, o) { FoldOutcomeKnows(f, o); }
    forall f, o, x | FoldOutcome(f, o).Some? && knows(f, x) ensures knows(FoldOutcome(f, o).value, x) {
      FoldOutcomeKnows(f, o);
      KnowsExtends(f, FoldOutcome(f, o).value, x);
    }
    FoldHolds(FoldOutcome, knows, st, outcomes, k, i);
  }

  /** What a step establishes for its item and keeps for the others holds of every folded item. */
  lemma {:induction false} FoldHolds<S(!new), O(!new)>(step: (S, O) -> Option<S>, holds: (S, O) -> bool, st: S, items: seq<O>, k: nat, i: nat)
    requires i < k && k <= |items| && FoldFirst(step, st, items, k).Some?
    requires forall s, o :: step(s, o).Some? ==> holds(step(s, o).value, o)
    requires forall s, o, x :: step(s, o).Some? && holds(s, x) ==> holds(step(s, o).value, x)
    ensures holds(FoldFirst(step, st, items, k).value, items[i])
  {
    if i < k - 1 { FoldHolds(step, holds, st, items, k - 1, i); }
  }

  /** Folding known outcomes again changes nothing. */
  lemma FoldKnown(st: Facts, outcomes: seq<Outcome>, k: nat)
    requires k <= |outcomes| && forall i :: 0 <= i < k ==> Knows(st, outcomes[i])
    ensures FoldFirst(FoldOutcome, st, outcomes, k) == Some(st)
  {
    forall i | 0 <= i < k ensures FoldOutcome(st, outcomes[i]) == Some(st) {
      assert Knows(st, outcomes[i]);
      FoldOutcomeKnows(st, outcomes[i]);
    }
    FoldStays(FoldOutcome, st, outcomes, k);
  }

  lemma {:induction false} FoldStays<S, O>(step: (S, O) -> Option<S>, st: S, items: seq<O>, k: nat)
    requires k <= |items| && forall i :: 0 <= i < k ==> step(st, items[i]) == Some(st)
    ensures FoldFirst(step, st, items, k) == Some(st)
  {
    if k > 0 { FoldStays(step, st, items, k - 1); }
  }

  /** A fold that can repeat its first k items can resume after them. */
  lemma {:induction false} FoldResumes<S, O>(step: (S, O) -> Option<S>, st: S, items: seq<O>, k: nat, n: nat, mid: S)
    requires k <= n && n <= |items| && FoldFirst(step, st, items, k) == Some(mid) && FoldFirst(step, mid, items, k) == Some(mid)
    ensures FoldFirst(step, mid, items, n) == FoldFirst(step, st, items, n)
    decreases n
  {
    if k < n { FoldResumes(step, st, items, k, n - 1, mid); }
  }

  lemma {:induction false} FoldPrefix<S, O>(step: (S, O) -> Option<S>, st: S, a: seq<O>, b: seq<O>, k: nat)
    requires a <= b && k <= |a|
    ensures FoldFirst(step, st, a, k) == FoldFirst(step, st, b, k)
  {
    if k > 0 { FoldPrefix(step, st, a, b, k - 1); }
  }

  /** Folding a prefix and then the whole is folding the whole: with the same list twice, the fold
      is idempotent. */
  lemma FoldComposes(base: State, a: seq<Outcome>, b: seq<Outcome>)
    requires a <= b && Fold(base, a).Some?
    ensures Fold(Fold(base, a).value, b) == Fold(base, b)
  {
    var mid := FoldFirst(FoldOutcome, base.facts, a, |a|).value;
    forall i | 0 <= i < |a| ensures Knows(mid, a[i]) { FoldKnows(base.facts, a, |a|, i); }
    FoldKnown(mid, a, |a|);
    FoldPrefix(FoldOutcome, base.facts, a, b, |a|);
    FoldPrefix(FoldOutcome, mid, a, b, |a|);
    FoldResumes(FoldOutcome, base.facts, b, |a|, |b|, mid);
  }

  /** Scheduling from any persisted snapshot gives the dispatch, with its task and instance
      identities, of the uninterrupted run. */
  lemma ScheduleFromSnapshot(base: State, a: seq<Outcome>, b: seq<Outcome>)
    requires a <= b && Fold(base, a).Some? && Fold(base, b).Some?
    ensures Fold(Fold(base, a).value, b).Some? && Next(Fold(Fold(base, a).value, b).value.facts) == Next(Fold(base, b).value.facts)
  {
    FoldComposes(base, a, b);
  }
}

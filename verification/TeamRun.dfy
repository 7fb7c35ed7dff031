/** Runs of the coding team: what is dispatched, tick by tick. */
module TeamRun {
  import opened Common
  import opened Team

  datatype Result = Result(report: Report, failed: bool)

  function Fresh(run: string): State { State(Facts(run, [], []), []) }

  /** The outcomes after k ticks, when the i-th dispatch ends in rs[i]. */
  function OutcomesAfter(base: State, rs: seq<Result>, k: nat): seq<Outcome> {
    Iterate(Ticker(base, rs), base.outcomes, k)
  }

  function Iterate<T>(f: T -> T, x: T, k: nat): T { if k == 0 then x else f(Iterate(f, x, k - 1)) }

  function Ticker(base: State, rs: seq<Result>): seq<Outcome> -> seq<Outcome> { before => Tick(base, rs, before) }

  /** One tick: fold, ask the scheduler, run what it dispatches. */
  function Tick(base: State, rs: seq<Result>, before: seq<Outcome>): seq<Outcome> {
    match Fold(base, before)
    case None => before
    case Some(st) =>
      match Next(st.facts)
      case None => before
      case Some(d) =>
        var i := |before|;
        if i < |rs| then before + [Outcome(Some(d), rs[i].report, rs[i].failed)] else before
  }

  // ---------------------------------------------------------------- the plan

  predicate AnyFailed(rs: seq<Result>, i: nat)
    requires i <= |rs|
  {
    exists j :: 0 <= j < i && rs[j].failed
  }

  predicate AcceptedAt(rs: seq<Result>, i: nat)
    requires i < |rs|
  {
    Accepts(Some(rs[i].report))
  }

  /** The classes of a run: one round, or two when the first verdict is not an acceptance. */
  function Rounds(accepted: bool): seq<Class> {
    if accepted then [Planner, Implementer, Reviewer, Reporter]
    else [Planner, Implementer, Reviewer, Implementer, Reviewer, Reporter]
  }

  /** The i-th dispatch, given the results before it. */
  function Plan(rs: seq<Result>, i: nat): Option<Class>
    requires i <= |rs|
  {
    if AnyFailed(rs, i) then None
    else
      var rounds := Rounds(i > 2 && AcceptedAt(rs, 2));
      if i < |rounds| then Some(rounds[i]) else None
  }

  /** What the i-th dispatch is told. */
  function PlannedInput(rs: seq<Result>, i: nat): Input
    requires i <= |rs|
  {
    Input(if i == 0 then None else Some(rs[i - 1].report),
          (i == 3 || i == 4) && !AcceptedAt(rs, 2),
          i == 5 && !AcceptedAt(rs, 4))
  }

  // ---------------------------------------------------------------- the facts of a run that follows the plan

  ghost predicate SlotOk(f: Facts, rs: seq<Result>, i: nat)
    requires i < |f.tasks| && i < |f.instances| && i < |rs|
  {
    var x := f.instances[i];
    && Plan(rs, i) == Some(x.kind)
    && x.phase == (if rs[i].failed then Failed else Finished)
    && f.tasks[i] == Task(x.task, Some(rs[i].report), rs[i].failed)
    && x.task == TaskId(f.run, x.kind, AttemptsOf(f.instances, x.kind, i) + 1)
    && x.id == MakeInstanceId(x.kind, f.run, x.task, i)
  }

  ghost predicate Follows(f: Facts, rs: seq<Result>, m: nat) {
    |f.tasks| == m && |f.instances| == m && m <= |rs| && forall i :: 0 <= i < m ==> SlotOk(f, rs, i)
  }

  lemma {:induction false} AttemptsMonotone(xs: seq<Instance>, c: Class, i: nat, j: nat)
    requires i < j && j <= |xs| && xs[i].kind == c
    ensures AttemptsOf(xs, c, i) < AttemptsOf(xs, c, j)
    decreases j
  {
    if i < j - 1 { AttemptsMonotone(xs, c, i, j - 1); }
  }

  lemma {:induction false} AttemptsPrefix(xs: seq<Instance>, ys: seq<Instance>, c: Class, n: nat)
    requires n <= |xs| && xs <= ys
    ensures AttemptsOf(xs, c, n) == AttemptsOf(ys, c, n)
  {
    if n > 0 { AttemptsPrefix(xs, ys, c, n - 1); }
  }

  /** A new dispatch has a new task and a new instance. */
  lemma DispatchNew(f: Facts, rs: seq<Result>, m: nat, c: Class, from: Option<InstanceId>, input: Input)
    requires Follows(f, rs, m)
    ensures var d := MakeDispatch(f, c, from, input); !KnownTask(f.tasks, d.task) && !KnownInstance(f.instances, d.to)
  {
    var d := MakeDispatch(f, c, from, input);
    forall i | 0 <= i < m ensures f.tasks[i].id != d.task && f.instances[i].id != d.to {
      assert SlotOk(f, rs, i);
      SlotDiffers(f, rs, i, c, from, input);
    }
  }

  lemma SlotDiffers(f: Facts, rs: seq<Result>, i: nat, c: Class, from: Option<InstanceId>, input: Input)
    requires i < |f.tasks| && i < |f.instances| && i < |rs| && SlotOk(f, rs, i)
    ensures var d := MakeDispatch(f, c, from, input); f.instances[i].task != d.task && f.instances[i].id != d.to
  {
    var d := MakeDispatch(f, c, from, input);
    var x := f.instances[i];
    IdsInjective(f.run);
    NextDiffers(IdsOf(f.run), f.instances, i, c);
    InstancesDiffer(x.kind, c, f.run, x.task, d.task, i, |f.instances|);
  }

  lemma NextDiffers(id: (Class, nat) -> string, xs: seq<Instance>, i: nat, c: Class)
    requires Injective(id) && i < |xs| && xs[i].task == id(xs[i].kind, AttemptsOf(xs, xs[i].kind, i) + 1)
    ensures xs[i].task != id(c, AttemptsOf(xs, c, |xs|) + 1)
  {
    if xs[i].kind == c { AttemptsMonotone(xs, c, i, |xs|); }
  }

  lemma InstancesDiffer(c: Class, d: Class, run: string, s: string, t: string, i: nat, j: nat)
    requires i != j
    ensures MakeInstanceId(c, run, s, i) != MakeInstanceId(d, run, t, j)
  {
    if MakeInstanceId(c, run, s, i) == MakeInstanceId(d, run, t, j) { InstanceIdInjective(c, d, run, s, t, i, j); }
  }

  lemma FollowsGrows(f: Facts, rs: seq<Result>, m: nat, c: Class, from: Option<InstanceId>, input: Input)
    requires Follows(f, rs, m) && m < |rs| && Plan(rs, m) == Some(c)
    ensures Follows(FoldOne(f, MakeDispatch(f, c, from, input), rs[m].report, rs[m].failed), rs, m + 1)
  {
    var d := MakeDispatch(f, c, from, input);
    var g := FoldOne(f, d, rs[m].report, rs[m].failed);
    DispatchNew(f, rs, m, c, from, input);
    assert f.instances <= g.instances;
    AttemptsPrefix(f.instances, g.instances, c, m);
    forall i | 0 <= i < m + 1 ensures SlotOk(g, rs, i) {
      if i < m {
        assert SlotOk(f, rs, i);
        AttemptsPrefix(f.instances, g.instances, f.instances[i].kind, i);
        assert g.instances[i] == f.instances[i] && g.tasks[i] == f.tasks[i];
      }
    }
  }

  // ---------------------------------------------------------------- the scheduler follows the plan

  lemma {:induction false} ReportAt(f: Facts, rs: seq<Result>, m: nat, i: nat, n: nat)
    requires Follows(f, rs, m) && i < n && n <= m
    ensures ReportOf(f.tasks, f.instances[i].task, n) == Some(rs[i].report)
    decreases n
  {
    SlotTask(f, rs, n - 1);
    if i < n - 1 {
      assert SlotOk(f, rs, i) && SlotOk(f, rs, n - 1);
      SlotsDiffer(f, rs, i, n - 1);
      ReportAt(f, rs, m, i, n - 1);
    }
  }

  lemma SlotTask(f: Facts, rs: seq<Result>, i: nat)
    requires i < |f.tasks| && i < |f.instances| && i < |rs| && SlotOk(f, rs, i)
    ensures f.tasks[i].id == f.instances[i].task && f.tasks[i].result == Some(rs[i].report)
  {
  }

  lemma SlotsDiffer(f: Facts, rs: seq<Result>, i: nat, j: nat)
    requires i < j && j < |f.tasks| && j < |f.instances| && j < |rs| && SlotOk(f, rs, i) && SlotOk(f, rs, j)
    ensures f.instances[i].task != f.instances[j].task
  {
    IdsInjective(f.run);
    TasksDiffer(IdsOf(f.run), f.instances, i, j);
  }

  /** The task identities of a run, as a function of class and attempt. */
  function IdsOf(run: string): (Class, nat) -> string { (c: Class, n: nat) => TaskId(run, c, n) }

  ghost predicate Injective(id: (Class, nat) -> string) {
    forall c, i, d, j :: i > 0 && j > 0 && id(c, i) == id(d, j) ==> c == d && i == j
  }

  lemma IdsInjective(run: string)
    ensures Injective(IdsOf(run))
  {
    forall c, i, d, j | i > 0 && j > 0 && IdsOf(run)(c, i) == IdsOf(run)(d, j) ensures c == d && i == j {
      TaskIdInjective(run, c, i, d, j);
    }
  }

  lemma TasksDiffer(id: (Class, nat) -> string, xs: seq<Instance>, i: nat, j: nat)
    requires Injective(id) && i < j < |xs|
    requires xs[i].task == id(xs[i].kind, AttemptsOf(xs, xs[i].kind, i) + 1)
    requires xs[j].task == id(xs[j].kind, AttemptsOf(xs, xs[j].kind, j) + 1)
    ensures xs[i].task != xs[j].task
  {
    if xs[i].kind == xs[j].kind { AttemptsMonotone(xs, xs[i].kind, i, j); }
  }

  lemma {:induction false} NoneActive(xs: seq<Instance>, n: nat)
    requires n <= |xs|
    ensures ActiveOrFailed(xs, n) <==> exists i :: 0 <= i < n && xs[i].phase != Finished
  {
    if n > 0 {
      NoneActive(xs, n - 1);
      if xs[n - 1].phase != Finished {
        assert 0 <= n - 1 < n;
      } else if ActiveOrFailed(xs, n - 1) {
        var i :| 0 <= i < n - 1 && xs[i].phase != Finished;
        assert 0 <= i < n;
      }
    }
  }

  lemma FailedStops(f: Facts, rs: seq<Result>, m: nat)
    requires Follows(f, rs, m)
    ensures ActiveOrFailed(f.instances, m) <==> AnyFailed(rs, m)
  {
    NoneActive(f.instances, m);
    forall i | 0 <= i < m ensures f.instances[i].phase == (if rs[i].failed then Failed else Finished) {
      assert SlotOk(f, rs, i);
    }
    if AnyFailed(rs, m) {
      var j :| 0 <= j < m && rs[j].failed;
      assert f.instances[j].phase != Finished;
    }
  }

  /** The classes of the finished instances, all of them. */
  ghost predicate Kinds(f: Facts, kinds: seq<Class>) {
    |f.instances| == |kinds| && forall i :: 0 <= i < |kinds| ==> f.instances[i].kind == kinds[i] && f.instances[i].phase == Finished
  }

  lemma SlotKind(f: Facts, rs: seq<Result>, m: nat, i: nat)
    requires Follows(f, rs, m) && !AnyFailed(rs, m) && i < m
    ensures var rounds := Rounds(m > 3 && AcceptedAt(rs, 2));
            i < |rounds| && f.instances[i].kind == rounds[i] && f.instances[i].phase == Finished
  {
    assert SlotOk(f, rs, i);
    assert !rs[i].failed;
  }

  lemma FollowsKinds(f: Facts, rs: seq<Result>, m: nat)
    requires Follows(f, rs, m) && !AnyFailed(rs, m) && m > 0
    ensures m <= |Rounds(m > 3 && AcceptedAt(rs, 2))|
    ensures Kinds(f, Rounds(m > 3 && AcceptedAt(rs, 2))[..m])
  {
    SlotKind(f, rs, m, m - 1);
    forall i | 0 <= i < m ensures f.instances[i].kind == Rounds(m > 3 && AcceptedAt(rs, 2))[i] && f.instances[i].phase == Finished {
      SlotKind(f, rs, m, i);
    }
  }

  function Part(x: Instance, c: Class): seq<Instance> { if x.kind == c && x.phase == Finished then [x] else [] }

  /** Every dispatch but the first is handed over by the instance before it. */
  function PlannedFrom(f: Facts, m: nat): Option<InstanceId>
    requires |f.instances| == m
  {
    if m == 0 then None else Some(f.instances[m - 1].id)
  }

  /** The scheduler's answer is the planned dispatch. */
  ghost predicate Answers(f: Facts, rs: seq<Result>, m: nat)
    requires m <= |rs|
  {
    match Plan(rs, m)
    case None => Next(f).None?
    case Some(c) => |f.instances| == m && Next(f) == Some(MakeDispatch(f, c, PlannedFrom(f, m), PlannedInput(rs, m)))
  }

  /** The finished instances of a class, when all kinds are known. */
  ghost predicate FinishedAre(f: Facts, ps: seq<Instance>, ms: seq<Instance>, rs: seq<Instance>, qs: seq<Instance>) {
    var n := |f.instances|;
    && FinishedOf(f.instances, Planner, n) == ps && FinishedOf(f.instances, Implementer, n) == ms
    && FinishedOf(f.instances, Reviewer, n) == rs && FinishedOf(f.instances, Reporter, n) == qs
  }

  lemma OneRoundOf(x: seq<Instance>, n: nat, c: Class)
    requires n <= 4 && |x| == n
    requires forall i :: 0 <= i < n ==> x[i].kind == Rounds(true)[i] && x[i].phase == Finished
    ensures FinishedOf(x, c, n) ==
            match c
            case Planner => (if n > 0 then [x[0]] else [])
            case Implementer => (if n > 1 then [x[1]] else [])
            case Reviewer => (if n > 2 then [x[2]] else [])
            case Reporter => (if n > 3 then [x[3]] else [])
  {
    if n > 0 { FinishedStep(x, c, 0); }
    if n > 1 { FinishedStep(x, c, 1); }
    if n > 2 { FinishedStep(x, c, 2); }
    if n > 3 { FinishedStep(x, c, 3); }
  }

  lemma OneRound(f: Facts, n: nat)
    requires n <= 4 && Kinds(f, Rounds(true)[..n])
    ensures var x := f.instances;
            FinishedAre(f, if n > 0 then [x[0]] else [], if n > 1 then [x[1]] else [], if n > 2 then [x[2]] else [], if n > 3 then [x[3]] else [])
  {
    var x := f.instances;
    assert forall i :: 0 <= i < n ==> x[i].kind == Rounds(true)[..n][i] && x[i].phase == Finished;
    OneRoundOf(x, n, Planner);
    OneRoundOf(x, n, Implementer);
    OneRoundOf(x, n, Reviewer);
    OneRoundOf(x, n, Reporter);
  }

  lemma TwoRoundsOf(x: seq<Instance>, n: nat, c: Class)
    requires 4 <= n <= 6 && |x| == n
    requires forall i :: 0 <= i < n ==> x[i].kind == Rounds(false)[i] && x[i].phase == Finished
    ensures FinishedOf(x, c, n) ==
            match c
            case Planner => [x[0]]
            case Implementer => [x[1], x[3]]
            case Reviewer => (if n > 4 then [x[2], x[4]] else [x[2]])
            case Reporter => (if n > 5 then [x[5]] else [])
  {
    FourOf(x, c);
    if n > 4 { FinishedStep(x, c, 4); }
    if n > 5 { FinishedStep(x, c, 5); }
  }

  lemma FinishedStep(x: seq<Instance>, c: Class, n: nat)
    requires n < |x|
    ensures FinishedOf(x, c, n + 1) == FinishedOf(x, c, n) + Part(x[n], c)
  {
  }

  lemma FourOf(x: seq<Instance>, c: Class)
    requires |x| >= 4 && x[0].kind == Planner && x[1].kind == Implementer && x[2].kind == Reviewer && x[3].kind == Implementer
    requires x[0].phase == x[1].phase == x[2].phase == x[3].phase == Finished
    ensures FinishedOf(x, c, 4) ==
            match c
            case Planner => [x[0]]
            case Implementer => [x[1], x[3]]
            case Reviewer => [x[2]]
            case Reporter => []
  {
    FinishedStep(x, c, 0);
    FinishedStep(x, c, 1);
    FinishedStep(x, c, 2);
    FinishedStep(x, c, 3);
  }

  lemma TwoRounds(f: Facts, n: nat)
    requires 4 <= n <= 6 && Kinds(f, Rounds(false)[..n])
    ensures var x := f.instances;
            FinishedAre(f, [x[0]], [x[1], x[3]], if n > 4 then [x[2], x[4]] else [x[2]], if n > 5 then [x[5]] else [])
  {
    var x := f.instances;
    assert forall i :: 0 <= i < n ==> x[i].kind == Rounds(false)[..n][i] && x[i].phase == Finished;
    TwoRoundsOf(x, n, Planner);
    TwoRoundsOf(x, n, Implementer);
    TwoRoundsOf(x, n, Reviewer);
    TwoRoundsOf(x, n, Reporter);
  }

  lemma NextEarly(f: Facts, rs: seq<Result>, m: nat)
    requires Follows(f, rs, m) && !AnyFailed(rs, m) && m <= 2
    ensures Answers(f, rs, m)
  {
    FailedStops(f, rs, m);
    if m == 0 {
      assert Next(f) == Some(MakeDispatch(f, Planner, None, PlannedInput(rs, 0)));
    } else {
      FollowsKinds(f, rs, m);
      assert Rounds(true)[..m] == Rounds(false)[..m];
      OneRound(f, m);
      ReportAt(f, rs, m, m - 1, m);
      if m == 1 { FirstChoice(f, rs); } else { SecondChoice(f, rs); }
    }
  }

  lemma FirstChoice(f: Facts, rs: seq<Result>)
    requires |f.instances| == 1 <= |rs| && !ActiveOrFailed(f.instances, 1) && !AnyFailed(rs, 1)
    requires FinishedAre(f, [f.instances[0]], [], [], [])
    requires ReportOf(f.tasks, f.instances[0].task, |f.tasks|) == Some(rs[0].report)
    ensures Answers(f, rs, 1)
  {
    assert Next(f) == Choose(f, [f.instances[0]], [], [], []);
    assert Next(f) == Some(MakeDispatch(f, Implementer, Some(f.instances[0].id), PlannedInput(rs, 1)));
  }

  lemma SecondChoice(f: Facts, rs: seq<Result>)
    requires |f.instances| == 2 <= |rs| && !ActiveOrFailed(f.instances, 2) && !AnyFailed(rs, 2)
    requires FinishedAre(f, [f.instances[0]], [f.instances[1]], [], [])
    requires ReportOf(f.tasks, f.instances[1].task, |f.tasks|) == Some(rs[1].report)
    ensures Answers(f, rs, 2)
  {
    assert Next(f) == Choose(f, [f.instances[0]], [f.instances[1]], [], []);
    assert Next(f) == Some(MakeDispatch(f, Reviewer, Some(f.instances[1].id), PlannedInput(rs, 2)));
  }

  lemma NextReviewed(f: Facts, rs: seq<Result>)
    requires Follows(f, rs, 3) && !AnyFailed(rs, 3)
    ensures Answers(f, rs, 3)
  {
    FailedStops(f, rs, 3);
    FollowsKinds(f, rs, 3);
    assert Rounds(true)[..3] == Rounds(false)[..3];
    OneRound(f, 3);
    ReportAt(f, rs, 3, 2, 3);
    var x := f.instances;
    var c := if AcceptedAt(rs, 2) then Reporter else Implementer;
    assert Next(f) == Choose(f, [x[0]], [x[1]], [x[2]], []);
    assert Next(f) == Some(MakeDispatch(f, c, Some(x[2].id), PlannedInput(rs, 3)));
  }

  lemma NextReported(f: Facts, rs: seq<Result>)
    requires Follows(f, rs, 4) && !AnyFailed(rs, 4) && AcceptedAt(rs, 2)
    ensures Answers(f, rs, 4)
  {
    FailedStops(f, rs, 4);
    FollowsKinds(f, rs, 4);
    OneRound(f, 4);
    ReportAt(f, rs, 4, 2, 4);
    var x := f.instances;
    assert Next(f) == Choose(f, [x[0]], [x[1]], [x[2]], [x[3]]);
  }

  lemma NextSecondReview(f: Facts, rs: seq<Result>)
    requires Follows(f, rs, 4) && !AnyFailed(rs, 4) && !AcceptedAt(rs, 2)
    ensures Answers(f, rs, 4)
  {
    FailedStops(f, rs, 4);
    FollowsKinds(f, rs, 4);
    TwoRounds(f, 4);
    ReportAt(f, rs, 4, 3, 4);
    ReportAt(f, rs, 4, 2, 4);
    FourthChoice(f, rs);
  }

  lemma FourthChoice(f: Facts, rs: seq<Result>)
    requires |f.instances| == 4 <= |rs| && !ActiveOrFailed(f.instances, 4) && !AnyFailed(rs, 4) && !AcceptedAt(rs, 2)
    requires var x := f.instances;
             && FinishedAre(f, [x[0]], [x[1], x[3]], [x[2]], [])
             && ReportOf(f.tasks, x[2].task, |f.tasks|) == Some(rs[2].report)
             && ReportOf(f.tasks, x[3].task, |f.tasks|) == Some(rs[3].report)
    ensures Answers(f, rs, 4)
  {
    var x := f.instances;
    assert Next(f) == Choose(f, [x[0]], [x[1], x[3]], [x[2]], []);
    assert Next(f) == Some(MakeDispatch(f, Reviewer, Some(x[3].id), PlannedInput(rs, 4)));
  }

  lemma NextLast(f: Facts, rs: seq<Result>, m: nat)
    requires Follows(f, rs, m) && !AnyFailed(rs, m) && 5 <= m
    ensures Answers(f, rs, m)
  {
    FailedStops(f, rs, m);
    FollowsKinds(f, rs, m);
    TwoRounds(f, m);
    ReportAt(f, rs, m, 4, m);
    var x := f.instances;
    if m == 5 {
      assert Next(f) == Choose(f, [x[0]], [x[1], x[3]], [x[2], x[4]], []);
      assert Next(f) == Some(MakeDispatch(f, Reporter, Some(x[4].id), PlannedInput(rs, 5)));
    } else {
      assert Next(f) == Choose(f, [x[0]], [x[1], x[3]], [x[2], x[4]], [x[5]]);
    }
  }

  lemma NextFollows(f: Facts, rs: seq<Result>, m: nat)
    requires Follows(f, rs, m)
    ensures Answers(f, rs, m)
  {
    FailedStops(f, rs, m);
    if !AnyFailed(rs, m) {
      if m <= 2 { NextEarly(f, rs, m); }
      else if m == 3 { NextReviewed(f, rs); }
      else if m >= 5 { NextLast(f, rs, m); }
      else if AcceptedAt(rs, 2) { NextReported(f, rs); }
      else { NextSecondReview(f, rs); }
    }
  }

  // ---------------------------------------------------------------- whole runs

  /** The outcome list of a run that dispatched m tasks as planned. */
  ghost predicate Planned(outcomes: seq<Outcome>, rs: seq<Result>, m: nat) {
    && |outcomes| == m && m <= |rs|
    && (forall i :: 0 <= i < m ==> SlotPlanned(outcomes[i], rs, i))
    && (forall i :: 0 <= i < m ==> outcomes[i].dispatch.value.from == HandedBy(outcomes, i))
  }

  /** The instance before outcome i, when all before it were dispatched. */
  function HandedBy(outcomes: seq<Outcome>, i: nat): Option<InstanceId>
    requires i <= |outcomes|
  {
    if i == 0 || outcomes[i - 1].dispatch.None? then None else Some(outcomes[i - 1].dispatch.value.to)
  }

  /** Outcomes and instances name the same identities, one for one. */
  ghost predicate Linked(outcomes: seq<Outcome>, f: Facts, m: nat) {
    |outcomes| == m == |f.instances| && forall i :: 0 <= i < m ==> outcomes[i].dispatch.Some? && f.instances[i].id == outcomes[i].dispatch.value.to
  }

  ghost predicate SlotPlanned(o: Outcome, rs: seq<Result>, i: nat)
    requires i < |rs|
  {
    && o.dispatch.Some? && o.report == rs[i].report && o.failed == rs[i].failed
    && Plan(rs, i) == Some(o.dispatch.value.kind) && o.dispatch.value.input == PlannedInput(rs, i)
  }

  /** How many of the first k ticks dispatch something. */
  function Dispatched(rs: seq<Result>, k: nat): nat
    requires k <= |rs|
    ensures Dispatched(rs, k) <= k
  {
    if k == 0 then 0 else Advance(rs, Dispatched(rs, k - 1))
  }

  function Advance(rs: seq<Result>, m: nat): nat
    requires m <= |rs|
  {
    if Plan(rs, m).Some? then m + 1 else m
  }

  ghost predicate RunOk(run: string, rs: seq<Result>, outcomes: seq<Outcome>, m: nat) {
    && Planned(outcomes, rs, m) && Fold(Fresh(run), outcomes).Some?
    && Follows(Fold(Fresh(run), outcomes).value.facts, rs, m) && Linked(outcomes, Fold(Fresh(run), outcomes).value.facts, m)
  }

  /** Every tick folds to facts that follow the plan, and dispatches what the plan says. */
  lemma RunFollows(run: string, rs: seq<Result>, k: nat)
    requires k <= |rs|
    ensures RunOk(run, rs, OutcomesAfter(Fresh(run), rs, k), Dispatched(rs, k))
  {
    var ok := (outcomes: seq<Outcome>, n: nat) => RunOk(run, rs, outcomes, n);
    FreshOk(run, rs);
    forall before, m | 0 <= m < |rs| && ok(before, m) ensures ok(Ticker(Fresh(run), rs)(before), Advance(rs, m)) {
      RunTick(run, rs, before, m, ok);
    }
    RunInduction(Ticker(Fresh(run), rs), rs, k, ok);
  }

  lemma {:induction false} RunInduction(tick: seq<Outcome> -> seq<Outcome>, rs: seq<Result>, k: nat, ok: (seq<Outcome>, nat) -> bool)
    requires k <= |rs| && ok([], 0)
    requires forall before, m :: 0 <= m < |rs| && ok(before, m) ==> ok(tick(before), Advance(rs, m))
    ensures ok(Iterate(tick, [], k), Dispatched(rs, k))
  {
    if k > 0 { RunInduction(tick, rs, k - 1, ok); }
  }

  lemma FreshOk(run: string, rs: seq<Result>)
    ensures RunOk(run, rs, [], 0)
  {
  }

  lemma RunTick(run: string, rs: seq<Result>, before: seq<Outcome>, m: nat, ok: (seq<Outcome>, nat) -> bool)
    requires RunOk(run, rs, before, m) && m < |rs|
    requires forall outcomes, n :: RunOk(run, rs, outcomes, n) ==> ok(outcomes, n)
    ensures ok(Tick(Fresh(run), rs, before), Advance(rs, m))
  {
    var f := Fold(Fresh(run), before).value.facts;
    NextFollows(f, rs, m);
    if Plan(rs, m).Some? {
      var d := Next(f).value;
      TickOk(run, rs, before, m, f, d);
      assert Tick(Fresh(run), rs, before) == before + [Outcome(Some(d), rs[m].report, rs[m].failed)];
      assert ok(before + [Outcome(Some(d), rs[m].report, rs[m].failed)], m + 1);
    } else {
      assert ok(before, m);
    }
  }

  lemma TickOk(run: string, rs: seq<Result>, before: seq<Outcome>, m: nat, f: Facts, d: Dispatch)
    requires RunOk(run, rs, before, m) && m < |rs| && f == Fold(Fresh(run), before).value.facts && Plan(rs, m).Some?
    requires d == MakeDispatch(f, Plan(rs, m).value, PlannedFrom(f, m), PlannedInput(rs, m))
    ensures RunOk(run, rs, before + [Outcome(Some(d), rs[m].report, rs[m].failed)], m + 1)
  {
    var o := Outcome(Some(d), rs[m].report, rs[m].failed);
    FollowsGrows(f, rs, m, Plan(rs, m).value, PlannedFrom(f, m), PlannedInput(rs, m));
    DispatchNew(f, rs, m, Plan(rs, m).value, PlannedFrom(f, m), PlannedInput(rs, m));
    FoldAppend(Fresh(run), before, o);
    LinkedGrows(before, f, m, o);
    PlannedGrows(before, rs, m, o);
  }

  lemma LinkedGrows(before: seq<Outcome>, f: Facts, m: nat, o: Outcome)
    requires Linked(before, f, m) && o.dispatch.Some? && !KnownInstance(f.instances, o.dispatch.value.to)
    ensures Linked(before + [o], FoldOne(f, o.dispatch.value, o.report, o.failed), m + 1)
  {
  }

  lemma PlannedGrows(before: seq<Outcome>, rs: seq<Result>, m: nat, o: Outcome)
    requires Planned(before, rs, m) && m < |rs| && SlotPlanned(o, rs, m) && o.dispatch.value.from == HandedBy(before, m)
    ensures Planned(before + [o], rs, m + 1)
  {
    var longer := before + [o];
    forall i | 0 <= i < m + 1 ensures SlotPlanned(longer[i], rs, i) && longer[i].dispatch.value.from == HandedBy(longer, i) {
      if i < m { assert SlotPlanned(before[i], rs, i) && longer[i] == before[i]; }
    }
  }

  lemma FoldAppend(base: State, before: seq<Outcome>, o: Outcome)
    requires Fold(base, before).Some? && o.dispatch.Some?
    ensures Fold(base, before + [o]) == Some(State(FoldOne(Fold(base, before).value.facts, o.dispatch.value, o.report, o.failed), before + [o]))
  {
    FoldMore(FoldOutcome, base.facts, before, o);
  }

  lemma FoldMore<S, O>(step: (S, O) -> Option<S>, st: S, items: seq<O>, o: O)
    ensures FoldFirst(step, st, items + [o], |items| + 1) ==
            match FoldFirst(step, st, items, |items|) case None => None case Some(s) => step(s, o)
  {
    FoldPrefix(step, st, items, items + [o], |items|);
  }

  function Classes(outcomes: seq<Outcome>): seq<Class>
    requires forall i :: 0 <= i < |outcomes| ==> outcomes[i].dispatch.Some?
  {
    if outcomes == [] then [] else Classes(outcomes[..|outcomes| - 1]) + [outcomes[|outcomes| - 1].dispatch.value.kind]
  }

  lemma {:induction false} ClassesAt(outcomes: seq<Outcome>, i: nat)
    requires forall i :: 0 <= i < |outcomes| ==> outcomes[i].dispatch.Some?
    requires i < |outcomes|
    ensures |Classes(outcomes)| == |outcomes| && Classes(outcomes)[i] == outcomes[i].dispatch.value.kind
  {
    if |outcomes| > 1 { ClassesAt(outcomes[..|outcomes| - 1], if i < |outcomes| - 1 then i else 0); }
  }

  /** The first verdict is the word "accept". */
  ghost predicate FirstAccepts(rs: seq<Result>) { |rs| > 2 && SaysAccept(rs[2].report) }

  /** The outcomes are those of a prefix of planner, implementer, reviewer, reporter when the first verdict is
      the word "accept", and else of planner, implementer, reviewer, implementer, reviewer, reporter. Each task
      is handed over by the one before it, with its report; the second round is told that it is a revision,
      and its reporter that the revision limit is reached exactly when the second verdict is not the word
      "accept" either. Nothing follows a failure. */
  ghost predicate InRounds(outcomes: seq<Outcome>, rs: seq<Result>) {
    && |outcomes| <= 6 && |outcomes| <= |rs|
    && (forall i :: 0 <= i < |outcomes| ==> outcomes[i].dispatch.Some?)
    && (FirstAccepts(rs) ==> Classes(outcomes) <= [Planner, Implementer, Reviewer, Reporter])
    && (!FirstAccepts(rs) ==> Classes(outcomes) <= [Planner, Implementer, Reviewer, Implementer, Reviewer, Reporter])
    && (forall i :: 0 <= i < |outcomes| ==> outcomes[i].dispatch.value.from == HandedBy(outcomes, i))
    && (forall i :: 0 <= i < |outcomes| ==> outcomes[i].report == rs[i].report && outcomes[i].failed == rs[i].failed)
    && (forall i :: 0 <= i < |outcomes| ==> ToldInRounds(outcomes[i].dispatch.value.input, rs, i))
    && (forall i :: 0 <= i < |outcomes| - 1 ==> !outcomes[i].failed)
  }

  /** What the i-th task is told. */
  ghost predicate ToldInRounds(input: Input, rs: seq<Result>, i: nat)
    requires i < |rs|
  {
    && input.previous == (if i == 0 then None else Some(rs[i - 1].report))
    && (input.revision <==> i in {3, 4} && !FirstAccepts(rs))
    && (input.limitReached <==> i == 5 && !SaysAccept(rs[4].report))
  }

  /** Every run dispatches a prefix of the rounds, at most six tasks, and nothing after a failure. */
  lemma RunInRounds(run: string, rs: seq<Result>, k: nat)
    requires k <= |rs|
    ensures InRounds(OutcomesAfter(Fresh(run), rs, k), rs)
  {
    RunFollows(run, rs, k);
    PlannedInRounds(OutcomesAfter(Fresh(run), rs, k), rs, Dispatched(rs, k));
  }

  lemma AcceptedText(rs: seq<Result>, i: nat)
    requires i < |rs|
    ensures AcceptedAt(rs, i) <==> SaysAccept(rs[i].report)
  {
    AcceptsExactly(Some(rs[i].report));
  }

  lemma PlannedKinds(outcomes: seq<Outcome>, rs: seq<Result>, m: nat, i: nat)
    requires Planned(outcomes, rs, m) && i < m
    ensures outcomes[i].dispatch.Some? && outcomes[i].report == rs[i].report && outcomes[i].failed == rs[i].failed
    ensures var rounds := Rounds(m > 3 && AcceptedAt(rs, 2)); m <= |rounds| && outcomes[i].dispatch.value.kind == rounds[i]
    ensures ToldInRounds(outcomes[i].dispatch.value.input, rs, i)
    ensures i < m - 1 ==> !outcomes[i].failed
  {
    assert SlotPlanned(outcomes[i], rs, i) && SlotPlanned(outcomes[m - 1], rs, m - 1);
    if i > 2 { AcceptedText(rs, 2); }
    if i > 4 { AcceptedText(rs, 4); }
  }

  lemma PlannedInRounds(outcomes: seq<Outcome>, rs: seq<Result>, m: nat)
    requires Planned(outcomes, rs, m)
    ensures InRounds(outcomes, rs)
  {
    var rounds := Rounds(m > 3 && AcceptedAt(rs, 2));
    forall i | 0 <= i < m
      ensures outcomes[i].dispatch.Some? && m <= |rounds| && outcomes[i].dispatch.value.kind == rounds[i]
      ensures outcomes[i].report == rs[i].report && outcomes[i].failed == rs[i].failed
      ensures ToldInRounds(outcomes[i].dispatch.value.input, rs, i)
      ensures i < m - 1 ==> !outcomes[i].failed
    {
      PlannedKinds(outcomes, rs, m, i);
    }
    ClassesAre(outcomes, rounds);
    if m > 3 {
      AcceptedText(rs, 2);
    } else {
      ClassesShort(outcomes, rounds);
    }
  }

  /** Up to the first verdict the two kinds of run are the same. */
  lemma {:induction false} ClassesShort(outcomes: seq<Outcome>, rounds: seq<Class>)
    requires |outcomes| <= 3 && (forall i :: 0 <= i < |outcomes| ==> outcomes[i].dispatch.Some?)
    requires Classes(outcomes) <= rounds && (rounds == Rounds(true) || rounds == Rounds(false))
    ensures Classes(outcomes) <= Rounds(true) && Classes(outcomes) <= Rounds(false)
  {
    if outcomes != [] { ClassesAt(outcomes, 0); }
    assert Rounds(true)[..3] == Rounds(false)[..3];
  }

  lemma ClassesAre(outcomes: seq<Outcome>, rounds: seq<Class>)
    requires |outcomes| <= |rounds|
    requires forall i :: 0 <= i < |outcomes| ==> outcomes[i].dispatch.Some? && outcomes[i].dispatch.value.kind == rounds[i]
    ensures Classes(outcomes) <= rounds
  {
    forall i | 0 <= i < |outcomes| ensures |Classes(outcomes)| == |outcomes| && Classes(outcomes)[i] == rounds[i] {
      ClassesAt(outcomes, i);
    }
  }

  /** A run without failures goes through all its rounds: four tasks when the first verdict is the word
      "accept", and else six. */
  lemma RunCompletes(run: string, rs: seq<Result>)
    requires 6 <= |rs| && !AnyFailed(rs, |rs|)
    ensures var outcomes := OutcomesAfter(Fresh(run), rs, |rs|);
            && (forall i :: 0 <= i < |outcomes| ==> outcomes[i].dispatch.Some?)
            && Classes(outcomes) == if SaysAccept(rs[2].report) then [Planner, Implementer, Reviewer, Reporter]
                                    else [Planner, Implementer, Reviewer, Implementer, Reviewer, Reporter]
  {
    RunFollows(run, rs, |rs|);
    DispatchedCount(rs, |rs|);
    RunInRounds(run, rs, |rs|);
    AcceptedText(rs, 2);
    var outcomes := OutcomesAfter(Fresh(run), rs, |rs|);
    ClassesAt(outcomes, 0);
  }

  lemma {:induction false} DispatchedCount(rs: seq<Result>, k: nat)
    requires 6 <= |rs| && k <= |rs| && !AnyFailed(rs, |rs|)
    ensures Dispatched(rs, k) == if k < |Rounds(AcceptedAt(rs, 2))| then k else |Rounds(AcceptedAt(rs, 2))|
  {
    if k > 0 {
      DispatchedCount(rs, k - 1);
      assert !AnyFailed(rs, Dispatched(rs, k - 1));
    }
  }

  // ---------------------------------------------------------------- the loops

  method FinishedForClass(instances: seq<Instance>, c: Class) returns (xs: seq<Instance>)
    ensures xs == FinishedOf(instances, c, |instances|)
  {
    xs := [];
    for k := 0 to |instances|
      invariant xs == FinishedOf(instances, c, k)
    {
      if instances[k].kind == c && instances[k].phase == Finished { xs := xs + [instances[k]]; }
    }
  }

  method ClassAttemptCount(instances: seq<Instance>, c: Class) returns (count: nat)
    ensures count == AttemptsOf(instances, c, |instances|)
  {
    count := 0;
    for k := 0 to |instances|
      invariant count == AttemptsOf(instances, c, k)
    {
      if instances[k].kind == c { count := count + 1; }
    }
  }

  /** reportForTask searches from the end. */
  method ReportForTask(tasks: seq<Task>, id: string) returns (report: Option<Report>)
    ensures report == ReportOf(tasks, id, |tasks|)
  {
    var k: nat := |tasks|;
    while k > 0
      invariant k <= |tasks| && ReportOf(tasks, id, |tasks|) == ReportOf(tasks, id, k)
    {
      if tasks[k - 1].id == id { return tasks[k - 1].result; }
      k := k - 1;
    }
    report := None;
  }

  /** activeOrFailed. */
  method AnyActiveOrFailed(instances: seq<Instance>) returns (found: bool)
    ensures found == ActiveOrFailed(instances, |instances|)
  {
    for k := 0 to |instances|
      invariant !ActiveOrFailed(instances, k)
    {
      if instances[k].phase != Finished {
        StaysActive(instances, k + 1, |instances|);
        return true;
      }
    }
    found := false;
  }

  lemma {:induction false} StaysActive(instances: seq<Instance>, k: nat, n: nat)
    requires k <= n <= |instances| && ActiveOrFailed(instances, k)
    ensures ActiveOrFailed(instances, n)
    decreases n
  {
    if k < n { StaysActive(instances, k, n - 1); }
  }

  /** dispatch: the attempt and the instance are numbered from the snapshot. */
  method DispatchTo(st: Facts, c: Class, from: Option<InstanceId>, input: Input) returns (d: Dispatch)
    ensures d == MakeDispatch(st, c, from, input)
  {
    var count := ClassAttemptCount(st.instances, c);
    var task := st.run + "-" + ClassName(c) + AttemptSuffix(count + 1);
    d := Dispatch(MakeInstanceId(c, st.run, task, |st.instances|), c, task, input, from);
  }

  /** CodingScheduler.Next, reading the snapshot as it goes. */
  method ScheduleNext(st: Facts) returns (d: Option<Dispatch>)
    ensures d == Next(st)
  {
    var busy := AnyActiveOrFailed(st.instances);
    if busy { return None; }
    var planners := FinishedForClass(st.instances, Planner);
    if planners == [] {
      var first := DispatchTo(st, Planner, None, Input(None, false, false));
      return Some(first);
    }
    var implementers := FinishedForClass(st.instances, Implementer);
    if implementers == [] {
      var previous := ReportForTask(st.tasks, planners[|planners| - 1].task);
      var work := DispatchTo(st, Implementer, Some(planners[|planners| - 1].id), Input(previous, false, false));
      return Some(work);
    }
    var reviewers := FinishedForClass(st.instances, Reviewer);
    d := ScheduleReview(st, implementers, reviewers);
  }

  /** The part of Next that turns on the reviews. */
  method ScheduleReview(st: Facts, implementers: seq<Instance>, reviewers: seq<Instance>) returns (d: Option<Dispatch>)
    requires implementers != [] && implementers == FinishedOf(st.instances, Implementer, |st.instances|)
    requires reviewers == FinishedOf(st.instances, Reviewer, |st.instances|)
    ensures forall planners: seq<Instance> :: planners != [] ==>
              d == Choose(st, planners, implementers, reviewers, FinishedOf(st.instances, Reporter, |st.instances|))
  {
    var implementer := implementers[|implementers| - 1];
    if reviewers == [] {
      var previous := ReportForTask(st.tasks, implementer.task);
      var look := DispatchTo(st, Reviewer, Some(implementer.id), Input(previous, false, false));
      return Some(look);
    }
    var reviewer := reviewers[|reviewers| - 1];
    var review := ReportForTask(st.tasks, reviewer.task);
    if !Accepts(review) && |implementers| == 1 {
      var again := DispatchTo(st, Implementer, Some(reviewer.id), Input(review, true, false));
      return Some(again);
    }
    if |implementers| == 2 && |reviewers| == 1 {
      var previous := ReportForTask(st.tasks, implementer.task);
      var second := DispatchTo(st, Reviewer, Some(implementer.id), Input(previous, true, false));
      return Some(second);
    }
    var reporters := FinishedForClass(st.instances, Reporter);
    if reporters != [] { return None; }
    var report := DispatchTo(st, Reporter, Some(reviewer.id), Input(review, false, !Accepts(review)));
    return Some(report);
  }

  /** foldTeamOrchestration with its sets of known identities. */
  method FoldTeam(base: State, outcomes: seq<Outcome>) returns (r: Option<State>)
    ensures r == Fold(base, outcomes)
  {
    var st := base.facts;
    var knownTasks := set t | t in st.tasks :: t.id;
    var knownInstances := set x | x in st.instances :: x.id;
    KnownSets(st);
    var k := 0;
    while k < |outcomes|
      invariant k <= |outcomes|
      invariant FoldFirst(FoldOutcome, base.facts, outcomes, k) == Some(st)
      invariant forall id :: id in knownTasks <==> KnownTask(st.tasks, id)
      invariant forall id :: id in knownInstances <==> KnownInstance(st.instances, id)
    {
      var o := outcomes[k];
      if o.dispatch.None? {
        FoldRefused(FoldOutcome, base.facts, outcomes, k + 1, |outcomes|);
        return None;
      }
      st, knownTasks, knownInstances := TakeOutcome(st, knownTasks, knownInstances, o.dispatch.value, o.report, o.failed);
      k := k + 1;
    }
    r := Some(State(st, outcomes));
  }

  lemma KnownSets(st: Facts)
    ensures forall id :: id in (set t | t in st.tasks :: t.id) <==> KnownTask(st.tasks, id)
    ensures forall id :: id in (set x | x in st.instances :: x.id) <==> KnownInstance(st.instances, id)
  {
    forall id ensures id in (set t | t in st.tasks :: t.id) <==> KnownTask(st.tasks, id) {
      if KnownTask(st.tasks, id) {
        var i :| 0 <= i < |st.tasks| && st.tasks[i].id == id;
        assert st.tasks[i] in st.tasks;
      }
    }
    forall id ensures id in (set x | x in st.instances :: x.id) <==> KnownInstance(st.instances, id) {
      if KnownInstance(st.instances, id) {
        var i :| 0 <= i < |st.instances| && st.instances[i].id == id;
        assert st.instances[i] in st.instances;
      }
    }
  }

  /** One outcome: a task and an instance are appended unless their identities are known. */
  method TakeOutcome(before: Facts, tasks: set<string>, instances: set<InstanceId>, d: Dispatch, report: Report, failed: bool)
    returns (st: Facts, knownTasks: set<string>, knownInstances: set<InstanceId>)
    requires forall id :: id in tasks <==> KnownTask(before.tasks, id)
    requires forall id :: id in instances <==> KnownInstance(before.instances, id)
    ensures st == FoldOne(before, d, report, failed)
    ensures forall id :: id in knownTasks <==> KnownTask(st.tasks, id)
    ensures forall id :: id in knownInstances <==> KnownInstance(st.instances, id)
  {
    st, knownTasks, knownInstances := before, tasks, instances;
    if d.task !in knownTasks {
      st := st.(tasks := st.tasks + [Task(d.task, Some(report), failed)]);
      knownTasks := knownTasks + {d.task};
    }
    if d.to !in knownInstances {
      st := st.(instances := st.instances + [Instance(d.to, d.kind, d.task, if failed then Failed else Finished)]);
      knownInstances := knownInstances + {d.to};
    }
    KnownAppend(before, d, report, failed);
  }

  lemma KnownAppend(st: Facts, d: Dispatch, report: Report, failed: bool)
    ensures var after := FoldOne(st, d, report, failed);
            && (forall id :: KnownTask(after.tasks, id) <==> KnownTask(st.tasks, id) || id == d.task)
            && (forall id :: KnownInstance(after.instances, id) <==> KnownInstance(st.instances, id) || id == d.to)
  {
    var after := FoldOne(st, d, report, failed);
    FoldOutcomeKnows(st, Outcome(Some(d), report, failed));
    assert forall i :: 0 <= i < |st.tasks| ==> after.tasks[i] == st.tasks[i];
    assert forall i :: 0 <= i < |st.instances| ==> after.instances[i] == st.instances[i];
  }

  lemma {:induction false} FoldRefused<S, O>(step: (S, O) -> Option<S>, st: S, items: seq<O>, k: nat, n: nat)
    requires k <= n && n <= |items| && FoldFirst(step, st, items, k).None?
    ensures FoldFirst(step, st, items, n).None?
    decreases n
  {
    if k < n { FoldRefused(step, st, items, k, n - 1); }
  }

  lemma TickGives(base: State, rs: seq<Result>, ticks: nat, state: State, d: Dispatch)
    requires state.outcomes == OutcomesAfter(base, rs, ticks) && Fold(base, state.outcomes) == Some(state)
    requires Next(state.facts) == Some(d) && |state.outcomes| < |rs|
    ensures var r := rs[|state.outcomes|];
            var outcomes := state.outcomes + [Outcome(Some(d), r.report, r.failed)];
            && OutcomesAfter(base, rs, ticks + 1) == outcomes
            && Fold(state, outcomes) == Fold(base, outcomes)
            && Fold(base, outcomes).Some? && Fold(base, outcomes).value.outcomes == outcomes
  {
    var r := rs[|state.outcomes|];
    var o := Outcome(Some(d), r.report, r.failed);
    assert Ticker(base, rs)(state.outcomes) == state.outcomes + [o];
    FoldAppend(base, state.outcomes, o);
    FoldComposes(base, state.outcomes, state.outcomes + [o]);
  }

  /** What can go wrong in a tick: the drive fails, before or after the dispatched task has run, or the
      state cannot be saved. */
  datatype Fault = NoFault | DriveFails(ran: bool) | SaveFails

  datatype Ending = Completed | OutOfTicks | DriveFailed | SaveFailed

  /** The state after some ticks: all outcomes so far folded onto the base. */
  ghost predicate ReachedBy(base: State, rs: seq<Result>, ticks: nat, state: State) {
    state.outcomes == OutcomesAfter(base, rs, ticks) && Fold(base, state.outcomes) == Some(state) && |state.outcomes| <= |base.outcomes| + ticks
  }

  /** The drive of one tick: ask the scheduler and, unless the drive fails before, run what it dispatches. */
  method DriveOnce(base: State, rs: seq<Result>, ghost ticks: nat, state: State, fault: Fault) returns (outcomes: seq<Outcome>, idle: bool)
    requires ReachedBy(base, rs, ticks, state) && |state.outcomes| < |rs|
    ensures idle <==> Next(state.facts).None?
    ensures outcomes == if idle || fault == DriveFails(false) then state.outcomes else OutcomesAfter(base, rs, ticks + 1)
    ensures Fold(state, outcomes).Some? && ReachedBy(base, rs, if outcomes == state.outcomes then ticks else ticks + 1, Fold(state, outcomes).value)
  {
    FoldComposes(base, state.outcomes, state.outcomes);
    var folded := FoldTeam(state, state.outcomes);
    var dispatch := ScheduleNext(folded.value.facts);
    outcomes, idle := state.outcomes, dispatch.None?;
    if dispatch.Some? && fault != DriveFails(false) {
      var r := rs[|state.outcomes|];
      outcomes := state.outcomes + [Outcome(dispatch, r.report, r.failed)];
      TickGives(base, rs, ticks, state, dispatch.value);
    }
  }

  /** driveTeam: every tick folds onto the state of the tick before and saves it, which is what a restarted
      run loads. However it ends, the state and the saved state are those of an uninterrupted run after
      some ticks, and the saved one is at most one tick behind. */
  method DriveTeam(base: State, rs: seq<Result>, maxTicks: nat, faults: seq<Fault>)
    returns (state: State, saved: State, ending: Ending, ghost ticks: nat, ghost kept: nat)
    requires Fold(base, base.outcomes) == Some(base) && |base.outcomes| + maxTicks <= |rs| && maxTicks <= |faults|
    ensures ticks <= maxTicks && ReachedBy(base, rs, ticks, state)
    ensures kept <= ticks <= kept + 1 && ReachedBy(base, rs, kept, saved) && (ending != SaveFailed ==> saved == state)
    ensures ending == Completed ==> Next(state.facts).None?
    ensures ending == OutOfTicks ==> ticks == maxTicks
    ensures (forall k :: 0 <= k < maxTicks ==> faults[k] == NoFault) ==> ending == Completed || ending == OutOfTicks
  {
    state, saved, ticks, kept := base, base, 0, 0;
    for completed := 0 to maxTicks
      invariant ticks == kept == completed && saved == state && ReachedBy(base, rs, ticks, state)
    {
      var fault := faults[completed];
      var outcomes, idle := DriveOnce(base, rs, ticks, state, fault);
      var folded := FoldTeam(state, outcomes);
      if outcomes != state.outcomes { ticks := ticks + 1; }
      state := folded.value;
      if fault == SaveFails {
        ending := SaveFailed;
        return;
      }
      saved, kept := state, ticks;
      if fault != NoFault {
        ending := DriveFailed;
        return;
      }
      if idle {
        ending := Completed;
        return;
      }
    }
    ending := OutOfTicks;
  }
}

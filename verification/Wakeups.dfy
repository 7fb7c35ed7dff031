/** A notification channel that is closed once and then replaced. */
module Signals {
  class Signal {
    var closed: bool

    constructor ()
      ensures !closed
    {
      closed := false;
    }
  }
}

/** The shell runtime's slots: every step is one critical section of its mutex. A caller that finds
    no slot parks on the channel it read inside the critical section. */
module Shell {
  import opened Signals

  /** Who holds a slot, who is parked, and whether the channel a parked caller reads has been closed. */
  datatype Slots = Slots(holders: set<nat>, running: nat, limit: nat, closing: bool, parked: map<nat, bool>)

  /** What callers do: try for a slot, leave the channel, give the slot back, and reconfigure. */
  datatype Op = Acquire(p: nat) | Unpark(p: nat) | Release(p: nat) | SetLimit(max: int) | ShutDown

  datatype Attempt = Acquired | ShuttingDown | MustWait

  /** signalChangedLocked: every parked caller can go on. */
  function Signalled(parked: map<nat, bool>): map<nat, bool> { map p | p in parked :: true }

  function Tried(s: Slots, p: nat): Attempt {
    if s.closing then ShuttingDown else if s.running < s.limit then Acquired else MustWait
  }

  function Step(s: Slots, op: Op): Slots {
    match op
    case Acquire(p) =>
      if p in s.holders || p in s.parked then s
      else
        (match Tried(s, p)
         case ShuttingDown => s
         case Acquired => s.(running := s.running + 1, holders := s.holders + {p})
         case MustWait => s.(parked := s.parked[p := false]))
    case Unpark(p) => s.(parked := s.parked - {p})
    case Release(p) =>
      s.(running := if s.running > 0 then s.running - 1 else 0, holders := s.holders - {p}, parked := Signalled(s.parked))
    case SetLimit(max) => if max < 1 then s else s.(limit := max, parked := Signalled(s.parked))
    case ShutDown => s.(closing := true, parked := Signalled(s.parked))
  }

  function After(limit: nat, ops: seq<Op>): Slots {
    if ops == [] then Slots({}, 0, limit, false, map[]) else Step(After(limit, ops[..|ops| - 1]), ops[|ops| - 1])
  }

  /** Nobody is counted who holds no slot; whoever is parked on an open channel has nothing to be woken for. */
  ghost predicate Ok(s: Slots) {
    && s.running <= |s.holders| && s.limit >= 1
    && (forall p :: p in s.parked ==> p !in s.holders)
    && (forall p :: p in s.parked && !s.parked[p] ==> !s.closing && s.running >= s.limit)
  }

  lemma StepOk(s: Slots, op: Op)
    requires Ok(s)
    ensures Ok(Step(s, op))
  {
    match op
    case Acquire(p) => AcquireOk(s, p);
    case Release(p) => ReleaseOk(s, p);
    case _ =>
  }

  lemma AcquireOk(s: Slots, p: nat)
    requires Ok(s)
    ensures Ok(Step(s, Acquire(p)))
  {
    if p !in s.holders { assert |s.holders + {p}| == |s.holders| + 1; }
  }

  lemma ReleaseOk(s: Slots, p: nat)
    requires Ok(s)
    ensures Ok(Step(s, Release(p)))
  {
    HoldersLess(s.holders, p);
  }

  lemma HoldersLess(holders: set<nat>, p: nat)
    ensures |holders - {p}| == if p in holders then |holders| - 1 else |holders|
  {
    if p !in holders { assert holders - {p} == holders; }
  }

  lemma {:induction false} AfterOk(limit: nat, ops: seq<Op>)
    requires limit >= 1
    ensures Ok(After(limit, ops))
  {
    if ops != [] {
      AfterOk(limit, ops[..|ops| - 1]);
      StepOk(After(limit, ops[..|ops| - 1]), ops[|ops| - 1]);
    }
  }

  /** No wake-up is lost, in any interleaving and whoever releases: a caller parked on an open channel
      implies that nothing is closing and that the count has reached the current limit. */
  lemma NoLostWakeup(limit: nat, ops: seq<Op>, p: nat)
    requires limit >= 1 && p in After(limit, ops).parked
    ensures var s := After(limit, ops);
            && s.running <= |s.holders|
            && (s.closing || s.running < s.limit ==> s.parked[p])
  {
    AfterOk(limit, ops);
  }

  /** A caller that comes is turned away while closing, gets a slot below the limit, and parks otherwise. */
  lemma AcquireExactly(limit: nat, ops: seq<Op>, p: nat)
    requires p !in After(limit, ops).holders && p !in After(limit, ops).parked
    ensures var s, next := After(limit, ops), After(limit, ops + [Acquire(p)]);
            && (s.closing ==> next == s)
            && (!s.closing && s.running < s.limit ==> next == s.(running := s.running + 1, holders := s.holders + {p}))
            && (!s.closing && s.running >= s.limit ==> next == s.(parked := s.parked[p := false]))
  {
    assert (ops + [Acquire(p)])[..|ops|] == ops;
  }

  /** The greatest limit there has been. */
  function Highest(limit: nat, ops: seq<Op>): nat {
    if ops == [] then limit
    else
      var before, last := Highest(limit, ops[..|ops| - 1]), ops[|ops| - 1];
      if last.SetLimit? && last.max > before then last.max else before
  }

  /** At no time are more slots counted than the greatest limit there has been allows. */
  lemma {:induction false} CountBounded(limit: nat, ops: seq<Op>)
    ensures After(limit, ops).running <= Highest(limit, ops) && After(limit, ops).limit <= Highest(limit, ops)
  {
    if ops != [] { CountBounded(limit, ops[..|ops| - 1]); }
  }

  /** The count is the number of holders. */
  predicate Counted(s: Slots) { s.running == |s.holders| }

  /** A release that is due: by a holder, or when nothing is counted. */
  predicate Due(s: Slots, op: Op) { op.Release? ==> op.p in s.holders || s.running == 0 }

  lemma StepCounts(s: Slots, op: Op)
    requires Counted(s)
    ensures Counted(Step(s, op)) <==> Due(s, op)
  {
    if op.Release? { HoldersLess(s.holders, op.p); }
  }

  /** The property holds of every prefix of the history, the history itself included. */
  ghost predicate Throughout(ops: seq<Op>, holds: seq<Op> -> bool) { forall k :: 0 <= k <= |ops| ==> holds(ops[..k]) }

  /** The property holds of every step together with the history before it. */
  ghost predicate EachStep(ops: seq<Op>, holds: (seq<Op>, Op) -> bool) { forall k :: 0 <= k < |ops| ==> holds(ops[..k], ops[k]) }

  lemma ThroughoutGrows(ops: seq<Op>, holds: seq<Op> -> bool)
    requires ops != []
    ensures Throughout(ops, holds) <==> Throughout(ops[..|ops| - 1], holds) && holds(ops)
  {
    var init := ops[..|ops| - 1];
    assert forall k :: 0 <= k <= |init| ==> init[..k] == ops[..k];
    assert ops[..|ops|] == ops;
  }

  lemma EachStepGrows(ops: seq<Op>, holds: (seq<Op>, Op) -> bool)
    requires ops != []
    ensures EachStep(ops, holds) <==> EachStep(ops[..|ops| - 1], holds) && holds(ops[..|ops| - 1], ops[|ops| - 1])
  {
    var init := ops[..|ops| - 1];
    assert forall k :: 0 <= k <= |init| ==> init[..k] == ops[..k];
  }

  function IsCounted(limit: nat): seq<Op> -> bool { h => Counted(After(limit, h)) }

  function IsDue(limit: nat): (seq<Op>, Op) -> bool { (h, op) => Due(After(limit, h), op) }

  /** The count is the number of holders throughout a history exactly when every release in it is due. */
  lemma {:induction false} CountExactly(limit: nat, ops: seq<Op>)
    ensures Throughout(ops, IsCounted(limit)) <==> EachStep(ops, IsDue(limit))
  {
    if ops == [] {
      assert ops[..0] == [];
    } else {
      var init, last := ops[..|ops| - 1], ops[|ops| - 1];
      CountExactly(limit, init);
      ThroughoutGrows(ops, IsCounted(limit));
      EachStepGrows(ops, IsDue(limit));
      if Throughout(init, IsCounted(limit)) {
        assert IsCounted(limit)(init) by { assert init[..|init|] == init; }
        StepCounts(After(limit, init), last);
      }
    }
  }

  class ShellRuntime {
    var running: nat
    var limit: nat
    var closing: bool
    var changed: Signal
    ghost var holders: set<nat>
    ghost var parked: map<nat, Signal>

    ghost function Now(): Slots
      reads this, parked.Values
    {
      Slots(holders, running, limit, closing, map p | p in parked :: parked[p].closed)
    }

    /** The slots are in order, and every channel but the current one has been closed. */
    ghost predicate Valid()
      reads this, changed, parked.Values
    {
      Ok(Now()) && ChannelsOk()
    }

    ghost predicate ChannelsOk()
      reads this, changed, parked.Values
    {
      !changed.closed && forall p :: p in parked ==> parked[p].closed || parked[p] == changed
    }

    constructor (limit: nat)
      requires limit >= 1
      ensures Valid() && fresh(changed) && Now() == After(limit, [])
    {
      this.limit := limit;
      running, closing := 0, false;
      changed := new Signal();
      holders, parked := {}, map[];
    }

    method Signal()
      requires ChannelsOk()
      modifies this`changed, changed
      ensures fresh(changed) && ChannelsOk() && Now() == old(Now()).(parked := Signalled(old(Now()).parked))
      ensures forall p :: p in parked ==> parked[p].closed
    {
      changed.closed := true;
      changed := new Signal();
    }

    /** One turn of acquire. */
    method TryAcquire(p: nat) returns (r: Attempt)
      requires Valid() && p !in holders && p !in parked
      modifies this`running, this`holders, this`parked
      ensures Valid() && Now() == Step(old(Now()), Acquire(p))
      ensures r == if closing then ShuttingDown else if old(running) < limit then Acquired else MustWait
      ensures r == Acquired <==> p in holders
      ensures r == MustWait <==> p in parked && parked[p] == changed
    {
      StepOk(Now(), Acquire(p));
      if closing { return ShuttingDown; }
      if running < limit {
        running := running + 1;
        holders := holders + {p};
        return Acquired;
      }
      Park(p);
      return MustWait;
    }

    ghost method Park(p: nat)
      requires ChannelsOk() && p !in parked
      modifies this`parked
      ensures ChannelsOk() && p in parked && parked[p] == changed && Now() == old(Now()).(parked := old(Now()).parked[p := false])
    {
      parked := parked[p := changed];
      assert Now().parked == old(Now()).parked[p := false];
    }

    /** The channel was closed, or the caller gave up: it leaves the channel. */
    method LeaveChannel(p: nat)
      requires Valid()
      modifies this`parked
      ensures Valid() && Now() == Step(old(Now()), Unpark(p))
    {
      StepOk(Now(), Unpark(p));
      parked := parked - {p};
      assert Now().parked == old(Now()).parked - {p};
    }

    /** release wakes every parked caller, whoever calls it. A count that is the number of holders stays so
        exactly when a holder releases or nothing is counted. */
    method ReleaseSlot(p: nat)
      requires Valid()
      modifies this`running, this`holders, this`changed, changed
      ensures Valid() && Now() == Step(old(Now()), Release(p))
      ensures parked == old(parked) && forall q :: q in parked ==> parked[q].closed
      ensures running == (if old(running) > 0 then old(running) - 1 else 0) && holders == old(holders) - {p}
      ensures old(running) == old(|holders|) ==> (running == |holders| <==> p in old(holders) || old(running) == 0)
    {
      StepOk(Now(), Release(p));
      HoldersLess(holders, p);
      if running > 0 { running := running - 1; }
      holders := holders - {p};
      Signal();
    }

    method UpdateMaxConcurrency(max: int)
      requires Valid()
      modifies this`limit, this`changed, changed
      ensures Valid() && Now() == Step(old(Now()), SetLimit(max))
      ensures limit == if max < 1 then old(limit) else max
      ensures max >= 1 ==> forall q :: q in parked ==> parked[q].closed
    {
      StepOk(Now(), SetLimit(max));
      if max < 1 { return; }
      limit := max;
      Signal();
    }

    method Shutdown()
      requires Valid()
      modifies this`closing, this`changed, changed
      ensures Valid() && Now() == Step(old(Now()), ShutDown)
      ensures closing && forall q :: q in parked ==> parked[q].closed
    {
      StepOk(Now(), ShutDown);
      closing := true;
      Signal();
    }
  }
}

/** Background jobs: started, settled once, pruned later; waiters park on the manager's channel. */
module Jobs {
  import opened Signals

  datatype Status = Running | Completed | Failed | Cancelled

  /** `stopped` says that the job's context has been cancelled. */
  datatype Job = Job(owner: string, status: Status, settledAt: int, stopped: bool)

  /** What a waiter asks for: jobs of an owner ("" for any), of a set of identities (empty for all). */
  datatype Query = Query(owner: string, ids: set<nat>)

  datatype Ending = Ending(fails: bool, isError: bool)

  const RETENTION: int := 300

  predicate Matches(q: Query, id: nat, job: Job) {
    (q.ids == {} || id in q.ids) && (q.owner == "" || job.owner == q.owner)
  }

  /** selectLocked, as a map from identities to jobs. */
  function Selected(jobs: map<nat, Job>, q: Query): map<nat, Job> {
    map id | id in jobs && Matches(q, id, jobs[id]) :: jobs[id]
  }

  predicate AllRunning(jobs: map<nat, Job>) { forall id :: id in jobs ==> jobs[id].status == Running }

  predicate Expired(job: Job, now: int) { job.status != Running && now - job.settledAt > RETENTION }

  function Pruned(jobs: map<nat, Job>, now: int): map<nat, Job> {
    map id | id in jobs && !Expired(jobs[id], now) :: jobs[id]
  }

  /** Pruning leaves the running jobs alone. */
  lemma PrunedRunning(jobs: map<nat, Job>, now: int, q: Query)
    requires AllRunning(Selected(jobs, q))
    ensures Selected(Pruned(jobs, now), q) == Selected(jobs, q)
  {
    forall id | id in Selected(jobs, q) ensures id in Pruned(jobs, now) {
      assert Selected(jobs, q)[id].status == Running;
    }
  }

  function Outcome(job: Job, e: Ending): Status {
    if job.stopped then Cancelled else if e.fails || e.isError then Failed else Completed
  }

  predicate Cancellable(jobs: map<nat, Job>, owner: string, id: nat) {
    id in jobs && (owner == "" || jobs[id].owner == owner) && jobs[id].status == Running
  }

  function CancelFirst(jobs: map<nat, Job>, owner: string, ids: seq<nat>, k: nat, now: int): map<nat, Job>
    requires k <= |ids|
  {
    if k == 0 then jobs
    else
      var before := CancelFirst(jobs, owner, ids, k - 1, now);
      var id := ids[k - 1];
      if Cancellable(before, owner, id) then before[id := before[id].(status := Cancelled, settledAt := now, stopped := true)] else before
  }

  function Stopped(jobs: map<nat, Job>): map<nat, Job> {
    map id | id in jobs :: if jobs[id].status == Running then jobs[id].(stopped := true) else jobs[id]
  }

  /** Cancelling touches exactly the named jobs of the owner that were running. */
  lemma {:induction false} CancelFirstAt(jobs: map<nat, Job>, owner: string, ids: seq<nat>, k: nat, now: int, id: nat)
    requires k <= |ids|
    ensures id in CancelFirst(jobs, owner, ids, k, now) <==> id in jobs
    ensures id in jobs ==>
              CancelFirst(jobs, owner, ids, k, now)[id] ==
              if id in ids[..k] && Cancellable(jobs, owner, id) then jobs[id].(status := Cancelled, settledAt := now, stopped := true) else jobs[id]
  {
    if k > 0 {
      CancelFirstAt(jobs, owner, ids, k - 1, now, id);
      assert ids[..k] == ids[..k - 1] + [ids[k - 1]];
      CancelFirstAt(jobs, owner, ids, k - 1, now, ids[k - 1]);
    }
  }

  // ---------------------------------------------------------------- every interleaving

  /** A parked waiter, and whether the channel it reads has been closed. */
  datatype Parked = Parked(query: Query, woken: bool)

  /** The manager's jobs and waiters, with every job ever started and how each settled. */
  datatype Table = Table(jobs: map<nat, Job>, isClosed: bool, waiting: map<nat, Parked>, started: set<nat>, settled: map<nat, Status>)

  datatype Op =
    | Begin(id: nat, owner: string, now: int)
    | End(id: nat, ending: Ending, now: int)
    | Look(w: nat, query: Query, now: int)
    | Unpark(w: nat)
    | Cancel(owner: string, ids: seq<nat>, now: int)
    | ShutDown

  function Woken(waiting: map<nat, Parked>): map<nat, Parked> { map w | w in waiting :: Parked(waiting[w].query, true) }

  /** A job settles when it is first seen not to be running. */
  function SettledWith(settled: map<nat, Status>, jobs: map<nat, Job>): map<nat, Status> {
    settled + map id | id in jobs && jobs[id].status != Running && id !in settled :: jobs[id].status
  }

  predicate Parks(jobs: map<nat, Job>, q: Query) { Selected(jobs, q) != map[] && AllRunning(Selected(jobs, q)) }

  function Ended(t: Table, id: nat, e: Ending, now: int): Table {
    if id !in t.jobs || t.jobs[id].status != Running then t
    else
      var status := Outcome(t.jobs[id], e);
      t.(jobs := t.jobs[id := t.jobs[id].(status := status, settledAt := now)], settled := t.settled[id := status], waiting := Woken(t.waiting))
  }

  function Step(t: Table, op: Op): Table {
    match op
    case Begin(id, owner, now) =>
      if t.isClosed || id in t.started then t
      else t.(jobs := Pruned(t.jobs, now)[id := Job(owner, Running, 0, false)], started := t.started + {id}, waiting := Woken(t.waiting))
    case End(id, e, now) => Ended(t, id, e, now)
    case Look(w, q, now) =>
      if w in t.waiting then t
      else
        var jobs := Pruned(t.jobs, now);
        t.(jobs := jobs, waiting := if Parks(jobs, q) then t.waiting[w := Parked(q, false)] else t.waiting)
    case Unpark(w) => t.(waiting := t.waiting - {w})
    case Cancel(owner, ids, now) =>
      var jobs := CancelFirst(t.jobs, owner, ids, |ids|, now);
      t.(jobs := jobs, settled := SettledWith(t.settled, jobs), waiting := Woken(t.waiting))
    case ShutDown => if t.isClosed then t else t.(isClosed := true, jobs := Stopped(t.jobs), waiting := Woken(t.waiting))
  }

  function After(ops: seq<Op>): Table {
    if ops == [] then Table(map[], false, map[], {}, map[]) else Step(After(ops[..|ops| - 1]), ops[|ops| - 1])
  }

  /** Every started job is either running or settled, and a settled one that is still listed shows how
      it settled. */
  ghost predicate JobsOk(t: Table) {
    && (forall id :: id in t.started <==> id in t.settled || (id in t.jobs && t.jobs[id].status == Running))
    && (forall id :: id in t.jobs ==> id in t.started)
    && (forall id :: id in t.settled && id in t.jobs ==> t.jobs[id].status == t.settled[id])
    && (forall id :: id in t.settled ==> t.settled[id] != Running)
  }

  /** A waiter that has not been woken asked for some jobs, and all of them are running. */
  ghost predicate WaitersOk(t: Table) { forall w :: w in t.waiting && !t.waiting[w].woken ==> Parks(t.jobs, t.waiting[w].query) }

  ghost predicate Ok(t: Table) { JobsOk(t) && WaitersOk(t) }

  lemma PrunedOk(t: Table, now: int)
    requires Ok(t)
    ensures Ok(t.(jobs := Pruned(t.jobs, now)))
  {
    forall w | w in t.waiting && !t.waiting[w].woken ensures Parks(Pruned(t.jobs, now), t.waiting[w].query) {
      PrunedRunning(t.jobs, now, t.waiting[w].query);
    }
  }

  lemma CancelOk(t: Table, owner: string, ids: seq<nat>, now: int)
    requires JobsOk(t)
    ensures JobsOk(Step(t, Cancel(owner, ids, now)))
  {
    forall id ensures id in CancelFirst(t.jobs, owner, ids, |ids|, now) <==> id in t.jobs {
      CancelFirstAt(t.jobs, owner, ids, |ids|, now, id);
    }
    forall id | id in t.jobs
      ensures var j := CancelFirst(t.jobs, owner, ids, |ids|, now)[id]; j.status == t.jobs[id].status || (t.jobs[id].status == Running && j.status == Cancelled)
    {
      CancelFirstAt(t.jobs, owner, ids, |ids|, now, id);
    }
  }

  lemma StepOk(t: Table, op: Op)
    requires Ok(t)
    ensures Ok(Step(t, op))
  {
    match op
    case Begin(id, owner, now) => PrunedOk(t, now);
    case Look(w, q, now) => PrunedOk(t, now);
    case Cancel(owner, ids, now) => CancelOk(t, owner, ids, now);
    case End(id, e, now) =>
    case Unpark(w) =>
    case ShutDown =>
  }

  lemma {:induction false} AfterOk(ops: seq<Op>)
    ensures Ok(After(ops))
  {
    if ops != [] {
      AfterOk(ops[..|ops| - 1]);
      StepOk(After(ops[..|ops| - 1]), ops[|ops| - 1]);
    }
  }

  /** No wake-up is lost, in any interleaving: while a waiter's channel is open, all jobs it waits for are
      running, and there are some. */
  lemma NoLostWakeup(ops: seq<Op>, w: nat, id: nat)
    requires w in After(ops).waiting && !After(ops).waiting[w].woken
    ensures var t := After(ops);
            && Selected(t.jobs, t.waiting[w].query) != map[]
            && (id in t.jobs && Matches(t.waiting[w].query, id, t.jobs[id]) ==> t.jobs[id].status == Running && id !in t.settled)
  {
    AfterOk(ops);
    var t := After(ops);
    if id in t.jobs && Matches(t.waiting[w].query, id, t.jobs[id]) {
      assert Selected(t.jobs, t.waiting[w].query)[id].status == Running;
    }
  }

  lemma StepSettles(t: Table, op: Op, id: nat)
    requires Ok(t) && id in t.settled
    ensures id in Step(t, op).settled && Step(t, op).settled[id] == t.settled[id]
  {
  }

  lemma AfterMore(ops: seq<Op>, more: seq<Op>)
    requires more != []
    ensures After(ops + more) == Step(After(ops + more[..|more| - 1]), more[|more| - 1])
  {
    assert (ops + more)[..|ops + more| - 1] == ops + more[..|more| - 1];
  }

  lemma {:induction false} SettledStays(ops: seq<Op>, more: seq<Op>, id: nat)
    requires id in After(ops).settled
    ensures id in After(ops + more).settled && After(ops + more).settled[id] == After(ops).settled[id]
  {
    if more == [] {
      assert ops + more == ops;
    } else {
      var init, last := more[..|more| - 1], more[|more| - 1];
      SettledStays(ops, init, id);
      AfterOk(ops + init);
      StepSettles(After(ops + init), last, id);
      AfterMore(ops, more);
    }
  }

  /** Each job settles exactly once: every started job that is not running has settled, it keeps the
      status it settled with, and it shows that status as long as it is listed. */
  lemma SettlesOnce(ops: seq<Op>, more: seq<Op>, id: nat)
    requires id in After(ops).started && (id !in After(ops).jobs || After(ops).jobs[id].status != Running)
    ensures id in After(ops).settled && id in After(ops + more).settled && After(ops + more).settled[id] == After(ops).settled[id]
    ensures id in After(ops + more).jobs ==> After(ops + more).jobs[id].status == After(ops).settled[id]
  {
    AfterOk(ops);
    SettledStays(ops, more, id);
    AfterOk(ops + more);
  }

  lemma AfterStep(ops: seq<Op>, op: Op)
    ensures After(ops + [op]) == Step(After(ops), op)
  {
    assert (ops + [op])[..|ops|] == ops;
  }

  /** A running job whose goroutine ends settles then and there: as cancelled when it has been told to stop,
      else as failed when it returned an error or an error result, else as completed. A job that has
      settled already, or is listed no more, is left alone. */
  lemma EndSettles(ops: seq<Op>, id: nat, e: Ending, now: int)
    ensures var t, next := After(ops), After(ops + [End(id, e, now)]);
            if id in t.jobs && t.jobs[id].status == Running then
              && id !in t.settled && id in next.settled && id in next.jobs
              && next.jobs[id] == t.jobs[id].(status := next.settled[id], settledAt := now)
              && (t.jobs[id].stopped ==> next.settled[id] == Cancelled)
              && (!t.jobs[id].stopped && (e.fails || e.isError) ==> next.settled[id] == Failed)
              && (!t.jobs[id].stopped && !e.fails && !e.isError ==> next.settled[id] == Completed)
              && forall w :: w in t.waiting ==> w in next.waiting && next.waiting[w].woken
            else next == t
  {
    AfterStep(ops, End(id, e, now));
    AfterOk(ops);
  }

  lemma StepKeepsStop(t: Table, op: Op, id: nat)
    requires Ok(t) && id in t.started && StopOk(t, id)
    ensures id in Step(t, op).started && StopOk(Step(t, op), id)
  {
    if op.Cancel? { CancelFirstAt(t.jobs, op.owner, op.ids, |op.ids|, op.now, id); }
  }

  /** A job that has been told to stop settles as cancelled, if it has not settled yet. */
  ghost predicate StopOk(t: Table, id: nat) {
    if id in t.settled then t.settled[id] == Cancelled else id in t.jobs && t.jobs[id].stopped && t.jobs[id].status == Running
  }

  lemma {:induction false} StopStays(ops: seq<Op>, more: seq<Op>, id: nat)
    requires id in After(ops).started && StopOk(After(ops), id)
    ensures id in After(ops + more).started && StopOk(After(ops + more), id)
  {
    if more == [] {
      assert ops + more == ops;
    } else {
      var init, last := more[..|more| - 1], more[|more| - 1];
      StopStays(ops, init, id);
      AfterOk(ops + init);
      assert ops + more == (ops + init) + [last];
      AfterStep(ops + init, last);
      StepKeepsStop(After(ops + init), last, id);
    }
  }

  /** A job that is running when the manager first shuts down never settles otherwise than as cancelled,
      and stays listed until it does; no job starts any more. */
  lemma ShutdownCancels(ops: seq<Op>, more: seq<Op>, id: nat)
    requires !After(ops).isClosed && id in After(ops).jobs && After(ops).jobs[id].status == Running
    ensures var t := After(ops + [ShutDown] + more);
            if id in t.settled then t.settled[id] == Cancelled else id in t.jobs && t.jobs[id].stopped && t.jobs[id].status == Running
    ensures After(ops + [ShutDown] + more).started == After(ops).started
  {
    AfterOk(ops);
    AfterStep(ops, ShutDown);
    StopStays(ops + [ShutDown], more, id);
    ClosedStays(ops + [ShutDown], more);
  }

  lemma {:induction false} ClosedStays(ops: seq<Op>, more: seq<Op>)
    requires After(ops).isClosed
    ensures After(ops + more).isClosed && After(ops + more).started == After(ops).started
  {
    if more == [] {
      assert ops + more == ops;
    } else {
      var init, last := more[..|more| - 1], more[|more| - 1];
      ClosedStays(ops, init);
      assert ops + more == (ops + init) + [last];
      AfterStep(ops + init, last);
    }
  }

  /** Cancelling settles exactly the named jobs that were running and belong to the owner ("" owns all),
      as cancelled and at that time, and wakes every waiter. */
  lemma CancelSettles(ops: seq<Op>, owner: string, ids: seq<nat>, now: int, id: nat)
    requires id in After(ops).jobs
    ensures var t, next := After(ops), After(ops + [Cancel(owner, ids, now)]);
            && id in next.jobs
            && (if id in ids && (owner == "" || t.jobs[id].owner == owner) && t.jobs[id].status == Running
                then next.jobs[id] == Job(t.jobs[id].owner, Cancelled, now, true) && id in next.settled && next.settled[id] == Cancelled
                else next.jobs[id] == t.jobs[id] && (id in next.settled <==> id in t.settled))
            && forall w :: w in t.waiting ==> w in next.waiting && next.waiting[w].woken
  {
    AfterStep(ops, Cancel(owner, ids, now));
    AfterOk(ops);
    CancelFirstAt(After(ops).jobs, owner, ids, |ids|, now, id);
    assert ids[..|ids|] == ids;
  }

  /** What a wait finds: the listed jobs that are still running or settled at most five minutes ago, of the
      owner asked for ("" for any) and among the identities asked for (none for all). It parks exactly when
      there are some and all of them are running. */
  lemma LookFinds(ops: seq<Op>, w: nat, q: Query, now: int)
    requires w !in After(ops).waiting
    ensures var t, next := After(ops), After(ops + [Look(w, q, now)]);
            && (forall id :: id in next.jobs <==> id in t.jobs && (t.jobs[id].status == Running || now - t.jobs[id].settledAt <= 5 * 60))
            && (forall id :: id in next.jobs ==> next.jobs[id] == t.jobs[id])
            && (forall id :: id in Selected(next.jobs, q) <==>
                  id in next.jobs && (q.owner == "" || next.jobs[id].owner == q.owner) && (q.ids == {} || id in q.ids))
            && (w in next.waiting <==>
                  Selected(next.jobs, q) != map[] && forall id :: id in Selected(next.jobs, q) ==> next.jobs[id].status == Running)
  {
    AfterStep(ops, Look(w, q, now));
    var found := Selected(After(ops + [Look(w, q, now)]).jobs, q);
    assert forall id :: id in found ==> found[id] == After(ops + [Look(w, q, now)]).jobs[id];
  }

  // ---------------------------------------------------------------- the manager

  datatype Waiter = Waiter(query: Query, channel: Signal)

  class JobManager {
    var jobs: map<nat, Job>
    var changed: Signal
    var isClosed: bool
    ghost var waiting: map<nat, Waiter>
    ghost var started: set<nat>
    ghost var settled: map<nat, Status>

    ghost function Channels(): set<Signal>
      reads this
    {
      set w | w in waiting :: waiting[w].channel
    }

    ghost function Now(): Table
      reads this, Channels()
    {
      Table(jobs, isClosed, map w | w in waiting :: Parked(waiting[w].query, waiting[w].channel.closed), started, settled)
    }

    ghost predicate ChannelsOk()
      reads this, changed, Channels()
    {
      !changed.closed && forall w :: w in waiting ==> waiting[w].channel.closed || waiting[w].channel == changed
    }

    ghost predicate Valid()
      reads this, changed, Channels()
    {
      Ok(Now()) && ChannelsOk()
    }

    constructor ()
      ensures Valid() && fresh(changed) && Now() == After([])
    {
      jobs, isClosed := map[], false;
      changed := new Signal();
      waiting, started, settled := map[], {}, map[];
    }

    method Signal()
      requires ChannelsOk()
      modifies this`changed, changed
      ensures fresh(changed) && ChannelsOk() && Now() == old(Now()).(waiting := Woken(old(Now()).waiting))
      ensures forall w :: w in waiting ==> waiting[w].channel.closed
    {
      changed.closed := true;
      changed := new Signal();
    }

    /** pruneLocked drops the jobs that settled long ago. */
    method Prune(now: int)
      requires Valid()
      modifies this`jobs
      ensures Valid() && jobs == Pruned(old(jobs), now)
    {
      PrunedOk(Now(), now);
      jobs := Pruned(jobs, now);
    }

    /** start: a new running job, unless the manager is closed. */
    method Start(id: nat, owner: string, now: int) returns (ok: bool)
      requires Valid() && id !in started
      modifies this`jobs, this`started, this`changed, changed
      ensures Valid() && ok == !isClosed && Now() == Step(old(Now()), Begin(id, owner, now))
      ensures jobs == if ok then Pruned(old(jobs), now)[id := Job(owner, Running, 0, false)] else old(jobs)
      ensures ok ==> forall w :: w in waiting ==> waiting[w].channel.closed
    {
      StepOk(Now(), Begin(id, owner, now));
      if isClosed { return false; }
      jobs := Pruned(jobs, now);
      jobs := jobs[id := Job(owner, Running, 0, false)];
      started := started + {id};
      assert ChannelsOk() && Now().waiting == old(Now()).waiting;
      Signal();
      return true;
    }

    /** The end of a job's goroutine: settles the job unless it has been settled already. */
    method Finish(id: nat, e: Ending, now: int)
      requires Valid()
      modifies this`jobs, this`settled, this`changed, changed
      ensures Valid() && Now() == Step(old(Now()), End(id, e, now))
      ensures if id in old(jobs) && old(jobs)[id].status == Running
              then id !in old(settled)
                   && settled == old(settled)[id := if old(jobs)[id].stopped then Cancelled else if e.fails || e.isError then Failed else Completed]
                   && jobs == old(jobs)[id := old(jobs)[id].(status := settled[id], settledAt := now)]
                   && forall w :: w in waiting ==> waiting[w].channel.closed
              else jobs == old(jobs) && settled == old(settled)
    {
      StepOk(Now(), End(id, e, now));
      if id !in jobs || jobs[id].status != Running { return; }
      var job := jobs[id];
      jobs := jobs[id := job.(status := Outcome(job, e), settledAt := now)];
      settled := settled[id := Outcome(job, e)];
      assert ChannelsOk() && Now().waiting == old(Now()).waiting;
      Signal();
    }

    /** One turn of wait: what was selected when some of it has settled or nothing matches; otherwise
        the waiter parks on the channel read in the same critical section. */
    method Poll(w: nat, q: Query, now: int) returns (result: map<nat, Job>, parks: bool)
      requires Valid() && w !in waiting
      modifies this`jobs, this`waiting
      ensures Valid() && Now() == Step(old(Now()), Look(w, q, now))
      ensures result == Selected(jobs, q) && (parks <==> result != map[] && AllRunning(result))
      ensures parks <==> w in waiting
    {
      StepOk(Now(), Look(w, q, now));
      jobs := Pruned(jobs, now);
      result := Selected(jobs, q);
      parks := result != map[] && AllRunning(result);
      assert ChannelsOk() && Now().waiting == old(Now()).waiting;
      if parks { Park(w, q); }
    }

    ghost method Park(w: nat, q: Query)
      requires ChannelsOk() && w !in waiting
      modifies this`waiting
      ensures ChannelsOk() && w in waiting && Now() == old(Now()).(waiting := old(Now()).waiting[w := Parked(q, false)])
    {
      waiting := waiting[w := Waiter(q, changed)];
      assert Now().waiting == old(Now()).waiting[w := Parked(q, false)];
    }

    method LeaveChannel(w: nat)
      requires Valid()
      modifies this`waiting
      ensures Valid() && Now() == Step(old(Now()), Unpark(w))
    {
      StepOk(Now(), Unpark(w));
      waiting := waiting - {w};
      assert Now().waiting == old(Now()).waiting - {w};
    }

    /** cancelJobs: the running jobs among the given ones that belong to the owner are cancelled. */
    method CancelJobs(owner: string, ids: seq<nat>, now: int)
      requires Valid()
      modifies this`jobs, this`settled, this`changed, changed
      ensures Valid() && Now() == Step(old(Now()), Cancel(owner, ids, now))
      ensures forall id :: id in old(settled) ==> id in settled && settled[id] == old(settled)[id]
      ensures forall w :: w in waiting ==> waiting[w].channel.closed
    {
      StepOk(Now(), Cancel(owner, ids, now));
      CancelAll(owner, ids, now);
      settled := SettledWith(settled, jobs);
      assert ChannelsOk() && Now().waiting == old(Now()).waiting;
      Signal();
    }

    method CancelAll(owner: string, ids: seq<nat>, now: int)
      modifies this`jobs
      ensures jobs == CancelFirst(old(jobs), owner, ids, |ids|, now)
    {
      for k := 0 to |ids|
        invariant jobs == CancelFirst(old(jobs), owner, ids, k, now)
      {
        var id := ids[k];
        if Cancellable(jobs, owner, id) {
          jobs := jobs[id := jobs[id].(status := Cancelled, settledAt := now, stopped := true)];
        }
      }
    }

    /** shutdown: running jobs are told to stop; they settle when their goroutines end. */
    method Shutdown()
      requires Valid()
      modifies this`jobs, this`isClosed, this`changed, changed
      ensures Valid() && isClosed && Now() == Step(old(Now()), ShutDown)
      ensures !old(isClosed) ==> jobs == Stopped(old(jobs)) && forall w :: w in waiting ==> waiting[w].channel.closed
      ensures settled == old(settled)
    {
      StepOk(Now(), ShutDown);
      if isClosed { return; }
      isClosed := true;
      jobs := Stopped(jobs);
      assert ChannelsOk() && Now().waiting == old(Now()).waiting;
      Signal();
    }
  }
}

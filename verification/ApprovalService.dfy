/** The approval operations as the service runs them: maps updated in place, step by step. Every
    operation keeps the records, the journal and what memory claims about them in agreement. */
module ApprovalService {
  import opened Common
  import opened Approvals

  ghost predicate Sound(s: Store, m: Memory, clock: int) { RecordsOk(s, clock) && JournalOk(s) && MemoryOk(s, m) }

  /** What a recovered decision leaves: the words of denial reject the record and leave a note that refuses
      its operation, the words of approval approve it and leave a note that lets it through once, and
      "session" approves it and grants its scope. */
  ghost predicate AnsweredAs(s: Store, m: Memory, t: Store, n: Memory, id: Id, decision: string) {
    && id in s.approvals && id in t.approvals && s.approvals[id].status == Pending
    && var a := s.approvals[id];
    && (decision in {"denied", "deny", "rejected", "reject"} ==>
          t.approvals[id].status == Rejected && RecoveredFor(n, a.run, a.operation) == Some(Recovered(a.scope, false)) && n.grants == m.grants)
    && (decision in {"once", "approved", "approve"} ==>
          t.approvals[id].status == Approved && RecoveredFor(n, a.run, a.operation) == Some(Recovered(a.scope, true)) && n.grants == m.grants)
    && (decision == "session" ==>
          t.approvals[id].status == Approved && n == m.(grants := m.grants + {a.scope}))
    && decision in {"denied", "deny", "rejected", "reject", "once", "approved", "approve", "session"}
  }

  /** The token of a decided record is pending exactly when it had expired by the time of the decision. */
  ghost predicate LeftPendingIfExpired(s: Store, id: Id, listed: int) {
    id in s.approvals && id in s.tokens && (s.tokens[id].pending <==> s.approvals[id].expires < listed)
  }

  class Service {
    var approvals: map<Id, Approval>
    var tokens: map<Id, Token>
    var events: seq<Event>
    var next: nat
    var grants: set<Name>
    var recovered: map<Name, map<Name, Recovered>>
    var runs: map<nat, Run>
    /** The latest time at which tokens were listed. */
    ghost var clock: int

    function Durable(): Store
      reads this
    {
      Store(approvals, tokens, events, next)
    }

    function Live(): Memory
      reads this
    {
      Memory(grants, recovered, runs)
    }

    /** Records and tokens belong together, the journal tells how each record was decided, and whatever
        memory treats as approved has an approved record. */
    ghost predicate Valid()
      reads this
    {
      Sound(Durable(), Live(), clock)
    }

    constructor ()
      ensures Valid() && Durable() == START.store && Live() == START.memory
    {
      approvals, tokens, events, next := map[], map[], [], 0;
      grants, recovered, runs := {}, map[], map[];
    }

    /** A run of its own begins with nothing pending and nothing approved. */
    method StartRun(h: nat, run: Name, task: Name, execution: Name) returns (ok: bool)
      requires Valid()
      modifies this`runs
      ensures Valid() && Durable() == old(Durable()) && ok == (h !in old(runs))
      ensures runs == if ok then old(runs)[h := Run(run, task, execution, map[], map[])] else old(runs)
    {
      if h in runs { return false; }
      assert RunOk(Durable(), Run(run, task, execution, map[], map[]));
      runs := runs[h := Run(run, task, execution, map[], map[])];
      return true;
    }

    /** consumeRecoveredApproval: a note is handed out once, and only for its own scope. */
    method ConsumeRecovered(run: Name, key: Name, scope: Name) returns (decision: Option<Recovered>)
      requires Valid()
      modifies this`recovered
      ensures Valid() && Durable() == old(Durable())
      ensures decision == (match RecoveredFor(old(Live()), run, key)
                           case None => None
                           case Some(d) => if d.scope == scope then Some(d) else None)
      ensures decision.Some? && decision.value.approved ==> ApprovedBefore(Durable(), run, key, scope)
      ensures Live() == if decision.Some? then DropRecovered(old(Live()), run, key) else old(Live())
      ensures decision.Some? ==> RecoveredFor(Live(), run, key) == None
    {
      if run !in recovered || key !in recovered[run] || recovered[run][key].scope != scope { return None; }
      DropOk(Durable(), Live(), run, key);
      decision := Some(recovered[run][key]);
      assert NotesOk(Durable(), run, recovered[run]);
      if decision.value.approved { BackedEvent(Durable(), run, key, scope); }
      var left := recovered[run] - {key};
      if left == map[] {
        recovered := recovered - {run};
      } else {
        recovered := recovered[run := left];
      }
    }

    /** The in-memory part of PrepareDriver: ready only under a recorded approval, waiting only for a
        record of the call, and at most one note is used up. */
    method PrepareLook(h: nat, call: Call) returns (reply: Reply)
      requires Valid()
      modifies this`recovered
      ensures Valid() && Durable() == old(Durable()) && (Live(), reply) == Look(old(Live()), h, call)
      ensures reply == Ready && NeedsApproval(call) ==> Allowed(Durable(), old(Live()), h, call)
      ensures reply == Waiting ==> Awaits(Durable(), Live(), h, call)
      ensures if h in runs then UsesOneNote(old(Live()), Live(), runs[h].run, call.key) else Live() == old(Live())
      ensures reply.Continue? ==> reply == Continue(Loading(h, call)) && Live() == old(Live())
    {
      LookMeans(Durable(), Live(), h, call);
      if h !in runs { return Failed; }
      if call.invalid || call.blocked { return Refused; }
      var run := runs[h];
      var approved := call.scope in grants || OnceFor(run, call.key) == call.scope;
      if !NeedsApproval(call) || approved { return Ready; }
      if call.key in run.pending && run.pending[call.key].scope == call.scope { return Waiting; }
      var decision := ConsumeRecovered(run.run, call.key, call.scope);
      if decision.Some? { return if decision.value.approved then Ready else Refused; }
      return Continue(Loading(h, call));
    }

    method AddPending(h: nat, key: Name, held: Held)
      requires h in runs
      modifies this`runs
      ensures Durable() == old(Durable()) && Live() == Hold(old(Live()), h, key, held)
    {
      var run := runs[h];
      run := run.(pending := run.pending[key := held]);
      runs := runs[h := run];
    }

    /** The durable lookup of PrepareDriver: it answers with the recorded decision, or waits for a record
        that can still be decided. */
    method PrepareLoad(h: nat, call: Call, now: int) returns (reply: Reply)
      requires Valid()
      modifies this`runs
      ensures Valid() && Durable() == old(Durable()) && (Live(), reply) == Load(old(Durable()), old(Live()), h, call, now)
      ensures reply == Ready ==> h in runs && ApprovedBefore(Durable(), runs[h].run, call.key, call.scope)
      ensures reply == Refused ==> h in runs && RejectedBefore(Durable(), runs[h].run, call.key, call.scope)
      ensures reply == Waiting ==> AwaitsOpen(Durable(), Live(), h, call, now)
      ensures reply != Waiting ==> Live() == old(Live())
    {
      LoadMeans(Durable(), Live(), h, call, now);
      LoadOk(Durable(), Live(), h, call, now);
      reply := AnswerFromStore(h, call, now);
    }

    method AnswerFromStore(h: nat, call: Call, now: int) returns (reply: Reply)
      modifies this`runs
      ensures Durable() == old(Durable()) && (Live(), reply) == Load(old(Durable()), old(Live()), h, call, now)
    {
      if h !in runs { return Failed; }
      var run := runs[h];
      if Blank(run.execution) { return Continue(Requesting(h, call)); }
      if Blank(call.key) { return Failed; }
      var id := DerivedId(run.execution, call.key);
      if id !in approvals { return Continue(Requesting(h, call)); }
      if id !in tokens || !Agrees(run, call, id, approvals[id], tokens[id]) { return Failed; }
      match approvals[id].status {
        case Approved => return Ready;
        case Rejected => return Refused;
        case Pending =>
          if !StillPending(approvals[id], tokens[id], now) { return Failed; }
          AddPending(h, call.key, Held(id, call.scope));
          return Waiting;
      }
    }

    method SaveNew(id: Id, a: Approval)
      modifies this`approvals, this`tokens
      ensures Durable() == Added(old(Durable()), id, a) && Live() == old(Live())
    {
      approvals := approvals[id := a];
      tokens := tokens[id := Token(a.run, a.task, id, a.expires, true)];
    }

    /** requestApproval and the pending entry made of it: no record is lost or decided, at most the one
        now waited for is new, and a failure changes nothing. */
    method PrepareRequest(h: nat, call: Call, now: int) returns (reply: Reply)
      requires Valid()
      modifies this`approvals, this`tokens, this`next, this`runs
      ensures Valid() && (Durable(), Live(), reply) == Request(old(Durable()), old(Live()), h, call, now)
      ensures Grows(old(Durable()), Durable()) && events == old(events)
      ensures reply == Waiting || (reply == Failed && Durable() == old(Durable()) && Live() == old(Live()))
      ensures reply == Waiting ==> AwaitsOpen(Durable(), Live(), h, call, now)
      ensures forall id :: id in approvals && id !in old(approvals) ==> reply == Waiting && id == runs[h].pending[call.key].id
    {
      RequestMeans(Durable(), Live(), h, call, now);
      RequestOk(Durable(), Live(), h, call, now, clock);
      reply := AskStore(h, call, now);
    }

    method AskStore(h: nat, call: Call, now: int) returns (reply: Reply)
      modifies this`approvals, this`tokens, this`next, this`runs
      ensures (Durable(), Live(), reply) == Request(old(Durable()), old(Live()), h, call, now)
    {
      if h !in runs { return Failed; }
      var run := runs[h];
      var id: Id;
      if Blank(run.execution) {
        id := Fresh(next);
        next := next + 1;
      } else {
        if Blank(call.key) { return Failed; }
        id := DerivedId(run.execution, call.key);
        if id in approvals {
          if id !in tokens || !Agrees(run, call, id, approvals[id], tokens[id]) || !StillPending(approvals[id], tokens[id], now) { return Failed; }
          AddPending(h, call.key, Held(id, call.scope));
          return Waiting;
        }
      }
      SaveNew(id, NewApproval(run, call, now));
      AddPending(h, call.key, Held(id, call.scope));
      return Waiting;
    }

    /** PrepareDriver, undisturbed: look, then load, then request, as far as each asks for the next. A
        call that needs approval is ready only under a recorded approval, and waits only for a record of
        its own run, operation and scope. */
    method PrepareDriver(h: nat, call: Call, now: int) returns (reply: Reply)
      requires Valid()
      modifies this
      ensures Valid() && Grows(old(Durable()), Durable()) && events == old(events)
      ensures !reply.Continue?
      ensures reply == Ready ==> Durable() == old(Durable())
      ensures reply == Ready && NeedsApproval(call) ==> Allowed(Durable(), old(Live()), h, call)
      ensures reply == Waiting ==> Awaits(Durable(), Live(), h, call)
    {
      GrowsSelf(Durable());
      reply := PrepareLook(h, call);
      if !reply.Continue? { return; }
      reply := PrepareLoad(h, call, now);
      if reply == Ready { ApprovedAllows(Durable(), Live(), h, call); }
      if !reply.Continue? { return; }
      reply := PrepareRequest(h, call, now);
    }

    /** The tokens a decision consumes, one save at a time. */
    method ConsumeTokens(ids: seq<Id>, id: Id, a: Approval, listed: int)
      requires forall t :: t in ids <==> t in tokens
      modifies this`tokens
      ensures tokens == map t | t in old(tokens) :: Consumed(old(tokens)[t], id, a, listed)
    {
      ghost var before := tokens;
      for k := 0 to |ids|
        invariant forall t :: t in tokens <==> t in before
        invariant forall t :: t in before ==> tokens[t] == if t in ids[..k] then Consumed(before[t], id, a, listed) else before[t]
      {
        assert ids[k] in ids;
        tokens := tokens[ids[k] := Consumed(tokens[ids[k]], id, a, listed)];
        assert ids[..k + 1] == ids[..k] + [ids[k]];
      }
      assert ids[..|ids|] == ids;
    }

    /** decideApproval: one unit of work. `listing` is the order in which the store lists tokens. A record
        is decided once and never altered, and its token is left pending exactly when it has expired. */
    method DecideApproval(id: Id, run: Name, approved: bool, listed: int, listing: seq<Id>) returns (ok: bool)
      requires Valid() && forall t :: t in listing <==> t in tokens
      modifies this`approvals, this`tokens, this`events, this`clock
      ensures Valid() && Grows(old(Durable()), Durable()) && Live() == old(Live())
      ensures ok <==> Decide(old(Durable()), id, run, approved, listed).Some?
      ensures Durable() == if ok then Decide(old(Durable()), id, run, approved, listed).value else old(Durable())
      ensures ok ==> LeftPendingIfExpired(Durable(), id, listed)
    {
      GrowsSelf(Durable());
      ghost var after, latest := DecidedSound(Durable(), Live(), id, run, approved, clock, listed);
      ok := SaveDecision(id, run, approved, listed, listing);
      if ok { clock := latest; }
    }

    method SaveDecision(id: Id, run: Name, approved: bool, listed: int, listing: seq<Id>) returns (ok: bool)
      requires forall t :: t in listing <==> t in tokens
      modifies this`approvals, this`tokens, this`events
      ensures Live() == old(Live())
      ensures ok <==> Decide(old(Durable()), id, run, approved, listed).Some?
      ensures Durable() == if ok then Decide(old(Durable()), id, run, approved, listed).value else old(Durable())
    {
      if id !in approvals || approvals[id].run != run || approvals[id].status != Pending { return false; }
      var a := approvals[id];
      approvals := approvals[id := a.(status := if approved then Approved else Rejected)];
      ConsumeTokens(listing, id, a, listed);
      events := events + [Decided(id, run, a.action, approved, listed)];
      return true;
    }

    /** A session grant lets every later call of its scope through, in any run, and nothing else. */
    method GrantSession(scope: Name)
      modifies this`grants
      ensures Durable() == old(Durable()) && Live() == Granted(old(Live()), scope)
      ensures old(Valid()) && (scope != UNSET ==> ScopeBacked(Durable(), scope)) ==> Valid()
      ensures forall h, call: Call :: h in runs && call.scope == scope && !call.invalid && !call.blocked ==> Look(Live(), h, call) == (Live(), Ready)
      ensures forall h, call: Call :: call.scope != scope ==> Look(Live(), h, call).1 == Look(old(Live()), h, call).1
    {
      if scope == UNSET { return; }
      grants := grants + {scope};
    }

    /** ResolveApproval: a decision recorded before it takes effect; once granted, the next look at the
        operation lets it through. */
    method ResolveApproval(h: nat, key: Name, mode: Mode, decider: Name, listed: int, listing: seq<Id>) returns (ok: bool)
      requires Valid() && forall t :: t in listing <==> t in tokens
      modifies this
      ensures Valid() && Grows(old(Durable()), Durable())
      ensures var (store, reply) := Resolve(old(Durable()), old(Live()), h, key, mode, decider, listed);
              && Durable() == store && (ok <==> reply.Continue?)
              && Live() == if ok then Settle(old(Live()), reply.flight) else old(Live())
      ensures ok && mode != Denied ==>
                forall call: Call :: call.key == key && call.scope == old(runs)[h].pending[key].scope && !call.invalid && !call.blocked ==>
                  Look(Live(), h, call).1 == Ready
    {
      GrowsSelf(Durable());
      if h !in runs || key !in runs[h].pending || Blank(decider) { return false; }
      assert RunOk(Durable(), runs[h]);
      ResolveShape(Durable(), Live(), h, key, mode, decider, listed);
      var held := runs[h].pending[key];
      SettledAnswers(Live(), h, key, held, mode);
      ok := DecideApproval(held.id, runs[h].run, mode != Denied, listed, listing);
      if ok { TakeEffect(Settling(h, key, held, mode)); }
    }

    /** The in-memory effect of a committed decision. */
    method TakeEffect(flight: Flight)
      requires Valid() && FlightOk(Durable(), Live(), flight)
      modifies this`runs, this`grants, this`recovered
      ensures Valid() && Durable() == old(Durable()) && Live() == Settle(old(Live()), flight)
    {
      SettleOk(Durable(), Live(), flight);
      match flight {
        case Settling(h, key, held, mode) =>
          SettleLive(h, key, held, mode);
        case Recovering(run, operation, scope, mode) =>
          if mode == Session {
            GrantSession(scope);
          } else {
            StoreRecovered(run, operation, Recovered(scope, mode == Once));
          }
        case _ =>
      }
    }

    method SettleLive(h: nat, key: Name, held: Held, mode: Mode)
      requires h in runs
      modifies this`runs, this`grants
      ensures Durable() == old(Durable()) && Live() == Settle(old(Live()), Settling(h, key, held, mode))
    {
      var run := runs[h];
      run := run.(pending := run.pending - {key});
      match mode {
        case Once =>
          run := run.(once := run.once[key := held.scope]);
          runs := runs[h := run];
        case Session =>
          runs := runs[h := run];
          GrantSession(held.scope);
        case Denied =>
          runs := runs[h := run];
      }
    }

    /** ExecutePreparedDriver uses up a one-time approval. */
    method ExecutePrepared(h: nat, key: Name)
      requires Valid()
      modifies this`runs
      ensures Valid() && Durable() == old(Durable()) && Live() == Executed(old(Live()), h, key)
      ensures h in runs ==> OnceFor(runs[h], key) == UNSET
    {
      ExecutedOk(Durable(), Live(), h, key);
      if h !in runs { return; }
      var run := runs[h];
      runs := runs[h := run.(once := run.once - {key})];
    }

    /** storeRecoveredApproval: the note answers the next look at its operation, and no other note changes. */
    method StoreRecovered(run: Name, operation: Name, decision: Recovered)
      modifies this`recovered
      ensures Durable() == old(Durable()) && Live() == Noted(old(Live()), run, operation, decision)
      ensures old(Valid()) && (decision.approved ==> Backed(Durable(), run, operation, decision.scope)) ==> Valid()
      ensures RecoveredFor(Live(), run, operation) == Some(decision)
      ensures forall r, k :: r != run || k != operation ==> RecoveredFor(Live(), r, k) == RecoveredFor(old(Live()), r, k)
    {
      if Valid() && (decision.approved ==> Backed(Durable(), run, operation, decision.scope)) {
        NotedOk(Durable(), Live(), run, operation, decision);
      }
      var known := map[];
      if run in recovered { known := recovered[run]; }
      recovered := recovered[run := known[operation := decision]];
    }

    /** ResolveRecoveredApproval for a record read from the store: the decision is recorded first, then
        granted for the session or noted for the operation. */
    method ResolveRecovered(id: Id, token: Option<Id>, decision: string, now: int, listed: int, listing: seq<Id>) returns (ok: bool)
      requires Valid() && forall t :: t in listing <==> t in tokens
      modifies this
      ensures Valid() && Grows(old(Durable()), Durable())
      ensures var (store, reply) := Recover(old(Durable()), id, token, decision, now, listed);
              && Durable() == store && (ok <==> reply.Continue?)
              && Live() == if ok then Settle(old(Live()), reply.flight) else old(Live())
      ensures !ok ==> Durable() == old(Durable()) && Live() == old(Live())
      ensures ok ==> AnsweredAs(old(Durable()), old(Live()), Durable(), Live(), id, decision)
    {
      GrowsSelf(Durable());
      var mode := DecisionMode(decision);
      if id !in approvals || mode.None? { return false; }
      var a := approvals[id];
      assert RecordOk(id, a, next);
      RecoverShape(Durable(), Live(), id, token, decision, now, listed);
      RecoverAnswers(Durable(), Live(), id, token, decision, now, listed);
      var operation := if a.operation == UNSET then a.action else a.operation;
      if operation == UNSET || a.scope == UNSET || !TokenServes(Durable(), token, id, a.run, now) { return false; }
      ok := DecideApproval(id, a.run, mode.value != Denied, listed, listing);
      if ok { TakeEffect(Recovering(a.run, operation, a.scope, mode.value)); }
    }
  }

  lemma RecoverAnswers(s: Store, m: Memory, id: Id, token: Option<Id>, decision: string, now: int, listed: int)
    requires id in s.approvals ==> s.approvals[id].operation == s.approvals[id].action
    ensures var (t, reply) := Recover(s, id, token, decision, now, listed);
            && (reply.Continue? ==> AnsweredAs(s, m, t, Settle(m, reply.flight), id, decision))
            && (!reply.Continue? ==> t == s)
  {
  }

  /** Once an approval has taken effect the next look at the operation is ready. */
  lemma SettledAnswers(m: Memory, h: nat, key: Name, held: Held, mode: Mode)
    requires h in m.runs
    ensures mode != Denied ==>
              forall call: Call :: call.key == key && call.scope == held.scope && !call.invalid && !call.blocked ==>
                Look(Settle(m, Settling(h, key, held, mode)), h, call).1 == Ready
  {
    if mode != Denied {
      forall call: Call | call.key == key && call.scope == held.scope && !call.invalid && !call.blocked
        ensures Look(Settle(m, Settling(h, key, held, mode)), h, call).1 == Ready
      {
        SettledReady(m, h, call, held, mode);
      }
    }
  }

  /** A decision keeps everything in agreement, whatever the time at which it lists tokens. */
  lemma DecidedSound(s: Store, m: Memory, id: Id, run: Name, approved: bool, clock: int, listed: int) returns (after: Option<Store>, latest: int)
    requires Sound(s, m, clock)
    ensures after == Decide(s, id, run, approved, listed)
    ensures after.Some? ==> Sound(after.value, m, latest) && Grows(s, after.value)
    ensures after.Some? ==> LeftPendingIfExpired(after.value, id, listed)
  {
    after, latest := Decide(s, id, run, approved, listed), if clock < listed then listed else clock;
    if after.Some? {
      DecideRecords(s, id, run, approved, clock, listed, latest);
      DecideJournal(s, id, run, approved, clock, listed);
      DecideSays(s, id, run, approved, clock, listed);
      MemoryGrows(s, after.value, m);
    }
  }
}

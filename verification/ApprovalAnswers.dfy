/** What a user's answer does to the calls that wait for it, and which calls wait at all. */
module ApprovalAnswers {
  import opened Common
  import opened Text
  import opened Approvals

  // ---------------------------------------------------------------- which calls wait

  /** Nothing in memory lets the call through: no grant, no one-time approval, no approving note. */
  ghost predicate Unapproved(m: Memory, h: nat, call: Call) {
    && h in m.runs && call.scope !in m.grants
    && (call.key in m.runs[h].once ==> m.runs[h].once[call.key] != call.scope)
    && RecoveredFor(m, m.runs[h].run, call.key) != Some(Recovered(call.scope, true))
  }

  /** The policy says "allow", and what it says of the network leaves the call alone. */
  ghost predicate AllowedOutright(call: Call) { call.policy.allow && !(call.policy.networkPrompt && call.network) }

  ghost predicate Harmless(call: Call) {
    && !call.policy.allow && call.policy.effect != Write && call.policy.effect != External
    && !call.policy.requiresApproval && !call.policy.requiresAction
  }

  /** A call that writes or reaches outside, or whose policy asks for approval or an action task, is never
      ready at once unless its policy says "allow"; and one that says so still waits when it uses the
      network and the policy prompts for that. */
  lemma GuardedWaits(m: Memory, h: nat, call: Call)
    requires Unapproved(m, h, call)
    ensures !call.policy.allow && (call.policy.effect == Write || call.policy.effect == External) ==> Look(m, h, call).1 != Ready
    ensures !call.policy.allow && (call.policy.requiresApproval || call.policy.requiresAction) ==> Look(m, h, call).1 != Ready
    ensures call.policy.allow && call.policy.networkPrompt && call.network ==> Look(m, h, call).1 != Ready
  {
    assert call.scope != UNSET;
  }

  /** All other calls are ready at once, whatever memory holds. */
  lemma HarmlessReady(m: Memory, h: nat, call: Call)
    requires h in m.runs && !call.invalid && !call.blocked && (AllowedOutright(call) || Harmless(call))
    ensures Look(m, h, call) == (m, Ready)
  {
  }

  /** In every history, such a guarded call becomes ready only after a recorded approval of its scope. */
  lemma GuardedOnlyWhenApproved(ops: seq<Op>, op: Op, h: nat, call: Call)
    requires MakesReady(After(ops), op, h, call) && !AllowedOutright(call) && !Harmless(call)
    ensures Allowed(After(ops).store, After(ops).memory, h, call)
  {
    ReadyOnlyWhenApproved(ops, op, h, call);
  }

  // ---------------------------------------------------------------- decisions after a restart

  /** The token named with a recovered decision: it must be that of the approval, still open. */
  ghost predicate Serves(s: Store, token: Option<Id>, id: Id, now: int)
    requires id in s.approvals
  {
    match token
    case None => true
    case Some(t) =>
      t in s.tokens && s.tokens[t].pending && now < s.tokens[t].expires && s.tokens[t].approval == id && s.tokens[t].run == s.approvals[id].run
  }

  /** A record that is still open and says which operation and scope it is for. */
  ghost predicate Open(s: Store, id: Id) {
    && id in s.approvals && s.approvals[id].status == Pending
    && s.approvals[id].operation != UNSET && s.approvals[id].scope != UNSET
  }

  const DENIALS: set<string> := {"denied", "deny", "rejected", "reject"}
  const APPROVALS: set<string> := {"once", "approved", "approve"}

  /** A recovered decision is taken exactly when its word is known, the record is open and the token, if
      one is named, serves; otherwise neither the store nor memory changes. */
  lemma RecoveredTaken(st: State, f: nat, id: Id, token: Option<Id>, decision: string, tick: nat, lag: nat)
    requires RecordsOk(st.store, st.clock)
    ensures var (after, reply) := Step(st, ResolveRecovered(f, id, token, decision, tick, lag));
            && after.memory == st.memory
            && (reply.Continue? <==>
                  && Open(st.store, id) && Serves(st.store, token, id, st.clock + tick)
                  && (decision in DENIALS || decision in APPROVALS || decision == "session"))
            && (!reply.Continue? ==> reply == Failed && after.store == st.store)
  {
    if id in st.store.approvals { assert RecordOk(id, st.store.approvals[id], st.store.next); }
  }

  /** The state once a recovered decision has been recorded and has taken effect. */
  function Answered(st: State, f: nat, id: Id, token: Option<Id>, decision: string, tick: nat, lag: nat): State {
    Step(Step(st, ResolveRecovered(f, id, token, decision, tick, lag)).0, Finish(f)).0
  }

  /** A call for the operation and scope of the record, in a run of that name, with nothing else to let it
      through or to make it wait. */
  ghost predicate Matches(m: Memory, a: Approval, h: nat, call: Call) {
    && h in m.runs && m.runs[h].run == a.run && call.key == a.operation && call.scope == a.scope
    && NeedsApproval(call) && !call.invalid && !call.blocked
    && call.scope !in m.grants && OnceFor(m.runs[h], call.key) != call.scope
    && (call.key in m.runs[h].pending ==> m.runs[h].pending[call.key].scope != call.scope)
  }

  lemma RecoverDecides(s: Store, id: Id, token: Option<Id>, decision: string, now: int, listed: int, mode: Mode)
    requires Open(s, id) && Serves(s, token, id, now) && DecisionMode(decision) == Some(mode)
    ensures var (t, reply) := Recover(s, id, token, decision, now, listed);
            && reply == Continue(Recovering(s.approvals[id].run, s.approvals[id].operation, s.approvals[id].scope, mode))
            && Decided(s, t, id, if mode == Denied then Rejected else Approved)
  {
  }

  /** The record has got the status and is otherwise what it was. */
  ghost predicate Decided(s: Store, t: Store, id: Id, status: Status)
    requires id in s.approvals
  {
    id in t.approvals && t.approvals[id] == s.approvals[id].(status := status)
  }

  lemma RecoveredStep(st: State, f: nat, id: Id, token: Option<Id>, decision: string, tick: nat, lag: nat, mode: Mode)
    requires Open(st.store, id) && Serves(st.store, token, id, st.clock + tick) && DecisionMode(decision) == Some(mode)
    ensures var a, after := st.store.approvals[id], Answered(st, f, id, token, decision, tick, lag);
            && Decided(st.store, after.store, id, if mode == Denied then Rejected else Approved)
            && after.memory == Settle(st.memory, Recovering(a.run, a.operation, a.scope, mode))
  {
    var op := ResolveRecovered(f, id, token, decision, tick, lag);
    var (t, reply) := Recover(st.store, id, token, decision, st.clock + tick, st.clock + tick + lag);
    RecoverDecides(st.store, id, token, decision, st.clock + tick, st.clock + tick + lag, mode);
    assert Step(st, op).0 == State(t, st.memory, st.flights[f := reply.flight], st.clock + tick + lag);
  }

  lemma NoteAnswers(m: Memory, a: Approval, h: nat, call: Call, approved: bool)
    requires Matches(m, a, h, call)
    ensures var n := Noted(m, a.run, a.operation, Recovered(a.scope, approved));
            var (used, reply) := Look(n, h, call);
            reply == (if approved then Ready else Refused) && NoteUsed(m, used, a)
  {
    var n := Noted(m, a.run, a.operation, Recovered(a.scope, approved));
    assert RecoveredFor(n, a.run, a.operation) == Some(Recovered(a.scope, approved));
    assert Look(n, h, call) == (DropRecovered(n, a.run, a.operation), if approved then Ready else Refused);
    DropUsesOne(n, a.run, a.operation);
  }

  /** The next look at the operation, after a note on it has been made. */
  lemma NotedStep(after: State, m: Memory, a: Approval, g: nat, h: nat, call: Call, approved: bool)
    requires Matches(m, a, h, call) && after.memory == Noted(m, a.run, a.operation, Recovered(a.scope, approved))
    ensures after.memory.grants == m.grants && after.memory.runs == m.runs
    ensures var (next, reply) := Step(after, Prepare(g, h, call));
            && reply == (if approved then Ready else Refused)
            && NoteUsed(m, next.memory, a)
  {
    NoteAnswers(m, a, h, call, approved);
  }

  lemma NotesAnswer(m: Memory, a: Approval, g: nat, h: nat, call: Call, approved: bool)
    requires Matches(m, a, h, call)
    ensures forall after: State :: after.memory == Noted(m, a.run, a.operation, Recovered(a.scope, approved)) ==>
              AnswersNext(after, m, a, g, h, call, approved)
  {
    forall after: State | after.memory == Noted(m, a.run, a.operation, Recovered(a.scope, approved))
      ensures AnswersNext(after, m, a, g, h, call, approved)
    {
      NotedStep(after, m, a, g, h, call, approved);
    }
  }

  ghost predicate AnswersNext(after: State, m: Memory, a: Approval, g: nat, h: nat, call: Call, approved: bool) {
    var (next, reply) := Step(after, Prepare(g, h, call));
    reply == (if approved then Ready else Refused) && NoteUsed(m, next.memory, a)
  }

  /** No note on the record's operation is left, and the rest of memory is as it was. */
  ghost predicate NoteUsed(m: Memory, n: Memory, a: Approval) {
    && RecoveredFor(n, a.run, a.operation) == None && n.grants == m.grants && n.runs == m.runs
    && forall run, key :: run != a.run || key != a.operation ==> RecoveredFor(n, run, key) == RecoveredFor(m, run, key)
  }

  /** Main theorem, denial: each of the four words leaves the record rejected, and the next look at the
      operation is refused; the note is then used up. */
  lemma DenialRefuses(st: State, f: nat, id: Id, token: Option<Id>, decision: string, tick: nat, lag: nat, g: nat, h: nat, call: Call)
    requires Open(st.store, id) && Serves(st.store, token, id, st.clock + tick) && decision in DENIALS
    requires Matches(st.memory, st.store.approvals[id], h, call)
    ensures var after := Answered(st, f, id, token, decision, tick, lag);
            var (next, reply) := Step(after, Prepare(g, h, call));
            && id in after.store.approvals && after.store.approvals[id].status == Rejected
            && reply == Refused && NoteUsed(st.memory, next.memory, st.store.approvals[id])
  {
    assert DecisionMode(decision) == Some(Denied);
    RecoveredStep(st, f, id, token, decision, tick, lag, Denied);
    NotesAnswer(st.memory, st.store.approvals[id], g, h, call, false);
  }

  /** Main theorem, approval: each of the three words leaves the record approved, and the next look at the
      operation, and only that one, is ready by the note. */
  lemma ApprovalReadiesOnce(st: State, f: nat, id: Id, token: Option<Id>, decision: string, tick: nat, lag: nat, g: nat, h: nat, call: Call)
    requires Open(st.store, id) && Serves(st.store, token, id, st.clock + tick) && decision in APPROVALS
    requires Matches(st.memory, st.store.approvals[id], h, call)
    ensures var after := Answered(st, f, id, token, decision, tick, lag);
            var (next, reply) := Step(after, Prepare(g, h, call));
            && id in after.store.approvals && after.store.approvals[id].status == Approved
            && reply == Ready && NoteUsed(st.memory, next.memory, st.store.approvals[id])
            && Look(next.memory, h, call) == (next.memory, Continue(Loading(h, call)))
  {
    assert DecisionMode(decision) == Some(Once);
    RecoveredStep(st, f, id, token, decision, tick, lag, Once);
    var after := Answered(st, f, id, token, decision, tick, lag);
    NotedStep(after, st.memory, st.store.approvals[id], g, h, call, true);
    UsedLooksOn(st.memory, Step(after, Prepare(g, h, call)).0.memory, st.store.approvals[id], h, call);
  }

  lemma UsedLooksOn(m: Memory, n: Memory, a: Approval, h: nat, call: Call)
    requires Matches(m, a, h, call) && NoteUsed(m, n, a)
    ensures Look(n, h, call) == (n, Continue(Loading(h, call)))
  {
  }

  /** Main theorem, session: the record is approved and its scope, and no other, is granted from then on. */
  lemma SessionGrants(st: State, f: nat, id: Id, token: Option<Id>, tick: nat, lag: nat)
    requires Open(st.store, id) && Serves(st.store, token, id, st.clock + tick)
    ensures var after := Answered(st, f, id, token, "session", tick, lag);
            && id in after.store.approvals && after.store.approvals[id].status == Approved
            && after.memory == st.memory.(grants := st.memory.grants + {st.store.approvals[id].scope})
            && forall h, call: Call :: h in after.memory.runs && call.scope == st.store.approvals[id].scope && !call.invalid && !call.blocked ==>
                 Look(after.memory, h, call) == (after.memory, Ready)
  {
    RecoveredStep(st, f, id, token, "session", tick, lag, Session);
  }

  // ---------------------------------------------------------------- decisions on a live run

  /** The call waits, in a run with an execution, for the open record of its execution and operation. */
  ghost predicate WaitsFor(st: State, h: nat, call: Call, id: Id) {
    && h in st.memory.runs && call.key in st.memory.runs[h].pending && st.memory.runs[h].pending[call.key] == Held(id, call.scope)
    && id in st.store.approvals
    && var r, a := st.memory.runs[h], st.store.approvals[id];
       && !Blank(r.execution) && !Blank(call.key) && id == DerivedId(r.execution, call.key)
       && a == Approval(r.run, r.task, call.key, r.execution, call.key, call.scope, a.expires, Pending)
  }

  lemma LiveDecided(st: State, f: nat, h: nat, call: Call, id: Id, decider: Name, tick: nat)
    requires WaitsFor(st, h, call, id) && !Blank(decider)
    ensures var settled := Step(Step(st, ResolveLive(f, h, call.key, Denied, decider, tick)).0, Finish(f)).0;
            && Decide(st.store, id, st.memory.runs[h].run, false, st.clock + tick) == Some(settled.store)
            && settled.memory == Settle(st.memory, Settling(h, call.key, Held(id, call.scope), Denied))
  {
    DecisionFlies(st, f, h, call.key, Denied, decider, tick);
  }

  lemma RejectedRefuses(s: Store, m: Memory, h: nat, call: Call, id: Id, now: int, clock: int)
    requires RecordsOk(s, clock) && h in m.runs && id in s.approvals
    requires var r := m.runs[h];
             && !Blank(r.execution) && !Blank(call.key) && id == DerivedId(r.execution, call.key)
             && s.approvals[id] == Approval(r.run, r.task, call.key, r.execution, call.key, call.scope, s.approvals[id].expires, Rejected)
    ensures Load(s, m, h, call, now) == (m, Refused)
  {
    assert TokenOk(id, s.approvals[id], s.tokens[id], clock);
  }

  /** A live denial leaves the record rejected and takes the call off the waiting list; it lets nothing
      through, so the next look at the operation goes to the store, which refuses it. */
  lemma LiveDenialRefuses(st: State, f: nat, h: nat, call: Call, id: Id, decider: Name, tick: nat, now: int)
    requires RecordsOk(st.store, st.clock) && WaitsFor(st, h, call, id) && !Blank(decider)
    requires Unapproved(st.memory, h, call) && RecoveredFor(st.memory, st.memory.runs[h].run, call.key) == None
    requires NeedsApproval(call) && !call.invalid && !call.blocked
    ensures var settled := Step(Step(st, ResolveLive(f, h, call.key, Denied, decider, tick)).0, Finish(f)).0;
            DeniedFor(st, settled.store, settled.memory, h, call, id, now)
  {
    LiveDecided(st, f, h, call, id, decider, tick);
    DeniedAlways(st, h, call, id, now, st.clock + tick);
  }

  lemma DeniedAlways(st: State, h: nat, call: Call, id: Id, now: int, listed: int)
    requires RecordsOk(st.store, st.clock) && WaitsFor(st, h, call, id) && st.clock <= listed
    requires Unapproved(st.memory, h, call) && RecoveredFor(st.memory, st.memory.runs[h].run, call.key) == None
    requires NeedsApproval(call) && !call.invalid && !call.blocked
    ensures forall t: Store, n: Memory ::
              Decide(st.store, id, st.memory.runs[h].run, false, listed) == Some(t) && n == Settle(st.memory, Settling(h, call.key, Held(id, call.scope), Denied))
              ==> DeniedFor(st, t, n, h, call, id, now)
  {
    forall t: Store, n: Memory |
      Decide(st.store, id, st.memory.runs[h].run, false, listed) == Some(t) && n == Settle(st.memory, Settling(h, call.key, Held(id, call.scope), Denied))
      ensures DeniedFor(st, t, n, h, call, id, now)
    {
      DeniedMeans(st, t, n, h, call, id, now, listed);
    }
  }

  /** The record is rejected, the call is off the waiting list and nothing else in memory has changed; the
      next look goes to the store and is refused there. */
  ghost predicate DeniedFor(st: State, t: Store, n: Memory, h: nat, call: Call, id: Id, now: int)
    requires h in st.memory.runs
  {
    && id in t.approvals && t.approvals[id].status == Rejected
    && n == st.memory.(runs := st.memory.runs[h := st.memory.runs[h].(pending := st.memory.runs[h].pending - {call.key})])
    && Look(n, h, call) == (n, Continue(Loading(h, call)))
    && Load(t, n, h, call, now) == (n, Refused)
  }

  lemma DeniedMeans(st: State, t: Store, n: Memory, h: nat, call: Call, id: Id, now: int, listed: int)
    requires RecordsOk(st.store, st.clock) && WaitsFor(st, h, call, id) && st.clock <= listed
    requires Unapproved(st.memory, h, call) && RecoveredFor(st.memory, st.memory.runs[h].run, call.key) == None
    requires NeedsApproval(call) && !call.invalid && !call.blocked
    requires Decide(st.store, id, st.memory.runs[h].run, false, listed) == Some(t)
    requires n == Settle(st.memory, Settling(h, call.key, Held(id, call.scope), Denied))
    ensures DeniedFor(st, t, n, h, call, id, now)
  {
    DecideRecords(st.store, id, st.memory.runs[h].run, false, st.clock, listed, listed);
    RejectedRefuses(t, n, h, call, id, now, listed);
    DeniedLooksOn(st.memory, n, h, call);
  }

  lemma DeniedLooksOn(m: Memory, n: Memory, h: nat, call: Call)
    requires Unapproved(m, h, call) && RecoveredFor(m, m.runs[h].run, call.key) == None
    requires NeedsApproval(call) && !call.invalid && !call.blocked
    requires n == m.(runs := m.runs[h := m.runs[h].(pending := m.runs[h].pending - {call.key})])
    ensures Look(n, h, call) == (n, Continue(Loading(h, call)))
  {
    assert call.scope != UNSET;
    assert RecoveredFor(n, n.runs[h].run, call.key) == None;
  }

  // ---------------------------------------------------------------- what is used up

  /** A one-time approval is good for one execution: after it the call is looked up in the store again,
      and one-time approvals of other operations stand. */
  lemma OnceUsedUp(m: Memory, h: nat, call: Call)
    requires h in m.runs && NeedsApproval(call) && !call.invalid && !call.blocked && call.scope !in m.grants
    requires call.key !in m.runs[h].pending && RecoveredFor(m, m.runs[h].run, call.key) == None
    ensures var n := Executed(m, h, call.key);
            && Look(n, h, call) == (n, Continue(Loading(h, call)))
            && h in n.runs && n.grants == m.grants && n.recovered == m.recovered
            && forall key :: key != call.key ==> OnceFor(n.runs[h], key) == OnceFor(m.runs[h], key)
  {
    var n := Executed(m, h, call.key);
    assert OnceFor(n.runs[h], call.key) == UNSET && call.scope != UNSET;
    assert RecoveredFor(n, n.runs[h].run, call.key) == None;
  }

  /** A restart forgets every grant, one-time approval and note, and what was under way; the store stays. */
  lemma RestartForgets(st: State)
    ensures var after := Step(st, Restart).0;
            && after.store == st.store && after.flights == map[] && after.clock == st.clock
            && after.memory.grants == {} && after.memory.recovered == map[] && after.memory.runs == map[]
  {
  }

  // ---------------------------------------------------------------- records found in the store

  /** A pending record of the call found in the store is waited for while it is open; once the record has
      expired the call fails, for good. */
  lemma PendingFound(st: State, h: nat, call: Call, id: Id, now: int)
    requires Inv(st) && h in st.memory.runs && id in st.store.approvals
    requires var r, a := st.memory.runs[h], st.store.approvals[id];
             && !Blank(r.execution) && !Blank(call.key) && id == DerivedId(r.execution, call.key)
             && a == Approval(r.run, r.task, call.key, r.execution, call.key, call.scope, a.expires, Pending)
    ensures Load(st.store, st.memory, h, call, now) ==
            if now < st.store.approvals[id].expires then (Hold(st.memory, h, call.key, Held(id, call.scope)), Waiting)
            else (st.memory, Failed)
  {
    assert TokenOk(id, st.store.approvals[id], st.store.tokens[id], st.clock);
  }

  /** A record of the execution and operation that is for another run, task or scope fails the call. */
  lemma OtherRecordFails(s: Store, m: Memory, h: nat, call: Call, now: int)
    requires h in m.runs && !Blank(m.runs[h].execution) && !Blank(call.key) && DerivedId(m.runs[h].execution, call.key) in s.approvals
    requires var r, a := m.runs[h], s.approvals[DerivedId(m.runs[h].execution, call.key)];
             a.run != r.run || a.task != r.task || a.scope != call.scope
    ensures Load(s, m, h, call, now) == (m, Failed) && Request(s, m, h, call, now) == (s, m, Failed)
  {
  }

  /** A request without a record in its way makes one: pending, of the call, open for a day, with its token. */
  lemma RequestMakes(s: Store, m: Memory, h: nat, call: Call, now: int)
    requires h in m.runs && !Blank(call.key) && !Blank(m.runs[h].execution) && DerivedId(m.runs[h].execution, call.key) !in s.approvals
    ensures var (t, n, reply) := Request(s, m, h, call, now);
            var r, id := m.runs[h], DerivedId(m.runs[h].execution, call.key);
            && reply == Waiting && n == Hold(m, h, call.key, Held(id, call.scope))
            && t.approvals == s.approvals[id := Approval(r.run, r.task, call.key, r.execution, call.key, call.scope, now + 24 * 60 * 60, Pending)]
            && t.tokens == s.tokens[id := Token(r.run, r.task, id, now + 24 * 60 * 60, true)]
            && t.events == s.events
  {
  }

  // ---------------------------------------------------------------- derived identities

  predicate NoNul(s: string) { '\0' !in s }

  /** Where the execution holds no NUL, the identity of a record tells execution and operation, up to the
      white space around them: two operations of one execution have two records. */
  lemma IdentityTells(e: Name, o: Name, e': Name, o': Name)
    requires NoNul(TrimSpace(e.text)) && NoNul(TrimSpace(e'.text))
    ensures DerivedId(e, o) == DerivedId(e', o') <==> TrimSpace(e.text) == TrimSpace(e'.text) && TrimSpace(o.text) == TrimSpace(o'.text)
  {
    var a, b, s, t := TrimSpace(e.text), TrimSpace(e'.text), TrimSpace(o.text), TrimSpace(o'.text);
    if a + "\0" + s == b + "\0" + t {
      SplitHead(a, s, '\0');
      SplitHead(b, t, '\0');
      assert a + "\0" + s == a + ['\0'] + s && b + "\0" + t == b + ['\0'] + t;
      assert a == Split(a + ['\0'] + s, '\0')[0] && b == Split(b + ['\0'] + t, '\0')[0];
      assert s == (a + ['\0'] + s)[|a| + 1..] && t == (b + ['\0'] + t)[|b| + 1..];
    }
  }
}

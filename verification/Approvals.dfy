/** The approval protocol: tool calls that need approval, the durable approval records and resume
    tokens, and the in-memory grants built from them. Operations are split at their units of work,
    so that any interleaving of calls is a sequence of the steps below. */
module Approvals {
  import opened Common
  import opened Text

  /** An identifier, compared as a whole. */
  datatype Name = Name(text: string)

  const UNSET: Name := Name("")

  datatype Status = Pending | Approved | Rejected

  /** Record identities: derived from execution and operation (a digest), or random. */
  datatype Id = Derived(key: string) | Fresh(n: nat)

  datatype Approval = Approval(run: Name, task: Name, action: Name, execution: Name, operation: Name, scope: Name,
                               expires: int, status: Status)

  datatype Token = Token(run: Name, task: Name, approval: Id, expires: int, pending: bool)

  /** An approval-decided event of the journal, with the time at which the decision listed tokens. */
  datatype Event = Decided(id: Id, run: Name, action: Name, approved: bool, at: int)

  datatype Store = Store(approvals: map<Id, Approval>, tokens: map<Id, Token>, events: seq<Event>, next: nat)

  /** The part of a PendingApproval the protocol uses. */
  datatype Held = Held(id: Id, scope: Name)

  /** A run in memory. */
  datatype Run = Run(run: Name, task: Name, execution: Name, pending: map<Name, Held>, once: map<Name, Name>)

  datatype Recovered = Recovered(scope: Name, approved: bool)

  datatype Memory = Memory(grants: set<Name>, recovered: map<Name, map<Name, Recovered>>, runs: map<nat, Run>)

  datatype Mode = Once | Session | Denied

  /** What one tool call brings to the decision: its key, its scope fingerprint (a digest, never
      empty) and its policy. */
  datatype Effect = Read | Write | External | OtherEffect
  datatype Policy = Policy(requiresApproval: bool, requiresAction: bool, effect: Effect, allow: bool, networkPrompt: bool)
  type Digest = s: Name | s != UNSET witness Name("0")
  datatype Call = Call(key: Name, scope: Digest, policy: Policy, network: bool, invalid: bool, blocked: bool)

  predicate NeedsApproval(call: Call) {
    if call.policy.allow then call.policy.networkPrompt && call.network
    else call.policy.requiresApproval || call.policy.requiresAction || call.policy.effect == Write || call.policy.effect == External
  }

  /** What an operation still has to do after a unit of work. */
  datatype Flight =
    | Loading(h: nat, call: Call)
    | Requesting(h: nat, call: Call)
    | Settling(h: nat, key: Name, held: Held, mode: Mode)
    | Recovering(run: Name, operation: Name, scope: Name, mode: Mode)

  datatype Reply = Ready | Waiting | Refused | Failed | Continue(flight: Flight)

  // ---------------------------------------------------------------- identities

  function DerivedId(execution: Name, operation: Name): Id {
    Derived(TrimSpace(execution.text) + "\0" + TrimSpace(operation.text))
  }

  predicate Blank(s: Name) { TrimSpace(s.text) == "" }

  const LIFETIME: int := 86400

  // ---------------------------------------------------------------- PrepareDriver

  function OnceFor(r: Run, key: Name): Name { if key in r.once then r.once[key] else UNSET }

  function RecoveredFor(m: Memory, run: Name, key: Name): Option<Recovered> {
    if run in m.recovered && key in m.recovered[run] then Some(m.recovered[run][key]) else None
  }

  /** consumeRecoveredApproval's deletion. */
  function DropRecovered(m: Memory, run: Name, key: Name): Memory
    requires run in m.recovered
  {
    var left := m.recovered[run] - {key};
    m.(recovered := if left == map[] then m.recovered - {run} else m.recovered[run := left])
  }

  function Hold(m: Memory, h: nat, key: Name, held: Held): Memory
    requires h in m.runs
  {
    m.(runs := m.runs[h := m.runs[h].(pending := m.runs[h].pending[key := held])])
  }

  /** The in-memory part of PrepareDriver. */
  function Look(m: Memory, h: nat, call: Call): (Memory, Reply) {
    if h !in m.runs then (m, Failed)
    else if call.invalid || call.blocked then (m, Refused)
    else
      var r := m.runs[h];
      if !NeedsApproval(call) || call.scope in m.grants || OnceFor(r, call.key) == call.scope then (m, Ready)
      else if call.key in r.pending && r.pending[call.key].scope == call.scope then (m, Waiting)
      else
        match RecoveredFor(m, r.run, call.key)
        case Some(decision) =>
          if decision.scope == call.scope then (DropRecovered(m, r.run, call.key), if decision.approved then Ready else Refused)
          else (m, Continue(Loading(h, call)))
        case None => (m, Continue(Loading(h, call)))
  }

  /** validateApprovalIdentity. */
  predicate Agrees(r: Run, call: Call, id: Id, a: Approval, t: Token) {
    && a.run == r.run && a.task == r.task && a.action == call.key
    && a.execution == r.execution && a.operation == call.key && a.scope == call.scope
    && t.run == r.run && t.task == r.task && t.approval == id
  }

  /** validateExistingApproval. */
  predicate StillPending(a: Approval, t: Token, now: int) {
    a.status == Pending && t.pending && a.expires > now && t.expires > now
  }

  /** The durable lookup of PrepareDriver. */
  function Load(s: Store, m: Memory, h: nat, call: Call, now: int): (Memory, Reply) {
    if h !in m.runs then (m, Failed)
    else
      var r := m.runs[h];
      if Blank(r.execution) then (m, Continue(Requesting(h, call)))
      else if Blank(call.key) then (m, Failed)
      else
        var id := DerivedId(r.execution, call.key);
        if id !in s.approvals then (m, Continue(Requesting(h, call)))
        else if id !in s.tokens || !Agrees(r, call, id, s.approvals[id], s.tokens[id]) then (m, Failed)
        else
          match s.approvals[id].status
          case Approved => (m, Ready)
          case Rejected => (m, Refused)
          case Pending =>
            if StillPending(s.approvals[id], s.tokens[id], now) then (Hold(m, h, call.key, Held(id, call.scope)), Waiting)
            else (m, Failed)
  }

  function NewApproval(r: Run, call: Call, now: int): Approval {
    Approval(r.run, r.task, call.key, r.execution, call.key, call.scope, now + LIFETIME, Pending)
  }

  function Added(s: Store, id: Id, a: Approval): Store {
    s.(approvals := s.approvals[id := a], tokens := s.tokens[id := Token(a.run, a.task, id, a.expires, true)])
  }

  /** requestApproval, then the pending entry PrepareDriver makes. */
  function Request(s: Store, m: Memory, h: nat, call: Call, now: int): (Store, Memory, Reply) {
    if h !in m.runs then (s, m, Failed)
    else
      var r := m.runs[h];
      if Blank(r.execution) then
        var id := Fresh(s.next);
        (Added(s, id, NewApproval(r, call, now)).(next := s.next + 1), Hold(m, h, call.key, Held(id, call.scope)), Waiting)
      else if Blank(call.key) then (s, m, Failed)
      else
        var id := DerivedId(r.execution, call.key);
        if id in s.approvals then
          if id in s.tokens && Agrees(r, call, id, s.approvals[id], s.tokens[id]) && StillPending(s.approvals[id], s.tokens[id], now)
          then (s, Hold(m, h, call.key, Held(id, call.scope)), Waiting)
          else (s, m, Failed)
        else (Added(s, id, NewApproval(r, call, now)), Hold(m, h, call.key, Held(id, call.scope)), Waiting)
  }

  // ---------------------------------------------------------------- decisions

  /** The tokens decideApproval consumes: those the store lists as pending, unexpired, for the
      run and task, and which belong to the approval. */
  function Consumed(t: Token, id: Id, a: Approval, listed: int): Token {
    if t.pending && t.run == a.run && (t.task == a.task || a.task == UNSET) && t.expires >= listed && t.approval == id
    then t.(pending := false) else t
  }

  /** decideApproval as one unit of work. */
  function Decide(s: Store, id: Id, run: Name, approved: bool, listed: int): Option<Store> {
    if id !in s.approvals || s.approvals[id].run != run || s.approvals[id].status != Pending then None
    else
      var a := s.approvals[id];
      Some(s.(approvals := s.approvals[id := a.(status := if approved then Approved else Rejected)],
              tokens := map t | t in s.tokens :: Consumed(s.tokens[t], id, a, listed),
              events := s.events + [Decided(id, run, a.action, approved, listed)]))
  }

  /** ResolveApproval up to the commit of the decision. */
  function Resolve(s: Store, m: Memory, h: nat, key: Name, mode: Mode, decider: Name, listed: int): (Store, Reply) {
    if h !in m.runs || key !in m.runs[h].pending || Blank(decider) then (s, Failed)
    else
      var held := m.runs[h].pending[key];
      match Decide(s, held.id, m.runs[h].run, mode != Denied, listed)
      case None => (s, Failed)
      case Some(after) => (after, Continue(Settling(h, key, held, mode)))
  }

  function Granted(m: Memory, scope: Name): Memory {
    if scope == UNSET then m else m.(grants := m.grants + {scope})
  }

  function Noted(m: Memory, run: Name, operation: Name, decision: Recovered): Memory {
    var known := if run in m.recovered then m.recovered[run] else map[];
    m.(recovered := m.recovered[run := known[operation := decision]])
  }

  /** The in-memory effect of a decision, after its commit. */
  function Settle(m: Memory, flight: Flight): Memory {
    match flight
    case Settling(h, key, held, mode) =>
      if h !in m.runs then m
      else
        var r := m.runs[h].(pending := m.runs[h].pending - {key});
        (match mode
         case Once => m.(runs := m.runs[h := r.(once := r.once[key := held.scope])])
         case Session => Granted(m.(runs := m.runs[h := r]), held.scope)
         case Denied => m.(runs := m.runs[h := r]))
    case Recovering(run, operation, scope, mode) =>
      if mode == Session then Granted(m, scope) else Noted(m, run, operation, Recovered(scope, mode == Once))
    case _ => m
  }

  function DecisionMode(decision: string): Option<Mode> {
    if decision == "session" then Some(Session)
    else if decision in {"once", "approved", "approve"} then Some(Once)
    else if decision in {"denied", "deny", "rejected", "reject"} then Some(Denied)
    else None
  }

  /** recoverResumeToken and the ownership test; no token asks for no test. */
  predicate TokenServes(s: Store, token: Option<Id>, id: Id, run: Name, now: int) {
    token.Some? ==>
      && token.value in s.tokens
      && var t := s.tokens[token.value];
         t.expires > now && t.pending && t.run == run && t.approval == id
  }

  /** ResolveRecoveredApproval up to the commit, for a record read from the store. */
  function Recover(s: Store, id: Id, token: Option<Id>, decision: string, now: int, listed: int): (Store, Reply) {
    if id !in s.approvals || DecisionMode(decision).None? then (s, Failed)
    else
      var a, mode := s.approvals[id], DecisionMode(decision).value;
      var operation := if a.operation == UNSET then a.action else a.operation;
      if operation == UNSET || a.scope == UNSET || !TokenServes(s, token, id, a.run, now) then (s, Failed)
      else
        match Decide(s, id, a.run, mode != Denied, listed)
        case None => (s, Failed)
        case Some(after) => (after, Continue(Recovering(a.run, operation, a.scope, mode)))
  }

  // ---------------------------------------------------------------- histories

  datatype State = State(store: Store, memory: Memory, flights: map<nat, Flight>, clock: int)

  /** One step of some operation. Times advance by `tick`; `f` names the operation in flight. */
  datatype Op =
    | Start(h: nat, run: Name, task: Name, execution: Name)
    | Restart
    | Prepare(f: nat, h: nat, call: Call)
    | LoadDurable(f: nat, tick: nat)
    | RequestDurable(f: nat, tick: nat)
    | ResolveLive(f: nat, h: nat, key: Name, mode: Mode, decider: Name, tick: nat)
    | ResolveRecovered(f: nat, id: Id, token: Option<Id>, decision: string, tick: nat, lag: nat)
    | Finish(f: nat)
    | Execute(h: nat, key: Name)

  const START: State := State(Store(map[], map[], [], 0), Memory({}, map[], map[]), map[], 0)

  function Launch(flights: map<nat, Flight>, f: nat, reply: Reply): map<nat, Flight> {
    if reply.Continue? then flights[f := reply.flight] else flights - {f}
  }

  function Executed(m: Memory, h: nat, key: Name): Memory {
    if h !in m.runs then m else m.(runs := m.runs[h := m.runs[h].(once := m.runs[h].once - {key})])
  }

  function Step(st: State, op: Op): (State, Reply) {
    match op
    case Start(h, run, task, execution) =>
      if h in st.memory.runs then (st, Failed)
      else (st.(memory := st.memory.(runs := st.memory.runs[h := Run(run, task, execution, map[], map[])])), Waiting)
    case Restart => (st.(memory := Memory({}, map[], map[]), flights := map[]), Failed)
    case Prepare(f, h, call) =>
      var (memory, reply) := Look(st.memory, h, call);
      (st.(memory := memory, flights := Launch(st.flights, f, reply)), reply)
    case LoadDurable(f, tick) =>
      if f !in st.flights || !st.flights[f].Loading? then (st, Failed)
      else
        var (memory, reply) := Load(st.store, st.memory, st.flights[f].h, st.flights[f].call, st.clock + tick);
        (st.(memory := memory, flights := Launch(st.flights, f, reply), clock := st.clock + tick), reply)
    case RequestDurable(f, tick) =>
      if f !in st.flights || !st.flights[f].Requesting? then (st, Failed)
      else
        var (store, memory, reply) := Request(st.store, st.memory, st.flights[f].h, st.flights[f].call, st.clock + tick);
        (State(store, memory, Launch(st.flights, f, reply), st.clock + tick), reply)
    case ResolveLive(f, h, key, mode, decider, tick) =>
      var (store, reply) := Resolve(st.store, st.memory, h, key, mode, decider, st.clock + tick);
      (st.(store := store, flights := Launch(st.flights, f, reply), clock := st.clock + tick), reply)
    case ResolveRecovered(f, id, token, decision, tick, lag) =>
      var (store, reply) := Recover(st.store, id, token, decision, st.clock + tick, st.clock + tick + lag);
      (st.(store := store, flights := Launch(st.flights, f, reply), clock := st.clock + tick + lag), reply)
    case Finish(f) =>
      if f !in st.flights || st.flights[f].Loading? || st.flights[f].Requesting? then (st, Failed)
      else (st.(memory := Settle(st.memory, st.flights[f]), flights := st.flights - {f}), Waiting)
    case Execute(h, key) => (st.(memory := Executed(st.memory, h, key)), Waiting)
  }

  /** The state after a history of steps. */
  function After(ops: seq<Op>): State {
    if ops == [] then START else Step(After(ops[..|ops| - 1]), ops[|ops| - 1]).0
  }

  // ---------------------------------------------------------------- the durable records

  ghost predicate RecordOk(id: Id, a: Approval, next: nat) {
    && a.operation == a.action
    && (if Blank(a.execution) then id.Fresh? && id.n < next else id == DerivedId(a.execution, a.operation))
  }

  ghost predicate TokenOk(id: Id, a: Approval, t: Token, clock: int) {
    && t.run == a.run && t.task == a.task && t.approval == id && t.expires == a.expires
    && (a.status == Pending ==> t.pending)
    && (a.status != Pending && t.pending ==> t.expires < clock)
  }

  ghost predicate EventOk(s: Store, e: Event) {
    && e.id in s.approvals
    && s.approvals[e.id].run == e.run && s.approvals[e.id].action == e.action
    && s.approvals[e.id].status == (if e.approved then Approved else Rejected)
    && e.id in s.tokens && (s.tokens[e.id].pending <==> s.approvals[e.id].expires < e.at)
  }

  ghost predicate RecordsOk(s: Store, clock: int) {
    && (forall id :: id in s.tokens <==> id in s.approvals)
    && (forall id :: id in s.approvals ==> RecordOk(id, s.approvals[id], s.next) && TokenOk(id, s.approvals[id], s.tokens[id], clock))
  }

  ghost predicate JournalOk(s: Store) {
    && (forall i :: 0 <= i < |s.events| ==> EventOk(s, s.events[i]))
    && (forall i, j :: 0 <= i < j < |s.events| ==> s.events[i].id != s.events[j].id)
    && (forall id :: id in s.approvals && s.approvals[id].status != Pending ==> exists i :: 0 <= i < |s.events| && s.events[i].id == id)
  }

  /** Records are never lost, keep their identity, and once decided never change. */
  ghost predicate Grows(s: Store, t: Store) {
    forall id :: id in s.approvals ==>
      && id in t.approvals
      && t.approvals[id] == s.approvals[id].(status := t.approvals[id].status)
      && (s.approvals[id].status != Pending ==> t.approvals[id] == s.approvals[id])
  }

  lemma AddedOk(s: Store, id: Id, a: Approval, clock: int, next: nat)
    requires RecordsOk(s, clock) && JournalOk(s) && id !in s.approvals && a.status == Pending
    requires s.next <= next && RecordOk(id, a, next)
    ensures RecordsOk(Added(s, id, a).(next := next), clock) && JournalOk(Added(s, id, a).(next := next)) && Grows(s, Added(s, id, a).(next := next))
  {
    AddedJournal(s, id, a, next);
  }

  lemma AddedJournal(s: Store, id: Id, a: Approval, next: nat)
    requires JournalOk(s) && id !in s.approvals && a.status == Pending
    ensures JournalOk(Added(s, id, a).(next := next))
  {
    var t := Added(s, id, a).(next := next);
    forall i | 0 <= i < |t.events| ensures EventOk(t, t.events[i]) {
      assert EventOk(s, s.events[i]);
    }
  }

  /** A decision keeps records and tokens together and alters no other record, whatever the time at which
      it lists tokens. */
  lemma DecideRecords(s: Store, id: Id, run: Name, approved: bool, clock: int, listed: int, latest: int)
    requires RecordsOk(s, clock) && clock <= latest && listed <= latest && Decide(s, id, run, approved, listed).Some?
    ensures RecordsOk(Decide(s, id, run, approved, listed).value, latest)
    ensures Grows(s, Decide(s, id, run, approved, listed).value)
  {
    var t := Decide(s, id, run, approved, listed).value;
    forall k | k in t.approvals ensures RecordOk(k, t.approvals[k], t.next) && TokenOk(k, t.approvals[k], t.tokens[k], latest) {
      assert RecordOk(k, s.approvals[k], s.next) && TokenOk(k, s.approvals[k], s.tokens[k], clock);
    }
  }

  /** A decision leaves the earlier events true. */
  lemma DecideLeaves(s: Store, id: Id, run: Name, approved: bool, clock: int, listed: int, e: Event)
    requires RecordsOk(s, clock) && Decide(s, id, run, approved, listed).Some? && EventOk(s, e)
    ensures e.id != id && EventOk(Decide(s, id, run, approved, listed).value, e)
  {
    assert TokenOk(e.id, s.approvals[e.id], s.tokens[e.id], clock);
  }

  /** The event of a decision is true when it is made. */
  lemma DecideSays(s: Store, id: Id, run: Name, approved: bool, clock: int, listed: int)
    requires RecordsOk(s, clock) && Decide(s, id, run, approved, listed).Some?
    ensures var t := Decide(s, id, run, approved, listed).value;
            |t.events| == |s.events| + 1 && t.events[|s.events|].id == id && EventOk(t, t.events[|s.events|])
  {
    assert TokenOk(id, s.approvals[id], s.tokens[id], clock);
  }

  lemma DecideJournal(s: Store, id: Id, run: Name, approved: bool, clock: int, listed: int)
    requires RecordsOk(s, clock) && JournalOk(s) && Decide(s, id, run, approved, listed).Some?
    ensures JournalOk(Decide(s, id, run, approved, listed).value)
  {
    var t := Decide(s, id, run, approved, listed).value;
    DecideSays(s, id, run, approved, clock, listed);
    forall i | 0 <= i < |s.events| ensures s.events[i].id != id && EventOk(t, s.events[i]) {
      DecideLeaves(s, id, run, approved, clock, listed, s.events[i]);
    }
    JournalGrows(s, t, id);
  }

  lemma JournalGrows(s: Store, t: Store, id: Id)
    requires JournalOk(s) && |t.events| == |s.events| + 1 && t.events[..|s.events|] == s.events
    requires t.events[|s.events|].id == id && EventOk(t, t.events[|s.events|])
    requires forall i :: 0 <= i < |s.events| ==> s.events[i].id != id && EventOk(t, s.events[i])
    requires forall k :: k in t.approvals && k != id ==> k in s.approvals && s.approvals[k].status == t.approvals[k].status
    ensures JournalOk(t)
  {
    assert forall i :: 0 <= i < |s.events| ==> t.events[i] == s.events[i];
    DecidedRecorded(s, t, id);
  }

  /** Every decided record has its event, the one just decided included. */
  lemma DecidedRecorded(s: Store, t: Store, id: Id)
    requires |t.events| == |s.events| + 1 && t.events[|s.events|].id == id && forall i :: 0 <= i < |s.events| ==> t.events[i] == s.events[i]
    requires forall k :: k in t.approvals && k != id ==> k in s.approvals && s.approvals[k].status == t.approvals[k].status
    requires forall k :: k in s.approvals && s.approvals[k].status != Pending ==> exists i :: 0 <= i < |s.events| && s.events[i].id == k
    ensures forall k :: k in t.approvals && t.approvals[k].status != Pending ==> exists i :: 0 <= i < |t.events| && t.events[i].id == k
  {
    forall k | k in t.approvals && t.approvals[k].status != Pending
      ensures exists i :: 0 <= i < |t.events| && t.events[i].id == k
    {
      if k != id {
        var i :| 0 <= i < |s.events| && s.events[i].id == k;
        assert t.events[i].id == k;
      }
    }
  }

  // ---------------------------------------------------------------- what memory may claim

  /** An approved record for this run, operation and scope. */
  ghost predicate Backed(s: Store, run: Name, key: Name, scope: Name) {
    exists id :: id in s.approvals && BackedBy(s.approvals[id], run, key, scope)
  }

  ghost predicate BackedBy(a: Approval, run: Name, key: Name, scope: Name) {
    a.run == run && a.action == key && a.scope == scope && a.status == Approved
  }

  ghost predicate ScopeBacked(s: Store, scope: Name) {
    exists run, key :: Backed(s, run, key, scope)
  }

  ghost predicate Owned(s: Store, run: Name, key: Name, held: Held) {
    held.id in s.approvals && var a := s.approvals[held.id]; a.run == run && a.action == key && a.scope == held.scope
  }

  ghost predicate RunOk(s: Store, r: Run) {
    && (forall key :: key in r.once && r.once[key] != UNSET ==> Backed(s, r.run, key, r.once[key]))
    && (forall key :: key in r.pending ==> Owned(s, r.run, key, r.pending[key]))
  }

  ghost predicate NotesOk(s: Store, run: Name, notes: map<Name, Recovered>) {
    forall key :: key in notes && notes[key].approved ==> Backed(s, run, key, notes[key].scope)
  }

  ghost predicate MemoryOk(s: Store, m: Memory) {
    && (forall g :: g in m.grants ==> ScopeBacked(s, g))
    && (forall run :: run in m.recovered ==> NotesOk(s, run, m.recovered[run]))
    && (forall h :: h in m.runs ==> RunOk(s, m.runs[h]))
  }

  ghost predicate FlightOk(s: Store, m: Memory, flight: Flight) {
    match flight
    case Settling(h, key, held, mode) => h in m.runs && (mode != Denied ==> Backed(s, m.runs[h].run, key, held.scope))
    case Recovering(run, operation, scope, mode) => mode != Denied ==> Backed(s, run, operation, scope)
    case _ => true
  }

  ghost predicate FlightsOk(s: Store, m: Memory, flights: map<nat, Flight>) {
    forall f :: f in flights ==> FlightOk(s, m, flights[f])
  }

  ghost predicate Inv(st: State) {
    RecordsOk(st.store, st.clock) && JournalOk(st.store) && MemoryOk(st.store, st.memory) && FlightsOk(st.store, st.memory, st.flights)
  }

  /** Runs keep their identity while the process lives. */
  ghost predicate SameRuns(m: Memory, n: Memory) {
    forall h :: h in m.runs ==> h in n.runs && n.runs[h].run == m.runs[h].run
  }

  lemma BackedGrows(s: Store, t: Store, run: Name, key: Name, scope: Name)
    requires Grows(s, t) && Backed(s, run, key, scope)
    ensures Backed(t, run, key, scope)
  {
    var id :| id in s.approvals && BackedBy(s.approvals[id], run, key, scope);
    assert t.approvals[id] == s.approvals[id];
  }

  lemma ScopeGrows(s: Store, t: Store, scope: Name)
    requires Grows(s, t) && ScopeBacked(s, scope)
    ensures ScopeBacked(t, scope)
  {
    var run, key :| Backed(s, run, key, scope);
    BackedGrows(s, t, run, key, scope);
  }

  lemma RunGrows(s: Store, t: Store, r: Run)
    requires Grows(s, t) && RunOk(s, r)
    ensures RunOk(t, r)
  {
    forall key | key in r.once && r.once[key] != UNSET ensures Backed(t, r.run, key, r.once[key]) {
      BackedGrows(s, t, r.run, key, r.once[key]);
    }
  }

  lemma NotesGrow(s: Store, t: Store, run: Name, notes: map<Name, Recovered>)
    requires Grows(s, t) && NotesOk(s, run, notes)
    ensures NotesOk(t, run, notes)
  {
    forall key | key in notes && notes[key].approved ensures Backed(t, run, key, notes[key].scope) {
      BackedGrows(s, t, run, key, notes[key].scope);
    }
  }

  lemma MemoryGrows(s: Store, t: Store, m: Memory)
    requires Grows(s, t) && MemoryOk(s, m)
    ensures MemoryOk(t, m)
  {
    forall g | g in m.grants ensures ScopeBacked(t, g) { ScopeGrows(s, t, g); }
    forall run | run in m.recovered ensures NotesOk(t, run, m.recovered[run]) { NotesGrow(s, t, run, m.recovered[run]); }
    forall h | h in m.runs ensures RunOk(t, m.runs[h]) { RunGrows(s, t, m.runs[h]); }
  }

  lemma FlightsGrow(s: Store, t: Store, m: Memory, n: Memory, flights: map<nat, Flight>)
    requires Grows(s, t) && SameRuns(m, n) && FlightsOk(s, m, flights)
    ensures FlightsOk(t, n, flights)
  {
    forall f | f in flights ensures FlightOk(t, n, flights[f]) {
      match flights[f]
      case Settling(h, key, held, mode) =>
        if mode != Denied { BackedGrows(s, t, m.runs[h].run, key, held.scope); }
      case Recovering(run, operation, scope, mode) =>
        if mode != Denied { BackedGrows(s, t, run, operation, scope); }
      case _ =>
    }
  }

  // ---------------------------------------------------------------- every step keeps the invariant

  lemma LookOk(s: Store, m: Memory, h: nat, call: Call)
    requires MemoryOk(s, m)
    ensures MemoryOk(s, Look(m, h, call).0) && SameRuns(m, Look(m, h, call).0)
    ensures Look(m, h, call).1.Continue? ==> Look(m, h, call).1.flight.Loading?
  {
    if h in m.runs && RecoveredFor(m, m.runs[h].run, call.key).Some? {
      DropOk(s, m, m.runs[h].run, call.key);
    }
  }

  lemma DropOk(s: Store, m: Memory, run: Name, key: Name)
    requires MemoryOk(s, m) && run in m.recovered
    ensures MemoryOk(s, DropRecovered(m, run, key)) && SameRuns(m, DropRecovered(m, run, key))
  {
    assert NotesOk(s, run, m.recovered[run] - {key});
  }

  lemma HoldOk(s: Store, m: Memory, h: nat, key: Name, held: Held)
    requires MemoryOk(s, m) && h in m.runs && Owned(s, m.runs[h].run, key, held)
    ensures MemoryOk(s, Hold(m, h, key, held)) && SameRuns(m, Hold(m, h, key, held))
  {
    assert RunOk(s, m.runs[h]);
    assert RunOk(s, m.runs[h].(pending := m.runs[h].pending[key := held]));
  }

  lemma LoadOk(s: Store, m: Memory, h: nat, call: Call, now: int)
    requires MemoryOk(s, m)
    ensures MemoryOk(s, Load(s, m, h, call, now).0) && SameRuns(m, Load(s, m, h, call, now).0)
    ensures Load(s, m, h, call, now).1.Continue? ==> Load(s, m, h, call, now).1.flight.Requesting?
  {
    if h in m.runs {
      var id := DerivedId(m.runs[h].execution, call.key);
      if id in s.approvals && id in s.tokens && Agrees(m.runs[h], call, id, s.approvals[id], s.tokens[id]) {
        HoldOk(s, m, h, call.key, Held(id, call.scope));
      }
    }
  }

  ghost predicate StepOk(s: Store, m: Memory, t: Store, n: Memory, clock: int) {
    RecordsOk(t, clock) && JournalOk(t) && Grows(s, t) && MemoryOk(t, n) && SameRuns(m, n)
  }

  lemma AddHeldOk(s: Store, m: Memory, h: nat, call: Call, now: int, clock: int, id: Id, next: nat)
    requires RecordsOk(s, clock) && JournalOk(s) && MemoryOk(s, m) && h in m.runs && id !in s.approvals
    requires s.next <= next && RecordOk(id, NewApproval(m.runs[h], call, now), next)
    ensures StepOk(s, m, Added(s, id, NewApproval(m.runs[h], call, now)).(next := next), Hold(m, h, call.key, Held(id, call.scope)), clock)
  {
    var a := NewApproval(m.runs[h], call, now);
    var t := Added(s, id, a).(next := next);
    AddedOk(s, id, a, clock, next);
    assert MemoryOk(t, m) by { MemoryGrows(s, t, m); }
    HoldOk(t, m, h, call.key, Held(id, call.scope));
  }

  lemma RequestOk(s: Store, m: Memory, h: nat, call: Call, now: int, clock: int)
    requires RecordsOk(s, clock) && JournalOk(s) && MemoryOk(s, m)
    ensures var (t, n, reply) := Request(s, m, h, call, now); StepOk(s, m, t, n, clock) && !reply.Continue?
  {
    if h in m.runs {
      if Blank(m.runs[h].execution) {
        RequestFresh(s, m, h, call, now, clock);
      } else {
        RequestDerived(s, m, h, call, now, clock);
      }
    }
  }

  lemma RequestFresh(s: Store, m: Memory, h: nat, call: Call, now: int, clock: int)
    requires RecordsOk(s, clock) && JournalOk(s) && MemoryOk(s, m) && h in m.runs && Blank(m.runs[h].execution)
    ensures StepOk(s, m, Request(s, m, h, call, now).0, Request(s, m, h, call, now).1, clock)
  {
    NextUnused(s, clock);
    AddHeldOk(s, m, h, call, now, clock, Fresh(s.next), s.next + 1);
    RequestFreshIs(s, m, h, call, now);
  }

  lemma RequestFreshIs(s: Store, m: Memory, h: nat, call: Call, now: int)
    requires h in m.runs && Blank(m.runs[h].execution)
    ensures Request(s, m, h, call, now).0 == Added(s, Fresh(s.next), NewApproval(m.runs[h], call, now)).(next := s.next + 1)
    ensures Request(s, m, h, call, now).1 == Hold(m, h, call.key, Held(Fresh(s.next), call.scope))
  {
  }

  lemma NextUnused(s: Store, clock: int)
    requires RecordsOk(s, clock)
    ensures Fresh(s.next) !in s.approvals
  {
    assert forall id :: id in s.approvals ==> RecordOk(id, s.approvals[id], s.next);
  }

  lemma RequestDerived(s: Store, m: Memory, h: nat, call: Call, now: int, clock: int)
    requires RecordsOk(s, clock) && JournalOk(s) && MemoryOk(s, m) && h in m.runs && !Blank(m.runs[h].execution)
    ensures StepOk(s, m, Request(s, m, h, call, now).0, Request(s, m, h, call, now).1, clock)
  {
    var id := DerivedId(m.runs[h].execution, call.key);
    if id !in s.approvals {
      AddHeldOk(s, m, h, call, now, clock, id, s.next);
      assert Added(s, id, NewApproval(m.runs[h], call, now)).(next := s.next) == Added(s, id, NewApproval(m.runs[h], call, now));
    } else if Agrees(m.runs[h], call, id, s.approvals[id], s.tokens[id]) {
      HoldOk(s, m, h, call.key, Held(id, call.scope));
    }
  }

  /** The store after a decision that may have been refused. */
  ghost predicate DecidedOrSame(s: Store, t: Store, listed: int) {
    t == s || exists id, run, approved :: Decide(s, id, run, approved, listed) == Some(t)
  }

  lemma DecidedOrSameOk(s: Store, m: Memory, t: Store, clock: int, listed: int)
    requires RecordsOk(s, clock) && JournalOk(s) && MemoryOk(s, m) && clock <= listed && DecidedOrSame(s, t, listed)
    ensures StepOk(s, m, t, m, listed)
  {
    if t == s {
      Later(s, clock, listed);
      GrowsSelf(s);
    } else {
      var id, run, approved :| Decide(s, id, run, approved, listed) == Some(t);
      DecidedOk(s, m, id, run, approved, clock, listed);
    }
  }

  lemma ResolveShape(s: Store, m: Memory, h: nat, key: Name, mode: Mode, decider: Name, listed: int)
    requires h in m.runs && key in m.runs[h].pending ==> Owned(s, m.runs[h].run, key, m.runs[h].pending[key])
    ensures var (t, reply) := Resolve(s, m, h, key, mode, decider, listed);
            DecidedOrSame(s, t, listed) && (reply.Continue? ==> FlightOk(t, m, reply.flight))
  {
    if h in m.runs && key in m.runs[h].pending && !Blank(decider) {
      var held := m.runs[h].pending[key];
      if mode != Denied && Decide(s, held.id, m.runs[h].run, true, listed).Some? {
        DecidedBacks(s, held.id, m.runs[h].run, key, held.scope, listed);
      }
    }
  }

  lemma Later(s: Store, clock: int, listed: int)
    requires RecordsOk(s, clock) && clock <= listed
    ensures RecordsOk(s, listed)
  {
    forall id | id in s.approvals ensures RecordOk(id, s.approvals[id], s.next) && TokenOk(id, s.approvals[id], s.tokens[id], listed) {
      assert TokenOk(id, s.approvals[id], s.tokens[id], clock);
    }
  }

  lemma DecidedOk(s: Store, m: Memory, id: Id, run: Name, approved: bool, clock: int, listed: int)
    requires RecordsOk(s, clock) && JournalOk(s) && MemoryOk(s, m) && clock <= listed
    ensures var t := Decide(s, id, run, approved, listed); t.Some? ==> StepOk(s, m, t.value, m, listed)
  {
    if Decide(s, id, run, approved, listed).Some? {
      DecideRecords(s, id, run, approved, clock, listed, listed);
      DecideJournal(s, id, run, approved, clock, listed);
      MemoryGrows(s, Decide(s, id, run, approved, listed).value, m);
    }
  }

  lemma DecidedBacks(s: Store, id: Id, run: Name, key: Name, scope: Name, listed: int)
    requires Decide(s, id, run, true, listed).Some? && s.approvals[id].action == key && s.approvals[id].scope == scope
    ensures Backed(Decide(s, id, run, true, listed).value, run, key, scope)
  {
    var t := Decide(s, id, run, true, listed).value;
    assert id in t.approvals && BackedBy(t.approvals[id], run, key, scope);
  }

  lemma RecoverShape(s: Store, m: Memory, id: Id, token: Option<Id>, decision: string, now: int, listed: int)
    requires id in s.approvals ==> s.approvals[id].operation == s.approvals[id].action
    ensures var (t, reply) := Recover(s, id, token, decision, now, listed);
            DecidedOrSame(s, t, listed) && (reply.Continue? ==> FlightOk(t, m, reply.flight))
  {
    if id in s.approvals && DecisionMode(decision).Some? {
      var a, mode := s.approvals[id], DecisionMode(decision).value;
      if mode != Denied && Decide(s, id, a.run, true, listed).Some? {
        DecidedBacks(s, id, a.run, a.action, a.scope, listed);
      }
    }
  }

  lemma SettleOk(s: Store, m: Memory, flight: Flight)
    requires MemoryOk(s, m) && FlightOk(s, m, flight)
    ensures MemoryOk(s, Settle(m, flight)) && SameRuns(m, Settle(m, flight))
  {
    match flight
    case Settling(h, key, held, mode) =>
      assert RunOk(s, m.runs[h]);
      var r := m.runs[h].(pending := m.runs[h].pending - {key});
      assert RunOk(s, r);
      if mode == Once { assert RunOk(s, r.(once := r.once[key := held.scope])); }
    case Recovering(run, operation, scope, mode) =>
      if mode != Session { NotedOk(s, m, run, operation, Recovered(scope, mode == Once)); }
    case _ =>
  }

  lemma NotedOk(s: Store, m: Memory, run: Name, operation: Name, decision: Recovered)
    requires MemoryOk(s, m) && (decision.approved ==> Backed(s, run, operation, decision.scope))
    ensures MemoryOk(s, Noted(m, run, operation, decision)) && SameRuns(m, Noted(m, run, operation, decision))
  {
    var known := if run in m.recovered then m.recovered[run] else map[];
    assert NotesOk(s, run, known);
    assert NotesOk(s, run, known[operation := decision]);
  }

  lemma ExecutedOk(s: Store, m: Memory, h: nat, key: Name)
    requires MemoryOk(s, m)
    ensures MemoryOk(s, Executed(m, h, key)) && SameRuns(m, Executed(m, h, key))
  {
    if h in m.runs {
      assert RunOk(s, m.runs[h]);
      assert RunOk(s, m.runs[h].(once := m.runs[h].once - {key}));
    }
  }

  lemma LaunchOk(s: Store, m: Memory, flights: map<nat, Flight>, f: nat, reply: Reply)
    requires FlightsOk(s, m, flights) && (reply.Continue? ==> FlightOk(s, m, reply.flight))
    ensures FlightsOk(s, m, Launch(flights, f, reply))
  {
  }

  lemma GrowsSelf(s: Store)
    ensures Grows(s, s)
  {
  }

  ghost predicate Kept(st: State, after: State) { Inv(after) && Grows(st.store, after.store) }

  lemma KeepFlights(st: State, t: Store, n: Memory, f: nat, reply: Reply, clock: int)
    requires Inv(st) && StepOk(st.store, st.memory, t, n, clock) && (reply.Continue? ==> FlightOk(t, n, reply.flight))
    ensures Kept(st, State(t, n, Launch(st.flights, f, reply), clock))
  {
    FlightsGrow(st.store, t, st.memory, n, st.flights);
    LaunchOk(t, n, st.flights, f, reply);
  }

  lemma KeepMemory(st: State, n: Memory)
    requires Inv(st) && MemoryOk(st.store, n) && SameRuns(st.memory, n)
    ensures Kept(st, st.(memory := n))
  {
    FlightsGrow(st.store, st.store, st.memory, n, st.flights);
  }

  lemma PrepareKeeps(st: State, f: nat, h: nat, call: Call)
    requires Inv(st)
    ensures Kept(st, Step(st, Prepare(f, h, call)).0)
  {
    var (n, reply) := Look(st.memory, h, call);
    LookOk(st.store, st.memory, h, call);
    KeepFlights(st, st.store, n, f, reply, st.clock);
  }

  /** The state once flight f has been answered. */
  ghost function Landed(st: State, t: Store, n: Memory, f: nat, reply: Reply, clock: int): State {
    State(t, n, Launch(st.flights, f, reply), clock)
  }

  lemma LoadReaches(st: State, f: nat, tick: nat, now: int, ok: Memory -> bool, kept: State -> bool)
    requires now == st.clock + tick && f in st.flights && st.flights[f].Loading?
    requires var (n, reply) := Load(st.store, st.memory, st.flights[f].h, st.flights[f].call, now);
             ok(n) && (reply.Continue? ==> reply.flight.Requesting?)
    requires forall n, reply: Reply :: ok(n) && (reply.Continue? ==> reply.flight.Requesting?) ==> kept(Landed(st, st.store, n, f, reply, now))
    ensures kept(Step(st, LoadDurable(f, tick)).0)
  {
    var (n, reply) := Load(st.store, st.memory, st.flights[f].h, st.flights[f].call, now);
    assert Step(st, LoadDurable(f, tick)).0 == Landed(st, st.store, n, f, reply, now);
  }

  lemma LoadKeeps(st: State, f: nat, tick: nat)
    requires Inv(st) && f in st.flights && st.flights[f].Loading?
    ensures Kept(st, Step(st, LoadDurable(f, tick)).0)
  {
    var now := st.clock + tick;
    Later(st.store, st.clock, now);
    GrowsSelf(st.store);
    var ok := n => MemoryOk(st.store, n) && SameRuns(st.memory, n);
    forall n, reply: Reply | ok(n) && (reply.Continue? ==> reply.flight.Requesting?)
      ensures Kept(st, Landed(st, st.store, n, f, reply, now))
    {
      KeepFlights(st, st.store, n, f, reply, now);
    }
    LoadOk(st.store, st.memory, st.flights[f].h, st.flights[f].call, now);
    LoadReaches(st, f, tick, now, ok, after => Kept(st, after));
  }

  lemma RequestReaches(st: State, f: nat, tick: nat, now: int, ok: (Store, Memory) -> bool, kept: State -> bool)
    requires now == st.clock + tick && f in st.flights && st.flights[f].Requesting?
    requires var (t, n, reply) := Request(st.store, st.memory, st.flights[f].h, st.flights[f].call, now); ok(t, n) && !reply.Continue?
    requires forall t, n, reply: Reply :: ok(t, n) && !reply.Continue? ==> kept(Landed(st, t, n, f, reply, now))
    ensures kept(Step(st, RequestDurable(f, tick)).0)
  {
    var (t, n, reply) := Request(st.store, st.memory, st.flights[f].h, st.flights[f].call, now);
    assert Step(st, RequestDurable(f, tick)).0 == Landed(st, t, n, f, reply, now);
  }

  lemma RequestKeeps(st: State, f: nat, tick: nat)
    requires Inv(st) && f in st.flights && st.flights[f].Requesting?
    ensures Kept(st, Step(st, RequestDurable(f, tick)).0)
  {
    var now := st.clock + tick;
    forall t, n, reply: Reply | StepOk(st.store, st.memory, t, n, now) && !reply.Continue?
      ensures Kept(st, Landed(st, t, n, f, reply, now))
    {
      KeepFlights(st, t, n, f, reply, now);
    }
    var ok := (t, n) => StepOk(st.store, st.memory, t, n, now);
    RequestPasses(st, st.flights[f].h, st.flights[f].call, now, ok);
    RequestReaches(st, f, tick, now, ok, after => Kept(st, after));
  }

  lemma RequestPasses(st: State, h: nat, call: Call, now: int, ok: (Store, Memory) -> bool)
    requires Inv(st) && st.clock <= now
    requires forall t, n :: StepOk(st.store, st.memory, t, n, now) ==> ok(t, n)
    ensures var (t, n, reply) := Request(st.store, st.memory, h, call, now); ok(t, n) && !reply.Continue?
  {
    Later(st.store, st.clock, now);
    RequestOk(st.store, st.memory, h, call, now, now);
  }

  lemma DecisionKeeps(st: State, f: nat, t: Store, reply: Reply, listed: int)
    requires Inv(st) && st.clock <= listed && DecidedOrSame(st.store, t, listed)
    requires reply.Continue? ==> FlightOk(t, st.memory, reply.flight)
    ensures Kept(st, State(t, st.memory, Launch(st.flights, f, reply), listed))
  {
    DecidedOrSameOk(st.store, st.memory, t, st.clock, listed);
    KeepFlights(st, t, st.memory, f, reply, listed);
  }

  lemma ResolveReaches(st: State, f: nat, h: nat, key: Name, mode: Mode, decider: Name, tick: nat, now: int, kept: State -> bool)
    requires now == st.clock + tick
    requires h in st.memory.runs && key in st.memory.runs[h].pending ==>
               Owned(st.store, st.memory.runs[h].run, key, st.memory.runs[h].pending[key])
    requires forall t, reply: Reply :: DecidedOrSame(st.store, t, now) && (reply.Continue? ==> FlightOk(t, st.memory, reply.flight)) ==>
               kept(Landed(st, t, st.memory, f, reply, now))
    ensures kept(Step(st, ResolveLive(f, h, key, mode, decider, tick)).0)
  {
    var (t, reply) := Resolve(st.store, st.memory, h, key, mode, decider, now);
    ResolveShape(st.store, st.memory, h, key, mode, decider, now);
    assert Step(st, ResolveLive(f, h, key, mode, decider, tick)).0 == Landed(st, t, st.memory, f, reply, now);
  }

  lemma ResolveKeeps(st: State, f: nat, h: nat, key: Name, mode: Mode, decider: Name, tick: nat)
    requires Inv(st)
    ensures Kept(st, Step(st, ResolveLive(f, h, key, mode, decider, tick)).0)
  {
    var now := st.clock + tick;
    forall t, reply: Reply | DecidedOrSame(st.store, t, now) && (reply.Continue? ==> FlightOk(t, st.memory, reply.flight))
      ensures Kept(st, Landed(st, t, st.memory, f, reply, now))
    {
      DecisionKeeps(st, f, t, reply, now);
    }
    if h in st.memory.runs { assert RunOk(st.store, st.memory.runs[h]); }
    ResolveReaches(st, f, h, key, mode, decider, tick, now, after => Kept(st, after));
  }

  lemma RecoverReaches(st: State, f: nat, id: Id, token: Option<Id>, decision: string, tick: nat, lag: nat, listed: int, kept: State -> bool)
    requires listed == st.clock + tick + lag
    requires id in st.store.approvals ==> st.store.approvals[id].operation == st.store.approvals[id].action
    requires forall t, reply: Reply :: DecidedOrSame(st.store, t, listed) && (reply.Continue? ==> FlightOk(t, st.memory, reply.flight)) ==>
               kept(Landed(st, t, st.memory, f, reply, listed))
    ensures kept(Step(st, ResolveRecovered(f, id, token, decision, tick, lag)).0)
  {
    var now := st.clock + tick;
    var (t, reply) := Recover(st.store, id, token, decision, now, listed);
    RecoverShape(st.store, st.memory, id, token, decision, now, listed);
    assert Step(st, ResolveRecovered(f, id, token, decision, tick, lag)).0 == Landed(st, t, st.memory, f, reply, listed);
  }

  lemma RecoverKeeps(st: State, f: nat, id: Id, token: Option<Id>, decision: string, tick: nat, lag: nat)
    requires Inv(st)
    ensures Kept(st, Step(st, ResolveRecovered(f, id, token, decision, tick, lag)).0)
  {
    var listed := st.clock + tick + lag;
    forall t, reply: Reply | DecidedOrSame(st.store, t, listed) && (reply.Continue? ==> FlightOk(t, st.memory, reply.flight))
      ensures Kept(st, Landed(st, t, st.memory, f, reply, listed))
    {
      DecisionKeeps(st, f, t, reply, listed);
    }
    if id in st.store.approvals { assert RecordOk(id, st.store.approvals[id], st.store.next); }
    RecoverReaches(st, f, id, token, decision, tick, lag, listed, after => Kept(st, after));
  }

  lemma FinishKeeps(st: State, f: nat)
    requires Inv(st) && f in st.flights && !st.flights[f].Loading? && !st.flights[f].Requesting?
    ensures Kept(st, Step(st, Finish(f)).0)
  {
    SettleOk(st.store, st.memory, st.flights[f]);
    KeepMemory(st, Settle(st.memory, st.flights[f]));
  }

  lemma StartKeeps(st: State, h: nat, run: Name, task: Name, execution: Name)
    requires Inv(st) && h !in st.memory.runs
    ensures Kept(st, Step(st, Start(h, run, task, execution)).0)
  {
    assert RunOk(st.store, Run(run, task, execution, map[], map[]));
    KeepMemory(st, st.memory.(runs := st.memory.runs[h := Run(run, task, execution, map[], map[])]));
  }

  /** Every step keeps the invariant and only adds to the durable records. */
  lemma StepKeeps(st: State, op: Op)
    requires Inv(st)
    ensures Kept(st, Step(st, op).0)
  {
    GrowsSelf(st.store);
    match op
    case Prepare(f, h, call) => PrepareKeeps(st, f, h, call);
    case LoadDurable(f, tick) => if f in st.flights && st.flights[f].Loading? { LoadKeeps(st, f, tick); }
    case RequestDurable(f, tick) => if f in st.flights && st.flights[f].Requesting? { RequestKeeps(st, f, tick); }
    case ResolveLive(f, h, key, mode, decider, tick) => ResolveKeeps(st, f, h, key, mode, decider, tick);
    case ResolveRecovered(f, id, token, decision, tick, lag) => RecoverKeeps(st, f, id, token, decision, tick, lag);
    case Finish(f) => if f in st.flights && !st.flights[f].Loading? && !st.flights[f].Requesting? { FinishKeeps(st, f); }
    case Execute(h, key) => ExecutedOk(st.store, st.memory, h, key); KeepMemory(st, Executed(st.memory, h, key));
    case Start(h, run, task, execution) => if h !in st.memory.runs { StartKeeps(st, h, run, task, execution); }
    case Restart =>
  }

  // ---------------------------------------------------------------- whole histories

  lemma {:induction false} AfterInv(ops: seq<Op>)
    ensures Inv(After(ops))
  {
    if ops != [] {
      AfterInv(ops[..|ops| - 1]);
      StepKeeps(After(ops[..|ops| - 1]), ops[|ops| - 1]);
    }
  }

  lemma GrowsTransitive(s: Store, t: Store, u: Store)
    requires Grows(s, t) && Grows(t, u)
    ensures Grows(s, u)
  {
  }

  lemma AfterMore(ops: seq<Op>, more: seq<Op>)
    requires more != []
    ensures After(ops + more) == Step(After(ops + more[..|more| - 1]), more[|more| - 1]).0
  {
    assert (ops + more)[..|ops + more| - 1] == ops + more[..|more| - 1];
  }

  /** Records are never lost or altered by what happens later. */
  lemma {:induction false} HistoryGrows(ops: seq<Op>, more: seq<Op>)
    ensures Grows(After(ops).store, After(ops + more).store)
  {
    if more == [] {
      assert ops + more == ops;
      GrowsSelf(After(ops).store);
    } else {
      var init, last := more[..|more| - 1], more[|more| - 1];
      HistoryGrows(ops, init);
      AfterInv(ops + init);
      StepKeeps(After(ops + init), last);
      AfterMore(ops, more);
      GrowsTransitive(After(ops).store, After(ops + init).store, After(ops + more).store);
    }
  }

  /** An earlier approval of this scope, for this run and operation. */
  ghost predicate ApprovedBefore(s: Store, run: Name, key: Name, scope: Name) {
    exists i :: 0 <= i < |s.events| && ApprovalEvent(s, s.events[i], scope) && s.events[i].run == run && s.events[i].action == key
  }

  ghost predicate ScopeApprovedBefore(s: Store, scope: Name) {
    exists i :: 0 <= i < |s.events| && ApprovalEvent(s, s.events[i], scope)
  }

  ghost predicate ApprovalEvent(s: Store, e: Event, scope: Name) {
    e.approved && e.id in s.approvals && s.approvals[e.id].scope == scope
  }

  /** What lets a call through: a recorded approval of its scope, for its own run and operation unless a
      session grant covers it. */
  ghost predicate Allowed(s: Store, m: Memory, h: nat, call: Call) {
    && h in m.runs && ScopeApprovedBefore(s, call.scope)
    && (call.scope in m.grants || ApprovedBefore(s, m.runs[h].run, call.key, call.scope))
  }

  /** The run waits for a record of the call's own run, operation and scope. */
  ghost predicate Awaits(s: Store, m: Memory, h: nat, call: Call) {
    && h in m.runs && call.key in m.runs[h].pending && m.runs[h].pending[call.key].scope == call.scope
    && Owned(s, m.runs[h].run, call.key, m.runs[h].pending[call.key])
  }

  /** And that record can still be decided: it and its token are pending and have not expired. */
  ghost predicate AwaitsOpen(s: Store, m: Memory, h: nat, call: Call, now: int) {
    && Awaits(s, m, h, call)
    && var id := m.runs[h].pending[call.key].id; id in s.tokens && StillPending(s.approvals[id], s.tokens[id], now)
  }

  lemma BackedEvent(s: Store, run: Name, key: Name, scope: Name)
    requires JournalOk(s) && Backed(s, run, key, scope)
    ensures ApprovedBefore(s, run, key, scope) && ScopeApprovedBefore(s, scope)
  {
    var id :| id in s.approvals && BackedBy(s.approvals[id], run, key, scope);
    var i :| 0 <= i < |s.events| && s.events[i].id == id;
    assert EventOk(s, s.events[i]);
    assert ApprovalEvent(s, s.events[i], scope);
  }

  lemma LookReady(s: Store, m: Memory, h: nat, call: Call)
    requires MemoryOk(s, m) && Look(m, h, call).1 == Ready && NeedsApproval(call)
    ensures h in m.runs && (Backed(s, m.runs[h].run, call.key, call.scope) || (call.scope in m.grants && ScopeBacked(s, call.scope)))
  {
    var r := m.runs[h];
    assert RunOk(s, r);
    if call.scope !in m.grants && OnceFor(r, call.key) != call.scope {
      assert NotesOk(s, r.run, m.recovered[r.run]);
    }
  }

  lemma LoadReady(s: Store, m: Memory, h: nat, call: Call, now: int)
    requires Load(s, m, h, call, now).1 == Ready
    ensures h in m.runs && Backed(s, m.runs[h].run, call.key, call.scope)
  {
    var id := DerivedId(m.runs[h].execution, call.key);
    assert id in s.approvals && BackedBy(s.approvals[id], m.runs[h].run, call.key, call.scope);
  }

  lemma ApprovedAllows(s: Store, m: Memory, h: nat, call: Call)
    requires h in m.runs && ApprovedBefore(s, m.runs[h].run, call.key, call.scope)
    ensures Allowed(s, m, h, call)
  {
  }

  lemma BackedAllows(s: Store, m: Memory, h: nat, call: Call)
    requires JournalOk(s) && h in m.runs
    requires Backed(s, m.runs[h].run, call.key, call.scope) || (call.scope in m.grants && ScopeBacked(s, call.scope))
    ensures Allowed(s, m, h, call)
  {
    if Backed(s, m.runs[h].run, call.key, call.scope) {
      BackedEvent(s, m.runs[h].run, call.key, call.scope);
    } else {
      var run, key :| Backed(s, run, key, call.scope);
      BackedEvent(s, run, key, call.scope);
    }
  }

  /** A look uses up at most the note it answers from. */
  ghost predicate UsesOneNote(m: Memory, n: Memory, run: Name, key: Name) {
    && n.grants == m.grants && n.runs == m.runs
    && (forall r, k :: RecoveredFor(n, r, k) == RecoveredFor(m, r, k) || (r == run && k == key && RecoveredFor(n, r, k) == None))
  }

  lemma DropUsesOne(m: Memory, run: Name, key: Name)
    requires run in m.recovered
    ensures UsesOneNote(m, DropRecovered(m, run, key), run, key)
  {
    var n := DropRecovered(m, run, key);
    forall r, k ensures RecoveredFor(n, r, k) == RecoveredFor(m, r, k) || (r == run && k == key && RecoveredFor(n, r, k) == None) {
      if r == run {
        var left := m.recovered[run] - {key};
        if left == map[] { assert k != key ==> k !in m.recovered[run] by { assert k !in left; } }
      }
    }
  }

  /** What the answer of a look means. */
  lemma LookMeans(s: Store, m: Memory, h: nat, call: Call)
    requires JournalOk(s) && MemoryOk(s, m)
    ensures var (n, reply) := Look(m, h, call);
            && (reply == Ready && NeedsApproval(call) ==> Allowed(s, m, h, call))
            && (reply == Waiting ==> n == m && Awaits(s, m, h, call))
            && (reply.Continue? ==> n == m && call.scope !in m.grants)
            && (if h in m.runs then UsesOneNote(m, n, m.runs[h].run, call.key) else n == m)
  {
    if h in m.runs {
      assert RunOk(s, m.runs[h]);
      if RecoveredFor(m, m.runs[h].run, call.key).Some? { DropUsesOne(m, m.runs[h].run, call.key); }
      if Look(m, h, call).1 == Ready && NeedsApproval(call) {
        LookReady(s, m, h, call);
        BackedAllows(s, m, h, call);
      }
    }
  }

  /** A recorded rejection of this scope, for this run and operation. */
  ghost predicate RejectedBefore(s: Store, run: Name, key: Name, scope: Name) {
    exists i :: 0 <= i < |s.events| && RejectionEvent(s, s.events[i], scope) && s.events[i].run == run && s.events[i].action == key
  }

  ghost predicate RejectionEvent(s: Store, e: Event, scope: Name) {
    !e.approved && e.id in s.approvals && s.approvals[e.id].scope == scope
  }

  lemma RejectedEvent(s: Store, id: Id)
    requires JournalOk(s) && id in s.approvals && s.approvals[id].status == Rejected
    ensures RejectedBefore(s, s.approvals[id].run, s.approvals[id].action, s.approvals[id].scope)
  {
    var i :| 0 <= i < |s.events| && s.events[i].id == id;
    assert EventOk(s, s.events[i]);
    assert RejectionEvent(s, s.events[i], s.approvals[id].scope);
  }

  /** What the answer of the durable lookup means. */
  lemma LoadMeans(s: Store, m: Memory, h: nat, call: Call, now: int)
    requires JournalOk(s)
    ensures var (n, reply) := Load(s, m, h, call, now);
            && (reply == Ready ==> h in m.runs && ApprovedBefore(s, m.runs[h].run, call.key, call.scope))
            && (reply == Refused ==> h in m.runs && RejectedBefore(s, m.runs[h].run, call.key, call.scope))
            && (reply == Waiting ==> AwaitsOpen(s, n, h, call, now))
            && (reply != Waiting ==> n == m)
  {
    var reply := Load(s, m, h, call, now).1;
    if reply == Ready {
      LoadReady(s, m, h, call, now);
      BackedEvent(s, m.runs[h].run, call.key, call.scope);
    } else if reply == Refused {
      RejectedEvent(s, DerivedId(m.runs[h].execution, call.key));
    }
  }

  /** What the answer of a request means: it decides nothing, and waiting is for a record that can still
      be decided, the only one it may have added. */
  lemma RequestMeans(s: Store, m: Memory, h: nat, call: Call, now: int)
    ensures var (t, n, reply) := Request(s, m, h, call, now);
            && (reply == Waiting || (reply == Failed && t == s && n == m)) && t.events == s.events
            && (reply == Waiting ==> AwaitsOpen(t, n, h, call, now))
            && (forall id :: id in t.approvals && id !in s.approvals ==> reply == Waiting && id == n.runs[h].pending[call.key].id)
  {
  }

  /** Whether a step makes a call ready, and which. */
  ghost predicate MakesReady(st: State, op: Op, h: nat, call: Call) {
    && Step(st, op).1 == Ready
    && ((op.Prepare? && op.h == h && op.call == call)
        || (op.LoadDurable? && op.f in st.flights && st.flights[op.f] == Loading(h, call)))
  }

  lemma ReadyBacked(st: State, op: Op, h: nat, call: Call)
    requires MemoryOk(st.store, st.memory) && MakesReady(st, op, h, call) && NeedsApproval(call)
    ensures h in st.memory.runs
    ensures Backed(st.store, st.memory.runs[h].run, call.key, call.scope) || (call.scope in st.memory.grants && ScopeBacked(st.store, call.scope))
  {
    if op.Prepare? {
      LookReady(st.store, st.memory, h, call);
    } else {
      LoadReady(st.store, st.memory, h, call, st.clock + op.tick);
    }
  }

  /** In every history, a call that needs approval becomes ready only after a recorded approval
      of its scope fingerprint: for its own run and operation, unless a session grant covers it. */
  lemma ReadyOnlyWhenApproved(ops: seq<Op>, op: Op, h: nat, call: Call)
    requires MakesReady(After(ops), op, h, call) && NeedsApproval(call)
    ensures Allowed(After(ops).store, After(ops).memory, h, call)
  {
    AfterInv(ops);
    ReadyBacked(After(ops), op, h, call);
    BackedAllows(After(ops).store, After(ops).memory, h, call);
  }

  /** At most one record per execution and operation. */
  lemma OneRecord(ops: seq<Op>, id: Id, other: Id)
    requires var s := After(ops).store;
             && id in s.approvals && other in s.approvals && !Blank(s.approvals[id].execution)
             && s.approvals[id].execution == s.approvals[other].execution && s.approvals[id].operation == s.approvals[other].operation
    ensures id == other
  {
    AfterInv(ops);
    var s := After(ops).store;
    assert RecordOk(id, s.approvals[id], s.next) && RecordOk(other, s.approvals[other], s.next);
  }

  /** The journal decides an approval at most once, exactly when its record is decided, and as
      the record says. */
  lemma DecidedOnce(ops: seq<Op>)
    ensures var s := After(ops).store;
            && (forall i, j :: 0 <= i < j < |s.events| ==> s.events[i].id != s.events[j].id)
            && (forall id :: id in s.approvals ==>
                  (s.approvals[id].status != Pending <==> exists i :: 0 <= i < |s.events| && s.events[i].id == id))
            && (forall i :: 0 <= i < |s.events| ==> EventOk(s, s.events[i]))
  {
    AfterInv(ops);
    var s := After(ops).store;
    assert forall i :: 0 <= i < |s.events| ==> EventOk(s, s.events[i]);
  }

  /** A decision is final. */
  lemma DecidedForever(ops: seq<Op>, more: seq<Op>, id: Id)
    requires id in After(ops).store.approvals && After(ops).store.approvals[id].status != Pending
    ensures id in After(ops + more).store.approvals && After(ops + more).store.approvals[id] == After(ops).store.approvals[id]
  {
    HistoryGrows(ops, more);
  }

  /** Until its expiry passes, the resume token is pending exactly while the approval is. */
  lemma TokenPendingExactly(ops: seq<Op>, id: Id)
    requires id in After(ops).store.approvals && After(ops).clock <= After(ops).store.approvals[id].expires
    ensures id in After(ops).store.tokens
    ensures After(ops).store.tokens[id].pending <==> After(ops).store.approvals[id].status == Pending
  {
    AfterInv(ops);
    var s := After(ops).store;
    assert TokenOk(id, s.approvals[id], s.tokens[id], After(ops).clock);
  }

  /** A decision consumes the token exactly when the token has not expired: expired tokens are not
      listed, and the decision itself does not look at the expiry. */
  lemma TokenAfterDecision(ops: seq<Op>, id: Id, run: Name, approved: bool, listed: int)
    requires Decide(After(ops).store, id, run, approved, listed).Some?
    ensures var t := Decide(After(ops).store, id, run, approved, listed).value;
            && id in t.approvals && id in t.tokens && t.approvals[id].status != Pending
            && (t.tokens[id].pending <==> t.approvals[id].expires < listed)
  {
    AfterInv(ops);
    var s := After(ops).store;
    assert TokenOk(id, s.approvals[id], s.tokens[id], After(ops).clock);
  }

  /** In every history, the resume token of an approval is pending exactly while the approval is, or
      when the approval was decided after its expiry. */
  lemma TokenPendingHistory(ops: seq<Op>, id: Id)
    requires id in After(ops).store.approvals
    ensures var s := After(ops).store;
            && id in s.tokens
            && (s.tokens[id].pending <==>
                s.approvals[id].status == Pending || exists i :: 0 <= i < |s.events| && s.events[i].id == id && s.approvals[id].expires < s.events[i].at)
  {
    AfterInv(ops);
    var s := After(ops).store;
    assert TokenOk(id, s.approvals[id], s.tokens[id], After(ops).clock);
    if s.approvals[id].status != Pending {
      var i :| 0 <= i < |s.events| && s.events[i].id == id;
      assert forall j :: 0 <= j < |s.events| && s.events[j].id == id ==> EventOk(s, s.events[j]);
    }
  }

  /** A decision outlives the process: whatever happens after it, restarts included, the next
      lookup for the same operation answers with it. */
  lemma DecisionRecalled(ops: seq<Op>, more: seq<Op>, h: nat, call: Call, now: int)
    requires h in After(ops + more).memory.runs
    requires var r := After(ops + more).memory.runs[h];
             var id := DerivedId(r.execution, call.key);
             && !Blank(r.execution) && !Blank(call.key) && id in After(ops).store.approvals
             && var a := After(ops).store.approvals[id];
                   a.status != Pending && a.run == r.run && a.task == r.task && a.action == call.key && a.execution == r.execution && a.scope == call.scope
    ensures var st := After(ops + more);
            Load(st.store, st.memory, h, call, now) ==
            (st.memory, if After(ops).store.approvals[DerivedId(st.memory.runs[h].execution, call.key)].status == Approved then Ready else Refused)
  {
    var st := After(ops + more);
    var id := DerivedId(st.memory.runs[h].execution, call.key);
    HistoryGrows(ops, more);
    AfterInv(ops + more);
    assert RecordOk(id, st.store.approvals[id], st.store.next);
    assert TokenOk(id, st.store.approvals[id], st.store.tokens[id], st.clock);
  }

  /** An operation that waits becomes ready once its approval is granted. */
  lemma GrantedBecomesReady(st: State, f: nat, g: nat, h: nat, call: Call, mode: Mode, decider: Name, tick: nat)
    requires Inv(st) && h in st.memory.runs && call.key in st.memory.runs[h].pending
    requires var held := st.memory.runs[h].pending[call.key];
             held.scope == call.scope && st.store.approvals[held.id].status == Pending
    requires !Blank(decider) && !call.invalid && !call.blocked && mode != Denied
    ensures var decided := Step(st, ResolveLive(f, h, call.key, mode, decider, tick)).0;
            Step(Step(decided, Finish(f)).0, Prepare(g, h, call)).1 == Ready
  {
    assert RunOk(st.store, st.memory.runs[h]);
    var held := st.memory.runs[h].pending[call.key];
    assert Owned(st.store, st.memory.runs[h].run, call.key, held);
    DecisionFlies(st, f, h, call.key, mode, decider, tick);
    SettledStep(Step(st, ResolveLive(f, h, call.key, mode, decider, tick)).0, f, g, h, call, held, mode);
  }

  lemma DecisionFlies(st: State, f: nat, h: nat, key: Name, mode: Mode, decider: Name, tick: nat)
    requires h in st.memory.runs && key in st.memory.runs[h].pending && !Blank(decider)
    requires var held := st.memory.runs[h].pending[key];
             held.id in st.store.approvals && st.store.approvals[held.id].run == st.memory.runs[h].run && st.store.approvals[held.id].status == Pending
    ensures var decided := Step(st, ResolveLive(f, h, key, mode, decider, tick)).0;
            decided.memory == st.memory && f in decided.flights && decided.flights[f] == Settling(h, key, st.memory.runs[h].pending[key], mode)
  {
  }

  lemma SettledStep(st: State, f: nat, g: nat, h: nat, call: Call, held: Held, mode: Mode)
    requires f in st.flights && st.flights[f] == Settling(h, call.key, held, mode)
    requires h in st.memory.runs && held.scope == call.scope && mode != Denied && !call.invalid && !call.blocked
    ensures Step(Step(st, Finish(f)).0, Prepare(g, h, call)).1 == Ready
  {
    SettledReady(st.memory, h, call, held, mode);
  }

  lemma SettledReady(m: Memory, h: nat, call: Call, held: Held, mode: Mode)
    requires h in m.runs && held.scope == call.scope && mode != Denied && !call.invalid && !call.blocked
    ensures Look(Settle(m, Settling(h, call.key, held, mode)), h, call).1 == Ready
  {
  }

  lemma AfterStep(ops: seq<Op>, op: Op)
    ensures After(ops + [op]) == Step(After(ops), op).0
  {
    assert (ops + [op])[..|ops|] == ops;
  }

  const SAMPLE: Call := Call(Name("k"), Name("s"), Policy(true, false, Read, false, false), false, false, false)
  const IDLE: Run := Run(Name("r"), Name("t"), UNSET, map[], map[])

  const BEGUN: State := START.(memory := START.memory.(runs := map[0 := IDLE]))

  lemma SampleStarts() returns (ops: seq<Op>)
    ensures After(ops) == BEGUN
  {
    AfterStep([], Start(0, Name("r"), Name("t"), UNSET));
    ops := [] + [Start(0, Name("r"), Name("t"), UNSET)];
    assert After([]) == START;
  }

  lemma SamplePrepares() returns (ops: seq<Op>)
    ensures After(ops) == BEGUN.(flights := map[0 := Loading(0, SAMPLE)])
  {
    var starts := SampleStarts();
    AfterStep(starts, Prepare(0, 0, SAMPLE));
    ops := starts + [Prepare(0, 0, SAMPLE)];
    assert NeedsApproval(SAMPLE);
    assert OnceFor(IDLE, SAMPLE.key) != SAMPLE.scope by { assert UNSET.text != SAMPLE.scope.text; }
    assert Look(BEGUN.memory, 0, SAMPLE) == (BEGUN.memory, Continue(Loading(0, SAMPLE)));
  }

  lemma SampleAsks() returns (ops: seq<Op>)
    ensures After(ops) == BEGUN.(flights := map[0 := Requesting(0, SAMPLE)])
  {
    var prepares := SamplePrepares();
    AfterStep(prepares, LoadDurable(0, 0));
    ops := prepares + [LoadDurable(0, 0)];
    assert Blank(IDLE.execution);
  }

  lemma SampleWaits() returns (ops: seq<Op>)
    ensures var st := After(ops);
            && st.clock == 0 && st.memory.runs == map[0 := IDLE.(pending := map[Name("k") := Held(Fresh(0), Name("s"))])]
            && st.store.approvals == map[Fresh(0) := Approval(Name("r"), Name("t"), Name("k"), UNSET, Name("k"), Name("s"), LIFETIME, Pending)]
  {
    var asks := SampleAsks();
    AfterStep(asks, RequestDurable(0, 0));
    ops := asks + [RequestDurable(0, 0)];
    assert Blank(IDLE.execution);
  }

  /** A history that leaves a decided approval with a pending token: the decision comes after
      the expiry. */
  lemma LateDecisionLeavesToken() returns (ops: seq<Op>, id: Id)
    ensures id in After(ops).store.approvals && id in After(ops).store.tokens
    ensures After(ops).store.approvals[id].status == Approved && After(ops).store.tokens[id].pending
  {
    var waits := SampleWaits();
    var op := ResolveLive(0, 0, Name("k"), Once, Name("user"), LIFETIME + 1);
    AfterStep(waits, op);
    id, ops := Fresh(0), waits + [op];
    assert !Blank(Name("user")) by { assert !IsSpace("user"[0]) && !IsSpace("user"[3]); }
    TokenAfterDecision(waits, Fresh(0), Name("r"), true, LIFETIME + 1);
  }
}

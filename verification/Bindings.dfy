/** Execution bindings under compare-and-swap: the steps of starting, sealing, finishing, releasing
    and cancelling an execution, in any interleaving. Execution ids and profile digests are only
    compared, so numbers stand for them. */
module Bindings {
  import opened Common

  datatype Phase = Pending | Running | Suspended | ReconcileRequired | Completed | Failed | Cancelled

  datatype Binding = Binding(phase: Phase, version: nat, profile: nat, isSealed: bool)

  type Store = map<nat, Binding>

  /** SaveExecutionBinding: compare-and-swap on the version; after the start the manifest is fixed. */
  function Save(s: Store, id: nat, b: Binding, expected: nat): Option<Store> {
    if id !in s then
      if expected != 0 then None else Some(s[id := b.(version := 1)])
    else if s[id].version != expected then None
    else if s[id].phase != Pending && (b.profile != s[id].profile || b.isSealed != s[id].isSealed) then None
    else Some(s[id := b.(version := expected + 1)])
  }

  function VersionOf(s: Store, id: nat): nat { if id in s then s[id].version else 0 }

  // ---------------------------------------------------------------- what an execution ends in

  datatype RuntimeError = NoError | SuspendedError | ReconcileError | OtherError

  datatype Ending = Ending(error: RuntimeError, releaseFails: bool, failure: bool, completionFails: bool)

  function EndPhase(e: Ending, cancelled: bool): Phase {
    if cancelled then Cancelled
    else if e.error == SuspendedError then Suspended
    else if e.error == ReconcileError then ReconcileRequired
    else if e.error == OtherError then Suspended
    else if e.releaseFails then ReconcileRequired
    else if e.completionFails then ReconcileRequired
    else if e.failure then Failed
    else Completed
  }

  // ---------------------------------------------------------------- actors

  /** Where a caller stands between two accesses to the store. `since` is the binding's version
      when a finish began, `tries` the attempts it has used up. */
  datatype Actor =
    | Loaded(id: nat, snap: Binding)
    | Working(id: nat, prior: Phase)
    | Finishing(id: nat, target: Phase, tries: nat, since: nat)
    | Swapping(id: nat, target: Phase, tries: nat, since: nat, snap: Binding)
    | Sealing(id: nat, snap: Binding, profile: nat)
    | Reconciling(id: nat, snap: Binding)
    | Returned(id: nat, outcome: Outcome, since: nat)

  datatype Outcome = Settled | Conflict | Missing

  datatype State = State(store: Store, actors: map<nat, Actor>)

  datatype Op =
    | Create(id: nat, profile: nat)
    | ExecuteLoad(a: nat, id: nat)
    | ExecuteClaim(a: nat)
    | ExecuteEnd(a: nat, ending: Ending, unreadable: bool)
    | SealLoad(a: nat, id: nat, profile: nat, valid: bool)
    | SealSave(a: nat)
    | Finish(a: nat, id: nat, target: Phase)
    | CancelById(a: nat, id: nat)
    | FinishLoad(a: nat)
    | FinishSave(a: nat)
    | ReconcileLoad(a: nat, id: nat)
    | ReconcileSave(a: nat)

  const ATTEMPTS: nat := 3

  function Become(st: State, a: nat, actor: Actor): State { st.(actors := st.actors[a := actor]) }

  function Leave(st: State, a: nat): State { st.(actors := st.actors - {a}) }

  function Begin(st: State, a: nat, id: nat, target: Phase): State {
    Become(st, a, Finishing(id, target, 0, VersionOf(st.store, id)))
  }

  /** ExecuteRun up to the claim of resources: cancelled and reconciling bindings are answered at once. */
  function LoadForExecution(st: State, a: nat, id: nat): State {
    if id !in st.store then st
    else
      var b := st.store[id];
      if b.phase == Cancelled || b.phase == ReconcileRequired || !b.isSealed then st
      else if b.phase == Completed || b.phase == Failed then Become(st, a, Working(id, b.phase))
      else Become(st, a, Loaded(id, b))
  }

  function Claim(st: State, a: nat, id: nat, snap: Binding): State {
    match Save(st.store, id, snap.(phase := Running), snap.version)
    case None => Leave(st, a)
    case Some(store) => Become(st.(store := store), a, Working(id, snap.phase))
  }

  /** After the runtime returns: an error makes ExecuteRun look for a cancellation first. */
  function End(st: State, a: nat, id: nat, ending: Ending, unreadable: bool): State {
    var cancelled := ending.error != NoError && !unreadable && id in st.store && st.store[id].phase == Cancelled;
    Begin(st, a, id, EndPhase(ending, cancelled))
  }

  function LoadForSeal(st: State, a: nat, id: nat, profile: nat, valid: bool): State {
    if id !in st.store || !valid || st.store[id].isSealed || st.store[id].phase != Pending then st
    else Become(st, a, Sealing(id, st.store[id], profile))
  }

  function Seal(st: State, a: nat, id: nat, snap: Binding, profile: nat): State {
    match Save(st.store, id, snap.(profile := profile, isSealed := true), snap.version)
    case None => Leave(st, a)
    case Some(store) => Leave(st.(store := store), a)
  }

  /** One turn of finishExecutionBinding, as far as its load. */
  function LoadForFinish(st: State, a: nat, id: nat, target: Phase, tries: nat, since: nat): State {
    if tries >= ATTEMPTS then Become(st, a, Returned(id, Conflict, since))
    else if id !in st.store then Become(st, a, Returned(id, Missing, since))
    else if st.store[id].phase == Cancelled || st.store[id].phase == target then Become(st, a, Returned(id, Settled, since))
    else Become(st, a, Swapping(id, target, tries, since, st.store[id]))
  }

  function Swap(st: State, a: nat, id: nat, target: Phase, tries: nat, since: nat, snap: Binding): State {
    match Save(st.store, id, snap.(phase := target), snap.version)
    case None => Become(st, a, Finishing(id, target, tries + 1, since))
    case Some(store) => Become(st.(store := store), a, Returned(id, Settled, since))
  }

  function Reconcile(st: State, a: nat, id: nat, snap: Binding): State {
    match Save(st.store, id, snap.(phase := ReconcileRequired), snap.version)
    case None => Leave(st, a)
    case Some(store) => Leave(st.(store := store), a)
  }

  function Step(st: State, op: Op): State {
    match op
    case Create(id, profile) =>
      (match Save(st.store, id, Binding(Pending, 0, profile, false), 0)
       case None => st
       case Some(store) => st.(store := store))
    case ExecuteLoad(a, id) => if a in st.actors then st else LoadForExecution(st, a, id)
    case ExecuteClaim(a) =>
      if a in st.actors && st.actors[a].Loaded? then Claim(st, a, st.actors[a].id, st.actors[a].snap) else st
    case ExecuteEnd(a, ending, unreadable) =>
      if a in st.actors && st.actors[a].Working? then End(st, a, st.actors[a].id, ending, unreadable) else st
    case SealLoad(a, id, profile, valid) => if a in st.actors then st else LoadForSeal(st, a, id, profile, valid)
    case SealSave(a) =>
      if a in st.actors && st.actors[a].Sealing? then Seal(st, a, st.actors[a].id, st.actors[a].snap, st.actors[a].profile) else st
    case Finish(a, id, target) => if a in st.actors || target == Pending then st else Begin(st, a, id, target)
    case CancelById(a, id) =>
      if a in st.actors || id !in st.store || st.store[id].phase in {Completed, Failed, Cancelled} then st
      else Begin(st, a, id, Cancelled)
    case FinishLoad(a) =>
      if a in st.actors && st.actors[a].Finishing?
      then LoadForFinish(st, a, st.actors[a].id, st.actors[a].target, st.actors[a].tries, st.actors[a].since) else st
    case FinishSave(a) =>
      if a in st.actors && st.actors[a].Swapping?
      then Swap(st, a, st.actors[a].id, st.actors[a].target, st.actors[a].tries, st.actors[a].since, st.actors[a].snap) else st
    case ReconcileLoad(a, id) =>
      if a in st.actors || id !in st.store then st else Become(st, a, Reconciling(id, st.store[id]))
    case ReconcileSave(a) =>
      if a in st.actors && st.actors[a].Reconciling? then Reconcile(st, a, st.actors[a].id, st.actors[a].snap) else st
  }

  function After(ops: seq<Op>): State {
    if ops == [] then State(map[], map[]) else Step(After(ops[..|ops| - 1]), ops[|ops| - 1])
  }

  // ---------------------------------------------------------------- what every step keeps

  /** A snapshot is an earlier value of its binding; with the current version it is the current value. */
  ghost predicate SnapOk(s: Store, id: nat, snap: Binding) {
    id in s && 0 < snap.version <= s[id].version && (snap.version == s[id].version ==> snap == s[id])
  }

  ghost predicate ActorOk(s: Store, actor: Actor) {
    match actor
    case Loaded(id, snap) => SnapOk(s, id, snap) && snap.isSealed && snap.phase in {Pending, Running, Suspended}
    case Working(id, _) => id in s
    case Finishing(id, target, tries, since) =>
      tries <= ATTEMPTS && since + tries <= VersionOf(s, id) && target != Pending
    case Swapping(id, target, tries, since, snap) =>
      SnapOk(s, id, snap) && tries < ATTEMPTS && since + tries <= snap.version && snap.phase != Cancelled && target != Pending
    case Sealing(id, snap, _) => SnapOk(s, id, snap) && snap.phase == Pending && !snap.isSealed
    case Reconciling(id, snap) => SnapOk(s, id, snap)
    case Returned(id, outcome, since) => outcome == Conflict ==> since + ATTEMPTS <= VersionOf(s, id)
  }

  ghost predicate Inv(st: State) {
    && (forall id :: id in st.store ==> st.store[id].version > 0)
    && (forall a :: a in st.actors ==> ActorOk(st.store, st.actors[a]))
  }

  /** What any other caller may see happen: no binding disappears, every write moves its version
      on, a fixed manifest stays, and a cancelled binding stays cancelled. */
  ghost predicate Evolves(s: Store, t: Store) {
    forall id :: id in s ==>
      && id in t && s[id].version <= t[id].version && (s[id].version == t[id].version ==> s[id] == t[id])
      && (s[id].phase != Pending ==> t[id].phase != Pending)
      && (s[id].isSealed || s[id].phase != Pending ==> t[id].profile == s[id].profile && t[id].isSealed == s[id].isSealed)
  }

  ghost predicate Latched(s: Store, t: Store) {
    forall id :: id in s && s[id].phase == Cancelled ==> id in t && t[id].phase == Cancelled
  }

  lemma ActorEvolves(s: Store, t: Store, actor: Actor)
    requires Evolves(s, t) && ActorOk(s, actor)
    ensures ActorOk(t, actor)
  {
  }

  /** One actor moves on while the store evolves. */
  ghost predicate Kept(st: State, after: State) { Inv(after) && Evolves(st.store, after.store) }

  lemma MovesOn(st: State, store: Store, a: nat, actor: Actor)
    requires Inv(st) && Evolves(st.store, store) && ActorOk(store, actor)
    requires forall id :: id in store ==> store[id].version > 0
    ensures Kept(st, State(store, st.actors[a := actor])) && Kept(st, State(store, st.actors - {a})) && Kept(st, st.(store := store))
  {
    forall x | x in st.actors ensures ActorOk(store, st.actors[x]) {
      ActorEvolves(st.store, store, st.actors[x]);
    }
  }

  lemma Unmoved(s: Store)
    ensures Evolves(s, s) && Latched(s, s)
  {
  }

  /** A save from a good snapshot evolves the store; it latches unless it revives a cancelled binding. */
  lemma SaveEvolves(s: Store, id: nat, snap: Binding, b: Binding)
    requires SnapOk(s, id, snap) && Save(s, id, b, snap.version).Some?
    requires snap.isSealed || snap.phase != Pending ==> b.profile == snap.profile && b.isSealed == snap.isSealed
    requires snap.phase != Pending ==> b.phase != Pending
    ensures Evolves(s, Save(s, id, b, snap.version).value)
    ensures s[id] == snap
    ensures (snap.phase == Cancelled ==> b.phase == Cancelled) <==> Latched(s, Save(s, id, b, snap.version).value)
  {
  }

  lemma SaveRefused(s: Store, id: nat, snap: Binding, b: Binding)
    requires SnapOk(s, id, snap) && b.profile == snap.profile && b.isSealed == snap.isSealed
    ensures Save(s, id, b, snap.version).None? <==> snap.version < s[id].version
  {
  }

  lemma SavesBy(st: State, a: nat, id: nat, snap: Binding, b: Binding, actor: Actor)
    requires Inv(st) && SnapOk(st.store, id, snap) && (actor.Working? || (actor.Returned? && actor.outcome == Settled)) && actor.id == id
    requires snap.isSealed || snap.phase != Pending ==> b.profile == snap.profile && b.isSealed == snap.isSealed
    requires snap.phase != Pending ==> b.phase != Pending
    ensures var saved := Save(st.store, id, b, snap.version);
            saved.Some? ==> Kept(st, State(saved.value, st.actors[a := actor])) && Kept(st, State(saved.value, st.actors - {a}))
                            && ((snap.phase == Cancelled ==> b.phase == Cancelled) <==> Latched(st.store, saved.value))
  {
    var saved := Save(st.store, id, b, snap.version);
    if saved.Some? {
      SaveEvolves(st.store, id, snap, b);
      MovesOn(st, saved.value, a, actor);
    }
  }

  ghost predicate Quiet(st: State, after: State) { Kept(st, after) && Latched(st.store, after.store) }

  lemma ClaimKeeps(st: State, a: nat, id: nat, snap: Binding)
    requires Inv(st) && ActorOk(st.store, Loaded(id, snap))
    ensures Quiet(st, Claim(st, a, id, snap))
  {
    Unmoved(st.store);
    MovesOn(st, st.store, a, Working(id, Pending));
    SavesBy(st, a, id, snap, snap.(phase := Running), Working(id, snap.phase));
  }

  lemma SealKeeps(st: State, a: nat, id: nat, snap: Binding, profile: nat)
    requires Inv(st) && ActorOk(st.store, Sealing(id, snap, profile))
    ensures Quiet(st, Seal(st, a, id, snap, profile))
  {
    Unmoved(st.store);
    MovesOn(st, st.store, a, Working(id, Pending));
    SavesBy(st, a, id, snap, snap.(profile := profile, isSealed := true), Working(id, Pending));
  }

  lemma SwapKeeps(st: State, a: nat, id: nat, target: Phase, tries: nat, since: nat, snap: Binding)
    requires Inv(st) && ActorOk(st.store, Swapping(id, target, tries, since, snap))
    ensures Quiet(st, Swap(st, a, id, target, tries, since, snap))
  {
    Unmoved(st.store);
    SaveRefused(st.store, id, snap, snap.(phase := target));
    SavesBy(st, a, id, snap, snap.(phase := target), Returned(id, Settled, since));
    if snap.version < st.store[id].version {
      MovesOn(st, st.store, a, Finishing(id, target, tries + 1, since));
    }
  }

  lemma ReconcileKeeps(st: State, a: nat, id: nat, snap: Binding)
    requires Inv(st) && ActorOk(st.store, Reconciling(id, snap))
    ensures Kept(st, Reconcile(st, a, id, snap))
  {
    Unmoved(st.store);
    MovesOn(st, st.store, a, Working(id, Pending));
    SavesBy(st, a, id, snap, snap.(phase := ReconcileRequired), Working(id, Pending));
  }

  lemma BeginKeeps(st: State, a: nat, id: nat, target: Phase)
    requires Inv(st) && target != Pending
    ensures Quiet(st, Begin(st, a, id, target))
  {
    Unmoved(st.store);
    MovesOn(st, st.store, a, Finishing(id, target, 0, VersionOf(st.store, id)));
  }

  lemma LoadsKeep(st: State, a: nat, id: nat)
    requires Inv(st)
    ensures Quiet(st, LoadForExecution(st, a, id))
    ensures forall profile, valid :: Quiet(st, LoadForSeal(st, a, id, profile, valid))
    ensures id in st.store ==> Quiet(st, Become(st, a, Reconciling(id, st.store[id])))
  {
    Unmoved(st.store);
    if id in st.store {
      var b := st.store[id];
      if b.isSealed && b.phase in {Pending, Running, Suspended} { MovesOn(st, st.store, a, Loaded(id, b)); }
      MovesOn(st, st.store, a, Working(id, b.phase));
      MovesOn(st, st.store, a, Reconciling(id, b));
      if b.phase == Pending && !b.isSealed {
        forall profile { MovesOn(st, st.store, a, Sealing(id, b, profile)); }
      }
    }
  }

  lemma FinishLoadKeeps(st: State, a: nat, id: nat, target: Phase, tries: nat, since: nat)
    requires Inv(st) && ActorOk(st.store, Finishing(id, target, tries, since))
    ensures Quiet(st, LoadForFinish(st, a, id, target, tries, since))
  {
    Unmoved(st.store);
    MovesOn(st, st.store, a, Returned(id, Settled, since));
    MovesOn(st, st.store, a, Returned(id, Missing, since));
    if tries >= ATTEMPTS {
      MovesOn(st, st.store, a, Returned(id, Conflict, since));
    } else if id in st.store && st.store[id].phase != Cancelled {
      MovesOn(st, st.store, a, Swapping(id, target, tries, since, st.store[id]));
    }
  }

  lemma CreateKeeps(st: State, id: nat, profile: nat)
    requires Inv(st)
    ensures Quiet(st, Step(st, Create(id, profile)))
  {
    Unmoved(st.store);
    if id !in st.store {
      var store := st.store[id := Binding(Pending, 1, profile, false)];
      MovesOn(st, store, 0, Working(id, Pending));
    }
  }

  /** Every step keeps the invariant; every step but the reconciliation's write keeps cancelled
      bindings cancelled. */
  lemma ExecutionKeeps(st: State, op: Op)
    requires Inv(st) && (op.ExecuteLoad? || op.ExecuteClaim? || op.ExecuteEnd?)
    ensures Quiet(st, Step(st, op))
  {
    Unmoved(st.store);
    match op
    case ExecuteLoad(a, id) => LoadsKeep(st, a, id);
    case ExecuteClaim(a) =>
      if a in st.actors && st.actors[a].Loaded? { ClaimKeeps(st, a, st.actors[a].id, st.actors[a].snap); }
    case ExecuteEnd(a, ending, unreadable) =>
      if a in st.actors && st.actors[a].Working? {
        var id := st.actors[a].id;
        BeginKeeps(st, a, id, EndPhase(ending, ending.error != NoError && !unreadable && id in st.store && st.store[id].phase == Cancelled));
      }
  }

  lemma FinishKeeps(st: State, op: Op)
    requires Inv(st) && (op.Finish? || op.CancelById? || op.FinishLoad? || op.FinishSave?)
    ensures Quiet(st, Step(st, op))
  {
    Unmoved(st.store);
    match op
    case Finish(a, id, target) => if target != Pending { BeginKeeps(st, a, id, target); }
    case CancelById(a, id) => BeginKeeps(st, a, id, Cancelled);
    case FinishLoad(a) =>
      if a in st.actors && st.actors[a].Finishing? {
        FinishLoadKeeps(st, a, st.actors[a].id, st.actors[a].target, st.actors[a].tries, st.actors[a].since);
      }
    case FinishSave(a) =>
      if a in st.actors && st.actors[a].Swapping? {
        SwapKeeps(st, a, st.actors[a].id, st.actors[a].target, st.actors[a].tries, st.actors[a].since, st.actors[a].snap);
      }
  }

  lemma StepKeeps(st: State, op: Op)
    requires Inv(st)
    ensures Kept(st, Step(st, op))
    ensures !op.ReconcileSave? ==> Latched(st.store, Step(st, op).store)
  {
    Unmoved(st.store);
    match op
    case Create(id, profile) => CreateKeeps(st, id, profile);
    case SealLoad(a, id, profile, valid) => LoadsKeep(st, a, id);
    case SealSave(a) =>
      if a in st.actors && st.actors[a].Sealing? { SealKeeps(st, a, st.actors[a].id, st.actors[a].snap, st.actors[a].profile); }
    case ReconcileLoad(a, id) => LoadsKeep(st, a, id);
    case ReconcileSave(a) =>
      if a in st.actors && st.actors[a].Reconciling? { ReconcileKeeps(st, a, st.actors[a].id, st.actors[a].snap); }
    case _ => if op.Finish? || op.CancelById? || op.FinishLoad? || op.FinishSave? { FinishKeeps(st, op); } else { ExecutionKeeps(st, op); }
  }

  // ---------------------------------------------------------------- every interleaving

  lemma {:induction false} AfterInv(ops: seq<Op>)
    ensures Inv(After(ops))
  {
    if ops != [] {
      AfterInv(ops[..|ops| - 1]);
      StepKeeps(After(ops[..|ops| - 1]), ops[|ops| - 1]);
    }
  }

  lemma EvolvesTransitive(s: Store, t: Store, u: Store)
    requires Evolves(s, t) && Evolves(t, u)
    ensures Evolves(s, u)
  {
  }

  lemma AfterStep(ops: seq<Op>, op: Op)
    ensures After(ops + [op]) == Step(After(ops), op)
  {
    assert (ops + [op])[..|ops|] == ops;
  }

  /** Versions only grow, one version has one value, and a sealed or started profile is final. */
  lemma {:induction false} HistoryEvolves(ops: seq<Op>, more: seq<Op>)
    ensures Evolves(After(ops).store, After(ops + more).store)
  {
    if more == [] {
      assert ops + more == ops;
      Unmoved(After(ops).store);
    } else {
      var init, last := more[..|more| - 1], more[|more| - 1];
      HistoryEvolves(ops, init);
      AfterInv(ops + init);
      StepKeeps(After(ops + init), last);
      assert ops + more == (ops + init) + [last];
      AfterStep(ops + init, last);
      EvolvesTransitive(After(ops).store, After(ops + init).store, After(ops + more).store);
    }
  }

  /** A binding that is cancelled stays cancelled, whatever starts, seals, finishes, releases and
      cancels follow, in any order and from whatever they had read before. */
  lemma {:induction false} CancelledForever(ops: seq<Op>, more: seq<Op>, id: nat)
    requires id in After(ops).store && After(ops).store[id].phase == Cancelled
    requires forall i :: 0 <= i < |more| ==> !more[i].ReconcileSave?
    ensures id in After(ops + more).store && After(ops + more).store[id].phase == Cancelled
  {
    if more == [] {
      assert ops + more == ops;
    } else {
      var init, last := more[..|more| - 1], more[|more| - 1];
      assert forall i :: 0 <= i < |init| ==> init[i] == more[i];
      CancelledForever(ops, init, id);
      assert ops + more == (ops + init) + [last];
      CancelledStays(ops + init, last, id);
    }
  }

  lemma CancelledStays(ops: seq<Op>, op: Op, id: nat)
    requires id in After(ops).store && After(ops).store[id].phase == Cancelled && !op.ReconcileSave?
    ensures id in After(ops + [op]).store && After(ops + [op]).store[id].phase == Cancelled
  {
    AfterInv(ops);
    StepKeeps(After(ops), op);
    AfterStep(ops, op);
  }

  /** A cancelled binding is revived exactly by a reconciliation that read it in its current version. */
  lemma RevivedExactly(ops: seq<Op>, op: Op, id: nat)
    requires id in After(ops).store && After(ops).store[id].phase == Cancelled
    ensures var st := After(ops);
            id in Step(st, op).store &&
            (Step(st, op).store[id].phase != Cancelled <==>
             op.ReconcileSave? && op.a in st.actors && st.actors[op.a] == Reconciling(id, st.store[id]))
  {
    AfterInv(ops);
    StepKeeps(After(ops), op);
    var st := After(ops);
    if op.ReconcileSave? && op.a in st.actors && st.actors[op.a].Reconciling? {
      assert ActorOk(st.store, st.actors[op.a]);
    }
  }

  /** A finish gives up only after its binding was written three times since it began. */
  lemma ConflictNeedsThreeWrites(ops: seq<Op>, a: nat)
    requires a in After(ops).actors && After(ops).actors[a].Returned? && After(ops).actors[a].outcome == Conflict
    ensures After(ops).actors[a].id in After(ops).store
    ensures After(ops).actors[a].since + 3 <= After(ops).store[After(ops).actors[a].id].version
  {
    AfterInv(ops);
    assert ActorOk(After(ops).store, After(ops).actors[a]);
  }

  /** What becomes of an execution's end: it keeps aiming for the phase its ending decided until it returns. */
  lemma {:induction false} EndKeepsAim(ops: seq<Op>, a: nat, id: nat, target: Phase, more: seq<Op>)
    requires a in After(ops).actors && Aims(After(ops).actors[a], id, target)
    ensures a in After(ops + more).actors
    ensures Aims(After(ops + more).actors[a], id, target) || After(ops + more).actors[a].Returned?
  {
    if more == [] {
      assert ops + more == ops;
    } else {
      var init, last := more[..|more| - 1], more[|more| - 1];
      EndKeepsAim(ops, a, id, target, init);
      assert ops + more == (ops + init) + [last];
      AfterStep(ops + init, last);
      StepAims(After(ops + init), last, a, id, target);
    }
  }

  lemma StepAims(st: State, op: Op, a: nat, id: nat, target: Phase)
    requires a in st.actors && (Aims(st.actors[a], id, target) || st.actors[a].Returned?)
    ensures a in Step(st, op).actors && (Aims(Step(st, op).actors[a], id, target) || Step(st, op).actors[a].Returned?)
  {
  }

  ghost function CancelSeen(st: State, id: nat, ending: Ending, unreadable: bool): bool {
    ending.error != NoError && !unreadable && id in st.store && st.store[id].phase == Cancelled
  }

  lemma EndAims(ops: seq<Op>, a: nat, id: nat, prior: Phase, ending: Ending, unreadable: bool)
    requires a in After(ops).actors && After(ops).actors[a] == Working(id, prior)
    ensures var ended := ops + [ExecuteEnd(a, ending, unreadable)];
            a in After(ended).actors && Aims(After(ended).actors[a], id, EndPhase(ending, CancelSeen(After(ops), id, ending, unreadable)))
  {
    AfterStep(ops, ExecuteEnd(a, ending, unreadable));
  }

  /** Main theorem: whatever happens between an execution's end and the report that it was recorded, the
      binding is then cancelled or in the phase its ending calls for. A suspension, or an error without a
      name, suspends it; the runtime asking for reconciliation, claims that were not released or a
      completion that was not saved require reconciliation; a failure fails it; otherwise it is completed.
      A cancellation seen when an error was reported makes it cancelled. */
  lemma EndsExactly(ops: seq<Op>, a: nat, prior: Phase, id: nat, ending: Ending, unreadable: bool, more: seq<Op>, op: Op)
    requires a in After(ops).actors && After(ops).actors[a] == Working(id, prior)
    requires var before := After(ops + [ExecuteEnd(a, ending, unreadable)] + more);
             && a in before.actors && !before.actors[a].Returned?
             && a in Step(before, op).actors && Step(before, op).actors[a].Returned? && Step(before, op).actors[a].outcome == Settled
    ensures var seen, after := After(ops).store, Step(After(ops + [ExecuteEnd(a, ending, unreadable)] + more), op).store;
            && id in after
            && (ending.error != NoError && !unreadable && id in seen && seen[id].phase == Cancelled ==> after[id].phase == Cancelled)
            && (after[id].phase != Cancelled ==>
                  && (ending.error in {SuspendedError, OtherError} ==> after[id].phase == Suspended)
                  && (ending.error == ReconcileError ==> after[id].phase == ReconcileRequired)
                  && (ending.error == NoError && (ending.releaseFails || ending.completionFails) ==> after[id].phase == ReconcileRequired)
                  && (ending.error == NoError && !ending.releaseFails && !ending.completionFails && ending.failure ==> after[id].phase == Failed)
                  && (ending.error == NoError && !ending.releaseFails && !ending.completionFails && !ending.failure ==> after[id].phase == Completed))
  {
    var ended := ops + [ExecuteEnd(a, ending, unreadable)];
    var target := EndPhase(ending, CancelSeen(After(ops), id, ending, unreadable));
    EndAims(ops, a, id, prior, ending, unreadable);
    EndKeepsAim(ended, a, id, target, more);
    SettledMeans(ended + more, op, a, id, target);
  }

  // ---------------------------------------------------------------- what one caller achieves

  /** A sealed binding is taken up for execution again and again until it is cancelled or needs
      reconciliation: one that has ended is replayed, any other is loaded as it is. Nothing else is. */
  lemma TakenUp(ops: seq<Op>, a: nat, id: nat)
    requires a !in After(ops).actors
    ensures var st, next := After(ops), After(ops + [ExecuteLoad(a, id)]);
            && next.store == st.store
            && (id in st.store && st.store[id].isSealed && st.store[id].phase in {Pending, Running, Suspended} ==>
                  next.actors == st.actors[a := Loaded(id, st.store[id])])
            && (id in st.store && st.store[id].isSealed && st.store[id].phase in {Completed, Failed} ==>
                  next.actors == st.actors[a := Working(id, st.store[id].phase)])
            && (id !in st.store || !st.store[id].isSealed || st.store[id].phase in {Cancelled, ReconcileRequired} ==>
                  next.actors == st.actors)
  {
    AfterStep(ops, ExecuteLoad(a, id));
  }

  /** A claim sets its binding running when it is still as loaded, and otherwise changes nothing and gives up. */
  lemma ClaimRuns(ops: seq<Op>, a: nat, id: nat, snap: Binding)
    requires a in After(ops).actors && After(ops).actors[a] == Loaded(id, snap)
    ensures var st, next := After(ops), After(ops + [ExecuteClaim(a)]);
            && id in st.store
            && next == if st.store[id] == snap
                       then State(st.store[id := snap.(phase := Running, version := snap.version + 1)], st.actors[a := Working(id, snap.phase)])
                       else State(st.store, st.actors - {a})
  {
    AfterStep(ops, ExecuteClaim(a));
    AfterInv(ops);
    assert ActorOk(After(ops).store, Loaded(id, snap));
  }

  /** A profile is sealed when its binding is pending, unsealed and still as loaded; nothing else seals one. */
  lemma SealFixes(ops: seq<Op>, a: nat, id: nat, snap: Binding, profile: nat)
    requires a in After(ops).actors && After(ops).actors[a] == Sealing(id, snap, profile)
    ensures var st, next := After(ops), After(ops + [SealSave(a)]);
            && id in st.store && snap.phase == Pending && !snap.isSealed
            && next == if st.store[id] == snap
                       then State(st.store[id := Binding(Pending, snap.version + 1, profile, true)], st.actors - {a})
                       else State(st.store, st.actors - {a})
  {
    AfterStep(ops, SealSave(a));
    AfterInv(ops);
    assert ActorOk(After(ops).store, Sealing(id, snap, profile));
  }

  lemma SealBegins(ops: seq<Op>, a: nat, id: nat, profile: nat, valid: bool)
    requires a !in After(ops).actors
    ensures var st, next := After(ops), After(ops + [SealLoad(a, id, profile, valid)]);
            next == if valid && id in st.store && st.store[id].phase == Pending && !st.store[id].isSealed
                    then State(st.store, st.actors[a := Sealing(id, st.store[id], profile)]) else st
  {
    AfterStep(ops, SealLoad(a, id, profile, valid));
  }

  lemma OnlySealSeals(ops: seq<Op>, op: Op, id: nat)
    requires id in After(ops + [op]).store && After(ops + [op]).store[id].isSealed
    ensures (id in After(ops).store && After(ops).store[id].isSealed) || op.SealSave?
  {
    AfterStep(ops, op);
    AfterInv(ops);
    if op.ExecuteClaim? && op.a in After(ops).actors { assert ActorOk(After(ops).store, After(ops).actors[op.a]); }
    if op.FinishSave? && op.a in After(ops).actors { assert ActorOk(After(ops).store, After(ops).actors[op.a]); }
    if op.ReconcileSave? && op.a in After(ops).actors { assert ActorOk(After(ops).store, After(ops).actors[op.a]); }
  }

  /** The steps of one finish that nobody disturbs. */
  function Undisturbed(a: nat, start: Op): seq<Op> { [start, FinishLoad(a), FinishSave(a)] }

  lemma Chained(ops: seq<Op>, x: Op, y: Op, z: Op)
    ensures ops + [x, y, z] == ops + [x] + [y] + [z]
  {
  }

  lemma FinishUndisturbed(ops: seq<Op>, a: nat, start: Op, id: nat, target: Phase)
    requires id in After(ops).store && target != Pending
    requires Step(After(ops), start) == Begin(After(ops), a, id, target)
    ensures var b, after := After(ops).store[id], After(ops + Undisturbed(a, start)).store;
            && after.Keys == After(ops).store.Keys && after - {id} == After(ops).store - {id}
            && after[id] == if b.phase == Cancelled || b.phase == target then b else b.(phase := target, version := b.version + 1)
  {
    var begun, loaded := ops + [start], ops + [start] + [FinishLoad(a)];
    AfterStep(ops, start);
    AfterStep(begun, FinishLoad(a));
    AfterStep(loaded, FinishSave(a));
    Chained(ops, start, FinishLoad(a), FinishSave(a));
    UndisturbedLoad(After(begun), a, id, target);
    UndisturbedSave(After(loaded), a, id, target);
  }

  lemma UndisturbedLoad(st: State, a: nat, id: nat, target: Phase)
    requires a in st.actors && st.actors[a] == Finishing(id, target, 0, VersionOf(st.store, id)) && id in st.store
    ensures var next, b := Step(st, FinishLoad(a)), st.store[id];
            && next.store == st.store && a in next.actors
            && next.actors[a] == if b.phase == Cancelled || b.phase == target then Returned(id, Settled, b.version) else Swapping(id, target, 0, b.version, b)
  {
  }

  lemma UndisturbedSave(st: State, a: nat, id: nat, target: Phase)
    requires a in st.actors && id in st.store
    requires var b := st.store[id];
             st.actors[a] == if b.phase == Cancelled || b.phase == target then Returned(id, Settled, b.version) else Swapping(id, target, 0, b.version, b)
    ensures var b, after := st.store[id], Step(st, FinishSave(a)).store;
            && after.Keys == st.store.Keys && after - {id} == st.store - {id}
            && after[id] == if b.phase == Cancelled || b.phase == target then b else b.(phase := target, version := b.version + 1)
  {
  }

  /** A finish that nobody disturbs leaves its binding in the phase it aims for, a cancelled one cancelled. */
  lemma FinishReaches(ops: seq<Op>, a: nat, id: nat, target: Phase)
    requires a !in After(ops).actors && target != Pending && id in After(ops).store
    ensures var b, after := After(ops).store[id], After(ops + Undisturbed(a, Finish(a, id, target))).store;
            && after.Keys == After(ops).store.Keys && after - {id} == After(ops).store - {id}
            && after[id] == if b.phase == Cancelled || b.phase == target then b else b.(phase := target, version := b.version + 1)
  {
    FinishUndisturbed(ops, a, Finish(a, id, target), id, target);
  }

  lemma CancelRefused(ops: seq<Op>, a: nat, id: nat)
    requires a !in After(ops).actors && id in After(ops).store && After(ops).store[id].phase in {Completed, Failed, Cancelled}
    ensures After(ops + Undisturbed(a, CancelById(a, id))) == After(ops)
  {
    AfterStep(ops, CancelById(a, id));
    AfterStep(ops + [CancelById(a, id)], FinishLoad(a));
    AfterStep(ops + [CancelById(a, id)] + [FinishLoad(a)], FinishSave(a));
    Chained(ops, CancelById(a, id), FinishLoad(a), FinishSave(a));
  }

  /** Cancelling by identity does so to any binding that has not ended, suspended ones included, and to no other. */
  lemma CancelReaches(ops: seq<Op>, a: nat, id: nat)
    requires a !in After(ops).actors && id in After(ops).store
    ensures var b, after := After(ops).store[id], After(ops + Undisturbed(a, CancelById(a, id))).store;
            && after.Keys == After(ops).store.Keys && after - {id} == After(ops).store - {id}
            && after[id] == if b.phase in {Completed, Failed, Cancelled} then b else b.(phase := Cancelled, version := b.version + 1)
  {
    if After(ops).store[id].phase in {Completed, Failed, Cancelled} {
      CancelRefused(ops, a, id);
    } else {
      FinishUndisturbed(ops, a, CancelById(a, id), id, Cancelled);
    }
  }

  /** The phase the running finish of actor a aims for. */
  ghost predicate Aims(actor: Actor, id: nat, target: Phase) {
    (actor.Finishing? || actor.Swapping?) && actor.id == id && actor.target == target
  }

  /** A finish that reports success leaves its binding in the phase it aimed for, or cancelled. */
  lemma SettledMeans(ops: seq<Op>, op: Op, a: nat, id: nat, target: Phase)
    requires a in After(ops).actors && Aims(After(ops).actors[a], id, target)
    requires var after := Step(After(ops), op);
             a in after.actors && after.actors[a].Returned? && after.actors[a].outcome == Settled
    ensures id in Step(After(ops), op).store && Step(After(ops), op).store[id].phase in {target, Cancelled}
  {
    var st := After(ops);
    assert (op.FinishLoad? || op.FinishSave?) && op.a == a by {
      StepOthers(st, op, a);
    }
    AfterInv(ops);
    assert ActorOk(st.store, st.actors[a]);
  }

  /** A step moves only its own actor. */
  lemma StepOthers(st: State, op: Op, a: nat)
    requires a in st.actors && (st.actors[a].Finishing? || st.actors[a].Swapping?)
    ensures !((op.FinishLoad? || op.FinishSave?) && op.a == a) ==> a in Step(st, op).actors && Step(st, op).actors[a] == st.actors[a]
  {
  }

  ghost predicate HoldsSnapshot(actor: Actor, id: nat, version: nat) {
    (actor.Loaded? || actor.Swapping? || actor.Sealing? || actor.Reconciling?) && actor.id == id && actor.snap.version == version
  }

  ghost predicate IsWrite(op: Op, a: nat) {
    (op.ExecuteClaim? || op.SealSave? || op.FinishSave? || op.ReconcileSave?) && op.a == a
  }

  /** Of all callers that read one version at most one writes: later writes from it change nothing. */
  lemma StaleWritesNothing(ops: seq<Op>, more: seq<Op>, op: Op, a: nat, id: nat)
    requires id in After(ops).store && id in After(ops + more).store
    requires After(ops).store[id] != After(ops + more).store[id]
    requires a in After(ops + more).actors && HoldsSnapshot(After(ops + more).actors[a], id, After(ops).store[id].version)
    requires IsWrite(op, a)
    ensures Step(After(ops + more), op).store == After(ops + more).store
  {
    HistoryEvolves(ops, more);
    AfterInv(ops + more);
    assert ActorOk(After(ops + more).store, After(ops + more).actors[a]);
  }

  const FIRST: Binding := Binding(Pending, 1, 0, false)

  lemma SampleCreates() returns (ops: seq<Op>)
    ensures After(ops) == State(map[0 := FIRST], map[])
  {
    AfterStep([], Create(0, 0));
    ops := [] + [Create(0, 0)];
    assert After([]) == State(map[], map[]);
  }

  lemma SampleLoads() returns (ops: seq<Op>)
    ensures After(ops) == State(map[0 := FIRST], map[1 := Swapping(0, Cancelled, 0, 1, FIRST)])
  {
    var creates := SampleCreates();
    AfterStep(creates, CancelById(1, 0));
    AfterStep(creates + [CancelById(1, 0)], FinishLoad(1));
    ops := creates + [CancelById(1, 0)] + [FinishLoad(1)];
    assert After(creates + [CancelById(1, 0)]) == State(map[0 := FIRST], map[1 := Finishing(0, Cancelled, 0, 1)]);
  }

  lemma SampleCancels() returns (ops: seq<Op>)
    ensures After(ops) == State(map[0 := FIRST.(phase := Cancelled, version := 2)], map[1 := Returned(0, Settled, 1)])
  {
    var loads := SampleLoads();
    AfterStep(loads, FinishSave(1));
    ops := loads + [FinishSave(1)];
  }

  /** Without the exclusion cancellation is not final: a reconciliation revives a cancelled binding. */
  lemma ReconciliationRevives() returns (ops: seq<Op>, more: seq<Op>)
    ensures 0 in After(ops).store && After(ops).store[0].phase == Cancelled
    ensures 0 in After(ops + more).store && After(ops + more).store[0].phase == ReconcileRequired
  {
    ops := SampleCancels();
    var load, save := ReconcileLoad(2, 0), ReconcileSave(2);
    AfterStep(ops, load);
    AfterStep(ops + [load], save);
    more := [load] + [save];
    assert ops + more == ops + [load] + [save];
    assert After(ops + [load]).actors[2] == Reconciling(0, Binding(Cancelled, 2, 0, false));
  }

  // ---------------------------------------------------------------- the retry loop

  /** What the others do between a load and the save that follows it. */
  ghost predicate Fair(rival: Store -> Store) {
    forall s :: Evolves(s, rival(s)) && Latched(s, rival(s))
  }

  class Provider {
    var bindings: Store

    constructor ()
      ensures bindings == map[]
    {
      bindings := map[];
    }

    /** SaveExecutionBinding as one transaction. A save made from a snapshot succeeds exactly when the
        binding is still that snapshot; then it is the only save from that version that ever does. */
    method SaveBinding(id: nat, b: Binding, expected: nat) returns (ok: bool)
      modifies this
      ensures ok <==> Save(old(bindings), id, b, expected).Some?
      ensures bindings == if ok then Save(old(bindings), id, b, expected).value else old(bindings)
      ensures forall snap :: SnapOk(old(bindings), id, snap) && expected == snap.version && b.profile == snap.profile && b.isSealed == snap.isSealed ==>
                (ok <==> old(bindings)[id] == snap)
      ensures ok ==> forall later, c :: Evolves(bindings, later) ==> Save(later, id, c, expected).None?
      ensures ok ==> bindings - {id} == old(bindings) - {id} && id in bindings && bindings[id] == b.(version := VersionOf(old(bindings), id) + 1)
    {
      if id !in bindings {
        if expected != 0 { return false; }
      } else {
        var current := bindings[id];
        if current.version != expected { return false; }
        if current.phase != Pending && (b.profile != current.profile || b.isSealed != current.isSealed) { return false; }
      }
      bindings := bindings[id := b.(version := expected + 1)];
      return true;
    }

    /** finishExecutionBinding against rivals that write between its load and its save. Success means
        the binding is in the phase aimed for or cancelled; a conflict means three other writes. */
    method FinishBinding(id: nat, target: Phase, rivals: seq<Store -> Store>) returns (outcome: Outcome)
      requires |rivals| == ATTEMPTS && target != Pending
      requires forall k :: 0 <= k < ATTEMPTS ==> Fair(rivals[k])
      modifies this
      ensures Evolves(old(bindings), bindings) && Latched(old(bindings), bindings)
      ensures outcome == Missing <==> id !in old(bindings)
      ensures outcome == Settled ==> id in bindings && bindings[id].phase in {target, Cancelled}
      ensures outcome == Conflict ==> VersionOf(old(bindings), id) + ATTEMPTS <= VersionOf(bindings, id)
    {
      Unmoved(bindings);
      for k := 0 to ATTEMPTS
        invariant Evolves(old(bindings), bindings) && Latched(old(bindings), bindings)
        invariant if k == 0 then bindings == old(bindings) else id in old(bindings)
        invariant VersionOf(old(bindings), id) + k <= VersionOf(bindings, id)
      {
        if id !in bindings { return Missing; }
        var binding := bindings[id];
        if binding.phase == Cancelled || binding.phase == target { return Settled; }
        ghost var loaded := bindings;
        bindings := rivals[k](bindings);
        assert Fair(rivals[k]);
        EvolvesTransitive(old(bindings), loaded, bindings);
        ghost var before := bindings;
        var ok := SaveBinding(id, binding.(phase := target), binding.version);
        SwapEvolves(before, id, binding, target);
        EvolvesTransitive(old(bindings), before, bindings);
        if ok { return Settled; }
      }
      return Conflict;
    }
  }

  /** Saving a snapshot that may be stale evolves the store; it is refused only after another write. */
  lemma SwapEvolves(s: Store, id: nat, snap: Binding, target: Phase)
    requires id in s && snap.version <= s[id].version && (snap.version == s[id].version ==> s[id] == snap)
    requires snap.phase != Cancelled && target != Pending
    ensures var saved := Save(s, id, snap.(phase := target), snap.version);
            && (saved.Some? ==> Evolves(s, saved.value) && Latched(s, saved.value) && saved.value[id].phase == target)
            && (saved.None? ==> snap.version < s[id].version)
  {
    Unmoved(s);
  }
}

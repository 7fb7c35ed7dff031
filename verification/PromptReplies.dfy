/** Replies to session prompts: the handler of the request stream and the forwarder of run events
    race for each prompt. Every method is one critical section of the server's mutex; the handler
    works on one request at a time, the events come in between as they please. */
module PromptReplies {
  import opened Common

  datatype EventKind = RunFinished | RunFailed | RunCancelled

  datatype Reason = EndTurn | CancelledTurn | Refused

  /** What was written for a prompt; `id` is None where the response carries a null id. */
  datatype Answer = Answer(serial: nat, id: Option<nat>, reason: Reason)

  /** A managed session: the run of its active prompt and that prompt's request id, if it had one. */
  datatype Record = Record(activeRun: Option<nat>, promptId: Option<nat>)

  /** The prompt the handler is working on. */
  datatype Handler =
    | Idle
    | Checked(serial: nat, session: nat, record: nat, id: Option<nat>)
    | Started(serial: nat, session: nat, record: nat, id: Option<nat>, run: nat)

  /** A prompt whose run has been registered. */
  datatype Prompt = Prompt(session: nat, record: nat, id: Option<nat>, run: nat, early: bool)

  function StopReason(kind: EventKind): Reason { if kind == RunCancelled then CancelledTurn else EndTurn }

  ghost predicate Answered(answers: seq<Answer>, serial: nat) { exists i :: 0 <= i < |answers| && answers[i].serial == serial }

  ghost predicate AtMostOnce(answers: seq<Answer>) {
    forall i, j :: 0 <= i < j < |answers| ==> answers[i].serial != answers[j].serial
  }

  lemma AnsweredAppend(answers: seq<Answer>, a: Answer)
    ensures forall n :: Answered(answers + [a], n) <==> Answered(answers, n) || n == a.serial
    ensures AtMostOnce(answers) && !Answered(answers, a.serial) ==> AtMostOnce(answers + [a])
  {
    var longer := answers + [a];
    forall n ensures Answered(longer, n) <==> Answered(answers, n) || n == a.serial {
      if Answered(answers, n) {
        var i :| 0 <= i < |answers| && answers[i].serial == n;
        assert longer[i].serial == n;
      }
      if n == a.serial { assert longer[|answers|].serial == n; }
    }
  }

  /** Everything the server and the two streams hold. */
  datatype View = View(managed: map<nat, nat>, records: map<nat, Record>, terminal: map<nat, EventKind>, handler: Handler,
                       answers: seq<Answer>, prompts: map<nat, Prompt>, serials: set<nat>, runs: set<nat>, ended: set<nat>)

  /** Managed sessions have their own records; ends are of runs that have been seen. */
  ghost predicate SessionsOk(v: View) {
    && (forall s :: s in v.managed ==> v.managed[s] in v.records)
    && (forall s, t :: s in v.managed && t in v.managed && s != t ==> v.managed[s] != v.managed[t])
    && (forall r :: r in v.terminal ==> r in v.runs)
    && (forall r :: r in v.ended ==> r in v.runs)
  }

  /** The prompt in hand: not answered yet, its record idle, its run (once it has one) on no record,
      and the early end of that run kept. */
  ghost predicate HandlerOk(v: View) {
    match v.handler
    case Idle => true
    case Checked(n, s, rec, id) =>
      && n in v.serials && n !in v.prompts && !Answered(v.answers, n)
      && s in v.managed && v.managed[s] == rec && rec in v.records && v.records[rec].activeRun == None
    case Started(n, s, rec, id, run) =>
      && n in v.serials && n !in v.prompts && !Answered(v.answers, n)
      && s in v.managed && v.managed[s] == rec && rec in v.records && v.records[rec].activeRun == None
      && run in v.runs && (run in v.ended <==> run in v.terminal)
      && (forall m :: m in v.prompts ==> v.prompts[m].run != run)
  }

  /** A registered prompt: with an id it is answered, or its record still waits for its run and the
      run has not ended while the record was managed. Without an id it is answered exactly when its
      run ended before it was registered. */
  ghost predicate PromptOk(v: View, n: nat)
    requires n in v.prompts
  {
    var p := v.prompts[n];
    && n in v.serials && p.run in v.runs && p.record in v.records
    && (Answered(v.answers, n) || v.records[p.record] == Record(Some(p.run), p.id))
    && (p.id.Some? && !Answered(v.answers, n) && p.session in v.managed && v.managed[p.session] == p.record ==> p.run !in v.ended)
    && (p.id.None? ==> (Answered(v.answers, n) <==> p.early))
    && (p.early ==> Answered(v.answers, n))
  }

  ghost predicate PromptsOk(v: View) {
    && (forall n :: n in v.prompts ==> PromptOk(v, n))
    && (forall m, n :: m in v.prompts && n in v.prompts && m != n ==> v.prompts[m].run != v.prompts[n].run)
    && (forall rec :: rec in v.records && v.records[rec].activeRun.Some? ==>
          exists n :: n in v.prompts && v.prompts[n].record == rec && v.prompts[n].run == v.records[rec].activeRun.value
                      && v.prompts[n].id == v.records[rec].promptId && !Answered(v.answers, n))
  }

  ghost predicate Consistent(v: View) {
    && SessionsOk(v) && HandlerOk(v) && PromptsOk(v) && AtMostOnce(v.answers)
    && (forall i :: 0 <= i < |v.answers| ==> v.answers[i].serial in v.serials)
  }

  /** The view after the prompt n of a waiting record has been answered. */
  ghost function Replied(v: View, rec: nat, n: nat, run: nat, a: Answer): View {
    v.(records := v.records[rec := Record(None, None)], answers := v.answers + [a], ended := v.ended + {run}, runs := v.runs + {run})
  }

  ghost predicate Waits(v: View, rec: nat, n: nat, run: nat) {
    && rec in v.records && v.records[rec].activeRun == Some(run) && v.records[rec].promptId.Some?
    && n in v.prompts && v.prompts[n].record == rec && v.prompts[n].run == run && v.prompts[n].id == v.records[rec].promptId
    && !Answered(v.answers, n)
  }

  lemma ReplyPrompts(v: View, rec: nat, n: nat, run: nat, a: Answer)
    requires PromptsOk(v) && Waits(v, rec, n, run) && a.serial == n
    ensures PromptsOk(Replied(v, rec, n, run, a))
  {
    var w := Replied(v, rec, n, run, a);
    AnsweredAppend(v.answers, a);
    forall m | m in w.prompts ensures PromptOk(w, m) {
      assert PromptOk(v, m) && PromptOk(v, n);
    }
    forall x | x in w.records && w.records[x].activeRun.Some?
      ensures exists m :: m in w.prompts && w.prompts[m].record == x && w.prompts[m].run == w.records[x].activeRun.value
                          && w.prompts[m].id == w.records[x].promptId && !Answered(w.answers, m)
    {
      var m :| m in v.prompts && v.prompts[m].record == x && v.prompts[m].run == v.records[x].activeRun.value
               && v.prompts[m].id == v.records[x].promptId && !Answered(v.answers, m);
      assert m != n;
    }
  }

  lemma ReplyKeeps(v: View, rec: nat, n: nat, run: nat, a: Answer)
    requires Consistent(v) && Waits(v, rec, n, run) && a.serial == n
    ensures Consistent(Replied(v, rec, n, run, a))
  {
    ReplyPrompts(v, rec, n, run, a);
    AnsweredAppend(v.answers, a);
    assert PromptOk(v, n);
  }

  ghost function RegisteredLate(v: View, h: Handler): View
    requires h.Started?
  {
    v.(handler := Idle, records := v.records[h.record := Record(Some(h.run), h.id)],
       prompts := v.prompts[h.serial := Prompt(h.session, h.record, h.id, h.run, false)])
  }

  lemma RegisterLateKeeps(v: View)
    requires Consistent(v) && v.handler.Started? && v.handler.run !in v.terminal
    ensures Consistent(RegisteredLate(v, v.handler))
  {
    var h, w := v.handler, RegisteredLate(v, v.handler);
    forall m | m in w.prompts ensures PromptOk(w, m) {
      if m != h.serial {
        assert PromptOk(v, m);
      }
    }
    forall x | x in w.records && w.records[x].activeRun.Some?
      ensures exists m :: m in w.prompts && w.prompts[m].record == x && w.prompts[m].run == w.records[x].activeRun.value
                          && w.prompts[m].id == w.records[x].promptId && !Answered(w.answers, m)
    {
      if x == h.record {
        assert h.serial in w.prompts && w.prompts[h.serial].record == x;
      } else {
        var m :| m in v.prompts && v.prompts[m].record == x && v.prompts[m].run == v.records[x].activeRun.value
                 && v.prompts[m].id == v.records[x].promptId && !Answered(v.answers, m);
        assert w.prompts[m] == v.prompts[m];
      }
    }
  }

  ghost function RegisteredEarly(v: View, h: Handler, a: Answer): View
    requires h.Started?
  {
    v.(handler := Idle, terminal := v.terminal - {h.run}, answers := v.answers + [a],
       prompts := v.prompts[h.serial := Prompt(h.session, h.record, h.id, h.run, true)])
  }

  lemma RegisterEarlyKeeps(v: View, a: Answer)
    requires Consistent(v) && v.handler.Started? && v.handler.run in v.terminal && a.serial == v.handler.serial
    ensures Consistent(RegisteredEarly(v, v.handler, a))
  {
    var h, w := v.handler, RegisteredEarly(v, v.handler, a);
    AnsweredAppend(v.answers, a);
    forall m | m in w.prompts ensures PromptOk(w, m) {
      if m != h.serial { assert PromptOk(v, m); }
    }
    forall x | x in w.records && w.records[x].activeRun.Some?
      ensures exists m :: m in w.prompts && w.prompts[m].record == x && w.prompts[m].run == w.records[x].activeRun.value
                          && w.prompts[m].id == w.records[x].promptId && !Answered(w.answers, m)
    {
      var m :| m in v.prompts && v.prompts[m].record == x && v.prompts[m].run == v.records[x].activeRun.value
               && v.prompts[m].id == v.records[x].promptId && !Answered(v.answers, m);
      assert w.prompts[m] == v.prompts[m];
    }
  }

  // ---------------------------------------------------------------- the critical sections

  /** What the request stream and the event stream do, one critical section at a time. */
  datatype Op =
    | OpenSession(session: nat, record: nat)
    | CloseSession(session: nat)
    | CheckPrompt(serial: nat, session: nat, id: Option<nat>)
    | StartTurn(run: nat)
    | FailTurn
    | Register
    | Complete(session: nat, run: nat, kind: EventKind)

  /** The record of a session that is free for a prompt. */
  function FreeRecord(v: View, session: nat): Option<nat> {
    if session in v.managed && v.managed[session] in v.records && v.records[v.managed[session]].activeRun == None
    then Some(v.managed[session]) else None
  }

  /** A refusal is answered when there is an id. */
  function Refusal(serial: nat, id: Option<nat>): seq<Answer> { if id.Some? then [Answer(serial, id, Refused)] else [] }

  /** The first critical section of session/prompt. */
  function AfterCheck(v: View, serial: nat, session: nat, id: Option<nat>): View {
    if v.handler != Idle || serial in v.serials then v
    else
      var w := v.(serials := v.serials + {serial});
      match FreeRecord(v, session)
      case None => w.(answers := v.answers + Refusal(serial, id))
      case Some(record) => w.(handler := Checked(serial, session, record, id))
  }

  /** The second critical section: the run may have ended already. */
  ghost function AfterRegister(v: View): View {
    if !v.handler.Started? then v
    else if v.handler.run in v.terminal
    then RegisteredEarly(v, v.handler, Answer(v.handler.serial, v.handler.id, StopReason(v.terminal[v.handler.run])))
    else RegisteredLate(v, v.handler)
  }

  /** The record an event finds waiting for its run. */
  function WaitingRecord(v: View, session: nat, run: nat): Option<nat> {
    if && session in v.managed && v.managed[session] in v.records
       && v.records[v.managed[session]].activeRun == Some(run) && v.records[v.managed[session]].promptId.Some?
    then Some(v.managed[session]) else None
  }

  /** An event that names another session than the one its run was registered for. */
  ghost predicate Misnamed(v: View, session: nat, run: nat) {
    exists n :: n in v.prompts && v.prompts[n].run == run && v.prompts[n].session != session
  }

  ghost predicate PromptOf(v: View, rec: nat, run: nat, n: nat) {
    n in v.prompts && v.prompts[n].record == rec && v.prompts[n].run == run
  }

  ghost function PromptFor(v: View, rec: nat, run: nat): nat {
    if exists n: nat :: PromptOf(v, rec, run, n) then var n: nat :| PromptOf(v, rec, run, n); n else 0
  }

  /** completeRun. A run counts as ended once an event for it has named its session. */
  ghost function AfterComplete(v: View, session: nat, run: nat, kind: EventKind): View {
    match WaitingRecord(v, session, run)
    case None =>
      v.(terminal := v.terminal[run := kind], runs := v.runs + {run}, ended := if Misnamed(v, session, run) then v.ended else v.ended + {run})
    case Some(rec) =>
      var n := PromptFor(v, rec, run);
      Replied(v, rec, n, run, Answer(n, v.records[rec].promptId, StopReason(kind)))
  }

  ghost function Step(v: View, op: Op): View {
    match op
    case OpenSession(session, record) =>
      if v.handler != Idle || record in v.records then v
      else v.(managed := v.managed[session := record], records := v.records[record := Record(None, None)])
    case CloseSession(session) => if v.handler != Idle then v else v.(managed := v.managed - {session})
    case CheckPrompt(serial, session, id) => AfterCheck(v, serial, session, id)
    case StartTurn(run) =>
      if !v.handler.Checked? || run in v.runs then v
      else v.(runs := v.runs + {run}, handler := Started(v.handler.serial, v.handler.session, v.handler.record, v.handler.id, run))
    case FailTurn =>
      if !v.handler.Checked? then v else v.(handler := Idle, answers := v.answers + Refusal(v.handler.serial, v.handler.id))
    case Register => AfterRegister(v)
    case Complete(session, run, kind) => AfterComplete(v, session, run, kind)
  }

  const START: View := View(map[], map[], map[], Idle, [], map[], {}, {}, {})

  ghost function After(ops: seq<Op>): View {
    if ops == [] then START else Step(After(ops[..|ops| - 1]), ops[|ops| - 1])
  }

  // ---------------------------------------------------------------- every step keeps the server consistent

  /** A refusal goes out for a prompt that is neither in hand nor registered. */
  lemma RefusalKeeps(v: View, serial: nat, id: Option<nat>)
    requires Consistent(v) && v.handler == Idle && serial in v.serials && serial !in v.prompts && !Answered(v.answers, serial)
    ensures Consistent(v.(answers := v.answers + Refusal(serial, id)))
  {
    if id.Some? {
      AnsweredAppend(v.answers, Answer(serial, id, Refused));
      PromptsUnmoved(v, v.(answers := v.answers + Refusal(serial, id)), serial);
    } else {
      assert v.answers + [] == v.answers;
    }
  }

  /** Answering something else leaves every registered prompt as it was. */
  lemma PromptsUnmoved(v: View, w: View, serial: nat)
    requires PromptsOk(v) && w == v.(answers := w.answers) && serial !in v.prompts
    requires forall n :: n != serial ==> (Answered(w.answers, n) <==> Answered(v.answers, n))
    ensures PromptsOk(w)
  {
    forall n | n in w.prompts ensures PromptOk(w, n) { assert PromptOk(v, n); }
    forall rec | rec in w.records && w.records[rec].activeRun.Some?
      ensures exists n :: n in w.prompts && w.prompts[n].record == rec && w.prompts[n].run == w.records[rec].activeRun.value
                          && w.prompts[n].id == w.records[rec].promptId && !Answered(w.answers, n)
    {
      var n :| n in v.prompts && v.prompts[n].record == rec && v.prompts[n].run == v.records[rec].activeRun.value
               && v.prompts[n].id == v.records[rec].promptId && !Answered(v.answers, n);
      assert n in w.prompts && !Answered(w.answers, n);
    }
  }

  lemma CheckKeeps(v: View, serial: nat, session: nat, id: Option<nat>)
    requires Consistent(v)
    ensures Consistent(AfterCheck(v, serial, session, id))
  {
    if v.handler == Idle && serial !in v.serials {
      var w := v.(serials := v.serials + {serial});
      SerialKeeps(v, serial);
      RefusalKeeps(w, serial, id);
      var record := FreeRecord(v, session);
      if record.Some? { InHandKeeps(w, serial, session, record.value, id); }
    }
  }

  lemma InHandKeeps(w: View, serial: nat, session: nat, record: nat, id: Option<nat>)
    requires Consistent(w) && w.handler == Idle && FreeRecord(w, session) == Some(record)
    requires serial in w.serials && serial !in w.prompts && !Answered(w.answers, serial)
    ensures Consistent(w.(handler := Checked(serial, session, record, id)))
  {
    var x := w.(handler := Checked(serial, session, record, id));
    forall n | n in x.prompts ensures PromptOk(x, n) { assert PromptOk(w, n); }
  }

  /** A new serial has no prompt and no answer. */
  lemma SerialKeeps(v: View, serial: nat)
    requires Consistent(v)
    ensures Consistent(v.(serials := v.serials + {serial}))
    ensures serial !in v.serials ==> serial !in v.prompts && !Answered(v.answers, serial)
  {
    var w := v.(serials := v.serials + {serial});
    forall n | n in w.prompts ensures PromptOk(w, n) && n in v.serials { assert PromptOk(v, n); }
  }

  lemma StartKeeps(v: View, run: nat)
    requires Consistent(v) && v.handler.Checked? && run !in v.runs
    ensures Consistent(Step(v, StartTurn(run)))
  {
    var w := Step(v, StartTurn(run));
    forall n | n in w.prompts ensures PromptOk(w, n) && w.prompts[n].run != run { assert PromptOk(v, n); }
  }

  lemma FailKeeps(v: View)
    requires Consistent(v) && v.handler.Checked?
    ensures Consistent(Step(v, FailTurn))
  {
    var w := v.(handler := Idle);
    forall n | n in w.prompts ensures PromptOk(w, n) { assert PromptOk(v, n); }
    assert Consistent(w);
    RefusalKeeps(w, v.handler.serial, v.handler.id);
  }

  /** An end that no record waits for is kept for the handler. */
  lemma KeptKeeps(v: View, session: nat, run: nat, kind: EventKind)
    requires Consistent(v) && WaitingRecord(v, session, run).None?
    ensures Consistent(AfterComplete(v, session, run, kind))
  {
    var w := AfterComplete(v, session, run, kind);
    forall n | n in w.prompts ensures PromptOk(w, n) {
      assert PromptOk(v, n);
      if v.prompts[n].run == run && v.prompts[n].session != session { assert Misnamed(v, session, run); }
    }
    if v.handler.Started? && v.handler.run == run { assert !Misnamed(v, session, run); }
  }

  lemma ReplyFinds(v: View, session: nat, run: nat)
    requires Consistent(v) && WaitingRecord(v, session, run).Some?
    ensures var rec := WaitingRecord(v, session, run).value; Waits(v, rec, PromptFor(v, rec, run), run)
  {
    var rec := WaitingRecord(v, session, run).value;
    var n :| n in v.prompts && v.prompts[n].record == rec && v.prompts[n].run == run && v.prompts[n].id == v.records[rec].promptId && !Answered(v.answers, n);
    assert PromptOf(v, rec, run, n);
    var m := PromptFor(v, rec, run);
    assert PromptOf(v, rec, run, m);
    assert m == n;
  }

  lemma CompleteKeeps(v: View, session: nat, run: nat, kind: EventKind)
    requires Consistent(v)
    ensures Consistent(AfterComplete(v, session, run, kind))
  {
    if WaitingRecord(v, session, run).None? {
      KeptKeeps(v, session, run, kind);
    } else {
      var rec := WaitingRecord(v, session, run).value;
      ReplyFinds(v, session, run);
      var n := PromptFor(v, rec, run);
      ReplyKeeps(v, rec, n, run, Answer(n, v.records[rec].promptId, StopReason(kind)));
    }
  }

  lemma SessionKeeps(v: View, op: Op)
    requires Consistent(v) && (op.OpenSession? || op.CloseSession?)
    ensures Consistent(Step(v, op))
  {
    var w := Step(v, op);
    forall n | n in w.prompts ensures PromptOk(w, n) { assert PromptOk(v, n); }
    forall rec | rec in w.records && w.records[rec].activeRun.Some?
      ensures exists n :: n in w.prompts && w.prompts[n].record == rec && w.prompts[n].run == w.records[rec].activeRun.value
                          && w.prompts[n].id == w.records[rec].promptId && !Answered(w.answers, n)
    {
      assert rec in v.records && v.records[rec] == w.records[rec];
    }
  }

  lemma StepKeeps(v: View, op: Op)
    requires Consistent(v)
    ensures Consistent(Step(v, op))
  {
    match op
    case OpenSession(session, record) => SessionKeeps(v, op);
    case CloseSession(session) => SessionKeeps(v, op);
    case CheckPrompt(serial, session, id) => CheckKeeps(v, serial, session, id);
    case StartTurn(run) => if v.handler.Checked? && run !in v.runs { StartKeeps(v, run); }
    case FailTurn => if v.handler.Checked? { FailKeeps(v); }
    case Register =>
      if v.handler.Started? {
        if v.handler.run in v.terminal {
          RegisterEarlyKeeps(v, Answer(v.handler.serial, v.handler.id, StopReason(v.terminal[v.handler.run])));
        } else {
          RegisterLateKeeps(v);
        }
      }
    case Complete(session, run, kind) => CompleteKeeps(v, session, run, kind);
  }

  lemma {:induction false} AfterConsistent(ops: seq<Op>)
    ensures Consistent(After(ops))
  {
    if ops != [] {
      AfterConsistent(ops[..|ops| - 1]);
      StepKeeps(After(ops[..|ops| - 1]), ops[|ops| - 1]);
    }
  }

  // ---------------------------------------------------------------- whatever the interleaving

  /** In every interleaving a prompt is answered at most once. */
  lemma AnsweredOnce(ops: seq<Op>, i: nat, j: nat)
    requires i < j < |After(ops).answers|
    ensures After(ops).answers[i].serial != After(ops).answers[j].serial
  {
    AfterConsistent(ops);
  }

  /** In every interleaving a registered prompt with an id is answered, once, when its run has ended and
      its session was neither closed nor resumed since; until then its record waits for that run. */
  lemma AnsweredWhenEnded(ops: seq<Op>, n: nat)
    requires n in After(ops).prompts && After(ops).prompts[n].id.Some?
    ensures var v := After(ops);
            var p := v.prompts[n];
            && (p.session in v.managed && v.managed[p.session] == p.record && p.run in v.ended ==> Answered(v.answers, n))
            && (!Answered(v.answers, n) ==> p.record in v.records && v.records[p.record] == Record(Some(p.run), p.id))
  {
    AfterConsistent(ops);
    assert PromptOk(After(ops), n);
  }

  lemma StepPrompts(v: View, op: Op, n: nat)
    requires Consistent(v) && n in v.prompts
    ensures n in Step(v, op).prompts && Step(v, op).prompts[n] == v.prompts[n]
  {
  }

  lemma AfterStep(ops: seq<Op>, op: Op)
    ensures After(ops + [op]) == Step(After(ops), op)
  {
    assert (ops + [op])[..|ops|] == ops;
  }

  lemma StillIn<T>(xs: seq<T>, ys: seq<T>, i: nat)
    requires xs <= ys && i < |xs|
    ensures xs[i] in ys
  {
    assert ys[i] == xs[i];
  }

  lemma StepAnswers(v: View, op: Op)
    ensures v.answers <= Step(v, op).answers
  {
  }

  /** What was answered stays answered. */
  lemma {:induction false} AnswersStand(ops: seq<Op>, more: seq<Op>)
    ensures After(ops).answers <= After(ops + more).answers
  {
    if more == [] {
      assert ops + more == ops;
    } else {
      var init, last := more[..|more| - 1], more[|more| - 1];
      AnswersStand(ops, init);
      assert ops + more == (ops + init) + [last];
      AfterStep(ops + init, last);
      StepAnswers(After(ops + init), last);
    }
  }

  /** A prompt stays as it was registered. */
  lemma {:induction false} PromptStands(ops: seq<Op>, more: seq<Op>, n: nat)
    requires n in After(ops).prompts
    ensures n in After(ops + more).prompts && After(ops + more).prompts[n] == After(ops).prompts[n]
  {
    if more == [] {
      assert ops + more == ops;
    } else {
      var init, last := more[..|more| - 1], more[|more| - 1];
      PromptStands(ops, init, n);
      AfterConsistent(ops + init);
      assert ops + more == (ops + init) + [last];
      AfterStep(ops + init, last);
      StepPrompts(After(ops + init), last, n);
    }
  }

  /** The fate of a prompt without an id is settled when its run is registered, whatever happens later: it
      is answered, with a null id, exactly when the run had ended by then; otherwise it never is, and its
      record is never free again. */
  lemma NotificationFate(ops: seq<Op>, n: nat, s: nat, rec: nat, run: nat, more: seq<Op>)
    requires After(ops).handler == Started(n, s, rec, None, run)
    ensures var v := After(ops + [Register] + more);
            && (Answered(v.answers, n) <==> run in After(ops).ended)
            && (run in After(ops).ended ==>
                  run in After(ops).terminal && Answer(n, None, StopReason(After(ops).terminal[run])) in v.answers)
            && (run !in After(ops).ended ==> forall session :: FreeRecord(v, session) != Some(rec))
  {
    var registered := ops + [Register];
    AfterConsistent(ops);
    AfterStep(ops, Register);
    AnswersStand(registered, more);
    if run in After(ops).ended { StillIn(After(registered).answers, After(registered + more).answers, |After(ops).answers|); }
    assert n in After(registered).prompts && After(registered).prompts[n] == Prompt(s, rec, None, run, run in After(ops).ended);
    PromptStands(registered, more, n);
    AfterConsistent(registered + more);
    assert PromptOk(After(registered + more), n);
  }

  const SESSION: View := START.(managed := map[0 := 0], records := map[0 := Record(None, None)])

  /** A prompt without an id, its run started and still to be registered. */
  lemma SampleStarted() returns (ops: seq<Op>)
    ensures After(ops) == SESSION.(serials := {0}, runs := {0}, handler := Started(0, 0, 0, None, 0))
  {
    var open, check, start := OpenSession(0, 0), CheckPrompt(0, 0, None), StartTurn(0);
    AfterStep([], open);
    AfterStep([] + [open], check);
    AfterStep([] + [open] + [check], start);
    ops := [] + [open] + [check] + [start];
    assert After([]) == START;
    assert After([] + [open]) == SESSION;
    assert After([] + [open] + [check]) == SESSION.(serials := {0}, handler := Checked(0, 0, 0, None));
  }

  /** When the run ends after its registration the prompt is never answered and its session stays busy. */
  lemma NotificationLeavesBusy() returns (ops: seq<Op>)
    ensures var v := After(ops);
            && 0 in v.prompts && v.prompts[0].run in v.ended && v.answers == []
            && 0 in v.managed && FreeRecord(v, 0) == None
  {
    var started := SampleStarted();
    AfterStep(started, Register);
    AfterStep(started + [Register], Complete(0, 0, RunFinished));
    ops := started + [Register] + [Complete(0, 0, RunFinished)];
    var v := After(started + [Register]);
    assert v.records == map[0 := Record(Some(0), None)] && v.prompts[0] == Prompt(0, 0, None, 0, false);
    assert !Misnamed(v, 0, 0);
  }

  /** When the run ends before, the prompt is answered although it asked for no answer. */
  lemma NotificationAnswered() returns (ops: seq<Op>)
    ensures After(ops).answers == [Answer(0, None, EndTurn)]
  {
    var started := SampleStarted();
    AfterStep(started, Complete(0, 0, RunFinished));
    AfterStep(started + [Complete(0, 0, RunFinished)], Register);
    ops := started + [Complete(0, 0, RunFinished)] + [Register];
    var v := After(started + [Complete(0, 0, RunFinished)]);
    assert v.terminal == map[0 := RunFinished] && v.answers == [];
    assert [] + [Answer(0, None, EndTurn)] == [Answer(0, None, EndTurn)];
  }

  // ---------------------------------------------------------------- what the answers say

  /** An event of the history that ends a run. */
  ghost predicate Happened(ops: seq<Op>, run: nat, kind: EventKind) {
    exists j :: 0 <= j < |ops| && ops[j].Complete? && ops[j].run == run && ops[j].kind == kind
  }

  lemma HappenedGrows(ops: seq<Op>, op: Op, run: nat, kind: EventKind)
    ensures Happened(ops, run, kind) ==> Happened(ops + [op], run, kind)
    ensures op.Complete? ==> Happened(ops + [op], op.run, op.kind)
  {
    var longer := ops + [op];
    if Happened(ops, run, kind) {
      var j :| 0 <= j < |ops| && ops[j].Complete? && ops[j].run == run && ops[j].kind == kind;
      assert longer[j] == ops[j];
    }
    assert longer[|ops|] == op;
  }

  /** A registered prompt is answered under its own id and told how its run ended: "cancelled" for a
      cancelled run, "end_turn" for one that finished or failed. Any other answer is a refusal. */
  ghost predicate Told(ops: seq<Op>, v: View, a: Answer) {
    if a.serial in v.prompts then
      && a.id == v.prompts[a.serial].id
      && ((a.reason == CancelledTurn && Happened(ops, v.prompts[a.serial].run, RunCancelled))
          || (a.reason == EndTurn && (Happened(ops, v.prompts[a.serial].run, RunFinished) || Happened(ops, v.prompts[a.serial].run, RunFailed))))
    else a.reason == Refused && a.id.Some?
  }

  ghost predicate AllTold(ops: seq<Op>, v: View) {
    && (forall i :: 0 <= i < |v.answers| ==> Told(ops, v, v.answers[i]))
    && (forall run :: run in v.terminal ==> Happened(ops, run, v.terminal[run]))
  }

  /** What was told stays true while prompts stand and the history grows. */
  lemma ToldStays(ops: seq<Op>, op: Op, v: View, w: View, a: Answer)
    requires Told(ops, v, a) && forall n :: n in v.prompts ==> n in w.prompts && w.prompts[n] == v.prompts[n]
    requires a.serial in w.prompts ==> a.serial in v.prompts
    ensures Told(ops + [op], w, a)
  {
    if a.serial in v.prompts {
      forall kind ensures Happened(ops, v.prompts[a.serial].run, kind) ==> Happened(ops + [op], v.prompts[a.serial].run, kind) {
        HappenedGrows(ops, op, v.prompts[a.serial].run, kind);
      }
    }
  }

  /** A step answers at most once more, and what it adds is told. */
  lemma AllToldStep(ops: seq<Op>, op: Op, v: View, w: View)
    requires AllTold(ops, v) && v.answers <= w.answers
    requires forall n :: n in v.prompts ==> n in w.prompts && w.prompts[n] == v.prompts[n]
    requires forall i :: 0 <= i < |v.answers| ==> v.answers[i].serial in w.prompts ==> v.answers[i].serial in v.prompts
    requires forall i :: |v.answers| <= i < |w.answers| ==> Told(ops + [op], w, w.answers[i])
    requires forall run :: run in w.terminal ==> (run in v.terminal && w.terminal[run] == v.terminal[run]) || Happened(ops + [op], run, w.terminal[run])
    ensures AllTold(ops + [op], w)
  {
    forall i | 0 <= i < |w.answers| ensures Told(ops + [op], w, w.answers[i]) {
      if i < |v.answers| {
        assert w.answers[i] == v.answers[i];
        ToldStays(ops, op, v, w, v.answers[i]);
      }
    }
    forall run | run in w.terminal ensures Happened(ops + [op], run, w.terminal[run]) {
      if run in v.terminal { HappenedGrows(ops, op, run, v.terminal[run]); }
    }
  }

  lemma CheckTold(ops: seq<Op>, op: Op, v: View)
    requires Consistent(v) && AllTold(ops, v) && (op.CheckPrompt? || op.FailTurn?)
    ensures AllTold(ops + [op], Step(v, op))
  {
    if op.CheckPrompt? { SerialKeeps(v, op.serial); }
    AllToldStep(ops, op, v, Step(v, op));
  }

  lemma RegisterTold(ops: seq<Op>, v: View)
    requires Consistent(v) && AllTold(ops, v)
    ensures AllTold(ops + [Register], Step(v, Register))
  {
    var w := Step(v, Register);
    if v.handler.Started? {
      assert forall i :: 0 <= i < |v.answers| ==> v.answers[i].serial != v.handler.serial;
      if v.handler.run in v.terminal {
        HappenedGrows(ops, Register, v.handler.run, v.terminal[v.handler.run]);
        assert w.prompts[v.handler.serial].run == v.handler.run;
      }
    }
    AllToldStep(ops, Register, v, w);
  }

  lemma CompleteTold(ops: seq<Op>, v: View, session: nat, run: nat, kind: EventKind)
    requires Consistent(v) && AllTold(ops, v)
    ensures AllTold(ops + [Complete(session, run, kind)], Step(v, Complete(session, run, kind)))
  {
    HappenedGrows(ops, Complete(session, run, kind), run, kind);
    if WaitingRecord(v, session, run).Some? { ReplyFinds(v, session, run); }
    AllToldStep(ops, Complete(session, run, kind), v, Step(v, Complete(session, run, kind)));
  }

  lemma {:induction false} AfterTold(ops: seq<Op>)
    ensures AllTold(ops, After(ops))
  {
    if ops != [] {
      var init, op := ops[..|ops| - 1], ops[|ops| - 1];
      var v := After(init);
      AfterTold(init);
      AfterConsistent(init);
      assert ops == init + [op];
      match op
      case CheckPrompt(_, _, _) => CheckTold(init, op, v);
      case FailTurn => CheckTold(init, op, v);
      case Register => RegisterTold(init, v);
      case Complete(session, run, kind) => CompleteTold(init, v, session, run, kind);
      case OpenSession(_, _) => AllToldStep(init, op, v, Step(v, op));
      case CloseSession(_) => AllToldStep(init, op, v, Step(v, op));
      case StartTurn(_) => AllToldStep(init, op, v, Step(v, op));
    }
  }

  /** In every interleaving, whatever is written for a registered prompt carries its id and the reason its
      own run gives: "cancelled" only after that run was cancelled, "end_turn" only after it finished or
      failed. Everything else written is the refusal of a prompt that never got that far. */
  lemma AnswersTell(ops: seq<Op>, i: nat)
    requires i < |After(ops).answers|
    ensures var v := After(ops);
            var a := v.answers[i];
            if a.serial in v.prompts then
              && a.id == v.prompts[a.serial].id && a.reason != Refused
              && (a.reason == CancelledTurn ==> Happened(ops, v.prompts[a.serial].run, RunCancelled))
              && (a.reason == EndTurn ==>
                    Happened(ops, v.prompts[a.serial].run, RunFinished) || Happened(ops, v.prompts[a.serial].run, RunFailed))
            else a.reason == Refused && a.id.Some?
  {
    AfterTold(ops);
    assert Told(ops, After(ops), After(ops).answers[i]);
  }

  /** A prompt in hand has not been answered, and an end of its run is kept for it. */
  lemma EndIsKept(ops: seq<Op>)
    requires After(ops).handler.Started?
    ensures var v := After(ops);
            !Answered(v.answers, v.handler.serial) && (v.handler.run in v.ended <==> v.handler.run in v.terminal)
  {
    AfterConsistent(ops);
  }

  // ---------------------------------------------------------------- the server object

  class Server {
    var managed: map<nat, nat>
    var records: map<nat, Record>
    var terminal: map<nat, EventKind>
    var handler: Handler
    ghost var answers: seq<Answer>
    ghost var prompts: map<nat, Prompt>
    ghost var serials: set<nat>
    ghost var runs: set<nat>
    ghost var ended: set<nat>

    ghost function Now(): View
      reads this
    {
      View(managed, records, terminal, handler, answers, prompts, serials, runs, ended)
    }

    ghost predicate Valid()
      reads this
    {
      Consistent(Now())
    }

    constructor ()
      ensures Valid() && Now() == After([])
    {
      managed, records, terminal, handler := map[], map[], map[], Idle;
      answers, prompts, serials, runs, ended := [], map[], {}, {}, {};
    }

    /** session/new and session/resume: a fresh record, whatever was there. */
    method Open(session: nat, record: nat)
      requires Valid() && handler == Idle && record !in records
      modifies this`managed, this`records
      ensures Valid() && Now() == Step(old(Now()), OpenSession(session, record))
    {
      StepKeeps(Now(), OpenSession(session, record));
      managed := managed[session := record];
      records := records[record := Record(None, None)];
    }

    /** session/close. */
    method Close(session: nat)
      requires Valid() && handler == Idle
      modifies this`managed
      ensures Valid() && Now() == Step(old(Now()), CloseSession(session))
    {
      StepKeeps(Now(), CloseSession(session));
      managed := managed - {session};
    }

    /** The first critical section of session/prompt: refused when the session is unknown or busy. */
    method Check(serial: nat, session: nat, id: Option<nat>)
      requires Valid() && handler == Idle && serial !in serials
      modifies this`handler, this`serials, this`answers
      ensures Valid() && Now() == Step(old(Now()), CheckPrompt(serial, session, id))
      ensures if session in managed && records[managed[session]].activeRun == None
              then handler == Checked(serial, session, managed[session], id) && answers == old(answers)
              else handler == Idle && answers == old(answers) + (if id.Some? then [Answer(serial, id, Refused)] else [])
    {
      StepKeeps(Now(), CheckPrompt(serial, session, id));
      serials := serials + {serial};
      if session !in managed || records[managed[session]].activeRun != None {
        answers := answers + Refusal(serial, id);
        return;
      }
      handler := Checked(serial, session, managed[session], id);
    }

    /** StartConfiguredTurn returns a new run; its events may come from now on. */
    method TurnStarted(run: nat)
      requires Valid() && handler.Checked? && run !in runs
      modifies this`handler, this`runs
      ensures Valid() && Now() == Step(old(Now()), StartTurn(run))
    {
      StepKeeps(Now(), StartTurn(run));
      runs := runs + {run};
      handler := Started(handler.serial, handler.session, handler.record, handler.id, run);
    }

    /** StartConfiguredTurn fails. */
    method TurnFailed()
      requires Valid() && handler.Checked?
      modifies this`handler, this`answers
      ensures Valid() && Now() == Step(old(Now()), FailTurn)
    {
      StepKeeps(Now(), FailTurn);
      answers := answers + Refusal(handler.serial, handler.id);
      handler := Idle;
    }

    /** The second critical section: a run that has ended already is answered here and now, the session
        stays free; otherwise the record waits for the run. */
    method RegisterRun()
      requires Valid() && handler.Started?
      modifies this`handler, this`terminal, this`records, this`prompts, this`answers
      ensures Valid() && Now() == Step(old(Now()), Register)
      ensures Answered(answers, old(handler).serial) <==> old(handler).run in ended
      ensures var h := old(handler);
              if h.run in ended
              then h.run in old(terminal) && records == old(records)
                   && answers == old(answers) + [Answer(h.serial, h.id, if old(terminal)[h.run] == RunCancelled then CancelledTurn else EndTurn)]
              else answers == old(answers) && records == old(records)[h.record := Record(Some(h.run), h.id)]
    {
      StepKeeps(Now(), Register);
      if handler.run in terminal {
        RegisterEnded();
      } else {
        RegisterWaiting();
      }
    }

    method RegisterEnded()
      requires Valid() && handler.Started? && handler.run in terminal
      modifies this`handler, this`terminal, this`prompts, this`answers
      ensures Now() == AfterRegister(old(Now())) && Answered(answers, old(handler).serial)
    {
      var h := handler;
      ghost var a := Answer(h.serial, h.id, StopReason(terminal[h.run]));
      AnsweredAppend(answers, a);
      answers := answers + [a];
      prompts := prompts[h.serial := Prompt(h.session, h.record, h.id, h.run, true)];
      terminal := terminal - {h.run};
      handler := Idle;
    }

    method RegisterWaiting()
      requires handler.Started? && handler.run !in terminal
      modifies this`handler, this`records, this`prompts
      ensures Now() == AfterRegister(old(Now()))
    {
      var h := handler;
      records := records[h.record := Record(Some(h.run), h.id)];
      prompts := prompts[h.serial := Prompt(h.session, h.record, h.id, h.run, false)];
      handler := Idle;
    }

    /** completeRun, for any event: the waiting record is answered and freed, or the end is kept. */
    method CompleteRun(session: nat, run: nat, kind: EventKind)
      requires Valid()
      modifies this`terminal, this`records, this`answers, this`ended, this`runs
      ensures Valid() && Now() == Step(old(Now()), Complete(session, run, kind))
      ensures if session in managed && old(records)[managed[session]].activeRun == Some(run) && old(records)[managed[session]].promptId.Some?
              then records == old(records)[managed[session] := Record(None, None)] && terminal == old(terminal)
                   && |answers| == |old(answers)| + 1 && answers[..|old(answers)|] == old(answers)
                   && answers[|old(answers)|].id == old(records)[managed[session]].promptId && answers[|old(answers)|].reason == (if kind == RunCancelled then CancelledTurn else EndTurn)
              else records == old(records) && answers == old(answers) && terminal == old(terminal)[run := kind]
    {
      StepKeeps(Now(), Complete(session, run, kind));
      if session !in managed || records[managed[session]].activeRun != Some(run) || records[managed[session]].promptId == None {
        KeepEnd(session, run, kind);
      } else {
        ReplyTo(session, run, kind);
      }
    }

    method KeepEnd(session: nat, run: nat, kind: EventKind)
      requires WaitingRecord(Now(), session, run).None?
      modifies this`terminal, this`ended, this`runs
      ensures Now() == AfterComplete(old(Now()), session, run, kind)
    {
      ended := if Misnamed(Now(), session, run) then ended else ended + {run};
      runs := runs + {run};
      terminal := terminal[run := kind];
    }

    method ReplyTo(session: nat, run: nat, kind: EventKind)
      requires WaitingRecord(Now(), session, run).Some?
      modifies this`records, this`answers, this`ended, this`runs
      ensures Now() == AfterComplete(old(Now()), session, run, kind) && |answers| == |old(answers)| + 1
    {
      var record := managed[session];
      var id := records[record].promptId;
      answers := answers + [Answer(PromptFor(Now(), record, run), id, StopReason(kind))];
      ended := ended + {run};
      runs := runs + {run};
      records := records[record := Record(None, None)];
    }
  }
}

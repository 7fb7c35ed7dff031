/** Subagent runs whose long payloads live in a content-addressed blob store beside the rows.
    Writers take the database's write lock before they install blobs; a writer that fails rolls
    back and then, under the lock again, deletes what it installed and nobody references. Any step
    can fail, and the process can stop at any point. */
module Blobs {
  import opened Common

  /** A payload: its length and an identity that stands for its content. */
  datatype Payload = Payload(size: nat, content: nat)

  /** SHA-256, taken as injective. */
  datatype Digest = Sum(payload: Payload)

  const INLINE_LIMIT: nat := 4096
  const BRACKETS: Payload := Payload(2, 0)

  datatype Field = Inline(payload: Payload) | Spilled(digest: Digest)

  datatype Run = Run(output: Payload, transcript: Payload)

  datatype Row = Row(output: Field, transcript: Field)

  type BlobStore = map<Digest, Payload>

  /** loadText and loadBytes. */
  function LoadField(f: Field, blobs: BlobStore): Option<Payload> {
    match f
    case Inline(payload) => Some(payload)
    case Spilled(d) => if d in blobs then Some(blobs[d]) else None
  }

  /** decodeRun. */
  function Decode(row: Row, blobs: BlobStore): Option<Run> {
    match (LoadField(row.output, blobs), LoadField(row.transcript, blobs))
    case (Some(output), Some(transcript)) => Some(Run(output, transcript))
    case _ => None
  }

  /** An empty transcript is stored as an empty list. */
  function Stored(run: Run): Run {
    if run.transcript.size == 0 then run.(transcript := BRACKETS) else run
  }

  // ---------------------------------------------------------------- writers

  datatype Writer =
    | Waiting(id: nat, run: Run, create: bool)
    | Encoding(id: nat, run: Run, create: bool, created: set<Digest>, output: Option<Field>)
    | Encoded(id: nat, run: Run, create: bool, created: set<Digest>, row: Row)
    | Checking(id: nat, run: Run, created: set<Digest>, row: Row, todo: set<Digest>)
    | Failing(created: set<Digest>)
    | Cleaning(created: set<Digest>)
    | Sweeping(created: set<Digest>, todo: set<Digest>, clean: bool)

  /** Rows, blobs, the holder of the write lock, and for every row the run it was written for. */
  datatype State = State(rows: map<nat, Row>, blobs: BlobStore, lock: Option<nat>, writers: map<nat, Writer>, saved: map<nat, Run>)

  /** How one access ends: it works, it fails without effect, or it takes effect and still reports an error. */
  datatype Fate = Works | Fails | Ambiguous

  datatype Op =
    | Open(w: nat, id: nat, run: Run, create: bool)
    | Lock(w: nat, fate: Fate)
    | SpillOutput(w: nat, fate: Fate)
    | SpillTranscript(w: nat, fate: Fate)
    | WriteRow(w: nat, fate: Fate)
    | Check(w: nat, d: Digest, fate: Fate)
    | Commit(w: nat, fate: Fate)
    | Rollback(w: nat)
    | LockCleanup(w: nat, fate: Fate)
    | Sweep(w: nat, d: Digest, readable: bool, fate: Fate)
    | EndCleanup(w: nat)
    | DropRow(id: nat)
    | Crash

  function Become(st: State, w: nat, writer: Writer): State { st.(writers := st.writers[w := writer]) }

  function Leave(st: State, w: nat): State { st.(writers := st.writers - {w}, lock := if st.lock == Some(w) then None else st.lock) }

  function Spill(payload: Payload): Field {
    if payload.size <= INLINE_LIMIT then Inline(payload) else Spilled(Sum(payload))
  }

  /** InstallAt for a spilled payload; an inline one touches nothing. */
  function Install(blobs: BlobStore, f: Field): BlobStore {
    match f
    case Inline(_) => blobs
    case Spilled(d) => blobs[d := d.payload]
  }

  /** The digests this installation created. */
  function Created(blobs: BlobStore, f: Field): set<Digest> {
    if f.Spilled? && f.digest !in blobs then {f.digest} else {}
  }

  predicate Refers(row: Row, d: Digest) { row.output == Spilled(d) || row.transcript == Spilled(d) }

  predicate Referenced(rows: map<nat, Row>, d: Digest) { exists id :: id in rows && Refers(rows[id], d) }

  function Without(blobs: BlobStore, d: Digest, fate: Fate): BlobStore {
    if fate == Fails then blobs else blobs - {d}
  }

  function SpillStep(st: State, w: nat, f: Field, created: set<Digest>, next: set<Digest> -> Writer, fate: Fate): State {
    match fate
    case Works => Become(st.(blobs := Install(st.blobs, f)), w, next(created + Created(st.blobs, f)))
    case Fails => Become(st, w, Failing(created))
    case Ambiguous => Become(st.(blobs := Install(st.blobs, f)), w, Failing(created))
  }

  function Step(st: State, op: Op): State {
    match op
    case Open(w, id, run, create) =>
      if w in st.writers then st else Become(st, w, Waiting(id, run, create))
    case Lock(w, fate) =>
      if w in st.writers && st.writers[w].Waiting? && st.lock == None then
        var x := st.writers[w];
        if fate == Works then Become(st.(lock := Some(w)), w, Encoding(x.id, x.run, x.create, {}, None)) else Leave(st, w)
      else st
    case SpillOutput(w, fate) =>
      if w in st.writers && st.writers[w].Encoding? && st.writers[w].output == None then
        var x := st.writers[w];
        var f := Spill(Stored(x.run).output);
        SpillStep(st, w, f, x.created, created => Encoding(x.id, x.run, x.create, created, Some(f)), fate)
      else st
    case SpillTranscript(w, fate) =>
      if w in st.writers && st.writers[w].Encoding? && st.writers[w].output.Some? then
        var x := st.writers[w];
        var f := Spill(Stored(x.run).transcript);
        SpillStep(st, w, f, x.created, created => Encoded(x.id, x.run, x.create, created, Row(x.output.value, f)), fate)
      else st
    case WriteRow(w, fate) =>
      // An insert fails on an existing row, an update on a missing one.
      if w in st.writers && st.writers[w].Encoded? then
        var x := st.writers[w];
        if fate == Works && x.create == (x.id !in st.rows) then Become(st, w, Checking(x.id, x.run, x.created, x.row, x.created))
        else Become(st, w, Failing(x.created))
      else st
    case Check(w, d, fate) =>
      if w in st.writers && st.writers[w].Checking? && d in st.writers[w].todo then
        var x := st.writers[w];
        if fate != Works then Become(st, w, Failing(x.created))
        else
          var rows := st.rows[x.id := x.row];
          Become(if Referenced(rows, d) then st else st.(blobs := st.blobs - {d}), w, Checking(x.id, x.run, x.created, x.row, x.todo - {d}))
      else st
    case Commit(w, fate) =>
      if w in st.writers && st.writers[w].Checking? && st.writers[w].todo == {} then
        var x := st.writers[w];
        var after := st.(rows := st.rows[x.id := x.row], saved := st.saved[x.id := Stored(x.run)]);
        (match fate
         case Works => Leave(after, w)
         case Fails => Become(st, w, Failing(x.created))
         case Ambiguous => Become(after, w, Failing(x.created)))
      else st
    case Rollback(w) =>
      if w in st.writers && st.writers[w].Failing? then
        var x := st.writers[w];
        if x.created == {} then Leave(st, w) else Become(st.(lock := None), w, Cleaning(x.created))
      else st
    case LockCleanup(w, fate) =>
      if w in st.writers && st.writers[w].Cleaning? && st.lock == None then
        var x := st.writers[w];
        if fate == Works then Become(st.(lock := Some(w)), w, Sweeping(x.created, x.created, true)) else Leave(st, w)
      else st
    case Sweep(w, d, readable, fate) =>
      if w in st.writers && st.writers[w].Sweeping? && d in st.writers[w].todo then
        var x := st.writers[w];
        if !readable then Become(st, w, Sweeping(x.created, x.todo - {d}, false))
        else if Referenced(st.rows, d) then Become(st, w, Sweeping(x.created, x.todo - {d}, x.clean))
        else Become(st.(blobs := Without(st.blobs, d, fate)), w, Sweeping(x.created, x.todo - {d}, x.clean && fate == Works))
      else st
    case EndCleanup(w) =>
      if w in st.writers && st.writers[w].Sweeping? then Leave(st, w) else st
    case DropRow(id) =>
      if st.lock == None then st.(rows := st.rows - {id}, saved := st.saved - {id}) else st
    case Crash => st.(lock := None, writers := map[])
  }

  const START: State := State(map[], map[], None, map[], map[])

  function After(ops: seq<Op>): State {
    if ops == [] then START else Step(After(ops[..|ops| - 1]), ops[|ops| - 1])
  }

  // ---------------------------------------------------------------- what every step keeps

  ghost predicate BlobsOk(blobs: BlobStore) { forall d :: d in blobs ==> blobs[d] == d.payload }

  ghost predicate RowsOk(rows: map<nat, Row>, saved: map<nat, Run>, blobs: BlobStore) {
    forall id :: id in rows ==> id in saved && Decode(rows[id], blobs) == Some(saved[id])
  }

  predicate Holds(x: Writer) { !x.Waiting? && !x.Cleaning? }

  ghost predicate LockOk(lock: Option<nat>, writers: map<nat, Writer>) {
    && (lock.Some? ==> lock.value in writers)
    && forall w :: w in writers ==> (Holds(writers[w]) <==> lock == Some(w))
  }

  ghost predicate Present(f: Field, blobs: BlobStore) { f.Spilled? ==> f.digest in blobs }

  ghost predicate RowFor(row: Row, run: Run, created: set<Digest>, blobs: BlobStore) {
    && row == Row(Spill(Stored(run).output), Spill(Stored(run).transcript))
    && Present(row.output, blobs) && Present(row.transcript, blobs)
    && forall d :: d in created ==> Refers(row, d)
  }

  ghost predicate WriterOk(st: State, x: Writer) {
    match x
    case Encoding(id, run, _, created, output) =>
      if output.None? then created == {}
      else
        && output.value == Spill(Stored(run).output) && Present(output.value, st.blobs)
        && forall d :: d in created ==> output.value == Spilled(d)
    case Encoded(id, run, _, created, row) => RowFor(row, run, created, st.blobs)
    case Checking(id, run, created, row, todo) => RowFor(row, run, created, st.blobs) && todo <= created
    case Sweeping(created, todo, clean) =>
      clean ==> forall d :: d in created && d !in todo && d in st.blobs ==> Referenced(st.rows, d)
    case _ => true
  }

  ghost predicate Inv(st: State) {
    && BlobsOk(st.blobs) && RowsOk(st.rows, st.saved, st.blobs) && LockOk(st.lock, st.writers)
    && forall w :: w in st.writers ==> WriterOk(st, st.writers[w])
  }

  /** Writers that do not hold the lock are not affected by what the holder does. */
  lemma OthersOk(st: State, after: State, w: nat)
    requires Inv(st) && st.lock in {None, Some(w)} && after.writers - {w} == st.writers - {w}
    requires BlobsOk(after.blobs) && RowsOk(after.rows, after.saved, after.blobs)
    requires w in after.writers ==> WriterOk(after, after.writers[w]) && (Holds(after.writers[w]) <==> after.lock == Some(w))
    requires after.lock in {None, Some(w)} && (after.lock == Some(w) ==> w in after.writers)
    ensures Inv(after)
  {
    forall x | x in after.writers ensures WriterOk(after, after.writers[x]) && (Holds(after.writers[x]) <==> after.lock == Some(x)) {
      if x != w {
        assert x in after.writers - {w};
        assert x in st.writers && after.writers[x] == st.writers[x] by { assert (after.writers - {w})[x] == (st.writers - {w})[x]; }
      }
    }
  }

  /** A step that touches neither the rows nor the blobs. */
  lemma MoveOk(st: State, w: nat, x: Writer, lock: Option<nat>)
    requires Inv(st) && st.lock in {None, Some(w)} && WriterOk(st, x) && lock == if Holds(x) then Some(w) else None
    ensures Inv(Become(st.(lock := lock), w, x))
  {
    OthersOk(st, Become(st.(lock := lock), w, x), w);
  }

  lemma LeaveOk(st: State, w: nat)
    requires Inv(st) && w in st.writers
    ensures Inv(Leave(st, w))
  {
  }

  lemma InstallRows(st: State, f: Field)
    requires BlobsOk(st.blobs) && RowsOk(st.rows, st.saved, st.blobs)
    ensures BlobsOk(Install(st.blobs, f)) && RowsOk(st.rows, st.saved, Install(st.blobs, f)) && Present(f, Install(st.blobs, f))
    ensures forall g: Field :: Present(g, st.blobs) ==> Present(g, Install(st.blobs, f))
  {
    var blobs := Install(st.blobs, f);
    forall id | id in st.rows ensures id in st.saved && Decode(st.rows[id], blobs) == Some(st.saved[id]) {
      var row := st.rows[id];
      assert Decode(row, st.blobs) == Some(st.saved[id]);
      LoadInstalled(st.blobs, f, row.output);
      LoadInstalled(st.blobs, f, row.transcript);
    }
  }

  lemma LoadInstalled(blobs: BlobStore, f: Field, g: Field)
    requires BlobsOk(blobs) && LoadField(g, blobs).Some?
    ensures LoadField(g, Install(blobs, f)) == LoadField(g, blobs)
  {
  }

  /** Deleting a blob no row refers to harms no row. */
  lemma DeleteRows(rows: map<nat, Row>, saved: map<nat, Run>, blobs: BlobStore, d: Digest)
    requires BlobsOk(blobs) && RowsOk(rows, saved, blobs) && !Referenced(rows, d)
    ensures BlobsOk(blobs - {d}) && RowsOk(rows, saved, blobs - {d})
  {
    forall id | id in rows ensures id in saved && Decode(rows[id], blobs - {d}) == Some(saved[id]) {
      assert !Refers(rows[id], d);
      assert Decode(rows[id], blobs) == Some(saved[id]);
    }
  }

  lemma SpillOk(st: State, w: nat, f: Field, created: set<Digest>, next: set<Digest> -> Writer, fate: Fate)
    requires Inv(st) && st.lock == Some(w) && Holds(next(created + Created(st.blobs, f)))
    requires BlobsOk(Install(st.blobs, f)) && Present(f, Install(st.blobs, f)) ==>
               WriterOk(st.(blobs := Install(st.blobs, f)), next(created + Created(st.blobs, f)))
    ensures Inv(SpillStep(st, w, f, created, next, fate))
  {
    InstallRows(st, f);
    var after := SpillStep(st, w, f, created, next, fate);
    OthersOk(st, after, w);
  }

  /** What was spilled loads back. */
  lemma SpilledDecodes(row: Row, run: Run, created: set<Digest>, blobs: BlobStore)
    requires BlobsOk(blobs) && RowFor(row, run, created, blobs)
    ensures Decode(row, blobs) == Some(Stored(run))
  {
  }

  lemma CommitOk(st: State, w: nat, x: Writer, after: State)
    requires Inv(st) && st.lock == Some(w) && x.Checking? && WriterOk(st, x)
    requires after == st.(rows := st.rows[x.id := x.row], saved := st.saved[x.id := Stored(x.run)])
    ensures Inv(Leave(after, w)) && Inv(Become(after, w, Failing(x.created)))
  {
    SpilledDecodes(x.row, x.run, x.created, st.blobs);
    assert RowsOk(after.rows, after.saved, after.blobs);
    OthersOk(st, Become(after, w, Failing(x.created)), w);
    OthersOk(st, Leave(after, w), w);
  }

  lemma SpillOutputOk(st: State, w: nat, fate: Fate)
    requires Inv(st) && w in st.writers && st.writers[w].Encoding? && st.writers[w].output == None
    ensures Inv(Step(st, SpillOutput(w, fate)))
  {
    var x := st.writers[w];
    assert WriterOk(st, x) && st.lock == Some(w);
    var f := Spill(Stored(x.run).output);
    SpillOk(st, w, f, x.created, created => Encoding(x.id, x.run, x.create, created, Some(f)), fate);
  }

  lemma SpillTranscriptOk(st: State, w: nat, fate: Fate)
    requires Inv(st) && w in st.writers && st.writers[w].Encoding? && st.writers[w].output.Some?
    ensures Inv(Step(st, SpillTranscript(w, fate)))
  {
    var x := st.writers[w];
    assert WriterOk(st, x) && st.lock == Some(w);
    var f := Spill(Stored(x.run).transcript);
    InstallRows(st, f);
    SpillOk(st, w, f, x.created, created => Encoded(x.id, x.run, x.create, created, Row(x.output.value, f)), fate);
  }

  /** The check before a commit finds every created blob referenced by the row being written. */
  lemma CheckOk(st: State, w: nat, d: Digest, fate: Fate)
    requires Inv(st) && w in st.writers && st.writers[w].Checking? && d in st.writers[w].todo
    ensures Inv(Step(st, Check(w, d, fate))) && Step(st, Check(w, d, fate)).blobs == st.blobs
  {
    var x := st.writers[w];
    assert WriterOk(st, x) && st.lock == Some(w);
    var rows := st.rows[x.id := x.row];
    assert x.id in rows && Refers(rows[x.id], d);
    MoveOk(st, w, Failing(x.created), Some(w));
    MoveOk(st, w, Checking(x.id, x.run, x.created, x.row, x.todo - {d}), Some(w));
  }

  lemma SweepOk(st: State, w: nat, d: Digest, readable: bool, fate: Fate)
    requires Inv(st) && w in st.writers && st.writers[w].Sweeping? && d in st.writers[w].todo
    ensures Inv(Step(st, Sweep(w, d, readable, fate)))
  {
    var x := st.writers[w];
    assert WriterOk(st, x) && st.lock == Some(w);
    if !readable {
      MoveOk(st, w, Sweeping(x.created, x.todo - {d}, false), Some(w));
    } else if Referenced(st.rows, d) {
      MoveOk(st, w, Sweeping(x.created, x.todo - {d}, x.clean), Some(w));
    } else {
      DeleteRows(st.rows, st.saved, st.blobs, d);
      OthersOk(st, Step(st, Sweep(w, d, readable, fate)), w);
    }
  }

  lemma OpenOk(st: State, w: nat, x: Writer)
    requires Inv(st) && w !in st.writers && x.Waiting?
    ensures Inv(Become(st, w, x))
  {
  }

  lemma RowStepOk(st: State, w: nat, fate: Fate)
    requires Inv(st) && w in st.writers && st.writers[w].Encoded?
    ensures Inv(Step(st, WriteRow(w, fate)))
  {
    var x := st.writers[w];
    assert WriterOk(st, x) && st.lock == Some(w);
    MoveOk(st, w, Checking(x.id, x.run, x.created, x.row, x.created), Some(w));
    MoveOk(st, w, Failing(x.created), Some(w));
  }

  lemma CommitStepOk(st: State, w: nat, fate: Fate)
    requires Inv(st) && w in st.writers && st.writers[w].Checking? && st.writers[w].todo == {}
    ensures Inv(Step(st, Commit(w, fate)))
  {
    var x := st.writers[w];
    assert WriterOk(st, x) && st.lock == Some(w);
    MoveOk(st, w, Failing(x.created), Some(w));
    CommitOk(st, w, x, st.(rows := st.rows[x.id := x.row], saved := st.saved[x.id := Stored(x.run)]));
  }

  lemma LockStepsOk(st: State, w: nat, fate: Fate)
    requires Inv(st) && w in st.writers
    ensures st.writers[w].Waiting? ==> Inv(Step(st, Lock(w, fate)))
    ensures st.writers[w].Cleaning? ==> Inv(Step(st, LockCleanup(w, fate)))
    ensures st.writers[w].Failing? ==> Inv(Step(st, Rollback(w)))
  {
    var x := st.writers[w];
    LeaveOk(st, w);
    if x.Waiting? && st.lock == None { MoveOk(st, w, Encoding(x.id, x.run, x.create, {}, None), Some(w)); }
    if x.Cleaning? && st.lock == None { MoveOk(st, w, Sweeping(x.created, x.created, true), Some(w)); }
    if x.Failing? { MoveOk(st, w, Cleaning(x.created), None); }
  }

  lemma StepOk(st: State, op: Op)
    requires Inv(st)
    ensures Inv(Step(st, op))
  {
    match op
    case Open(w, id, run, create) => if w !in st.writers { OpenOk(st, w, Waiting(id, run, create)); }
    case Lock(w, fate) => if w in st.writers { LockStepsOk(st, w, fate); }
    case LockCleanup(w, fate) => if w in st.writers { LockStepsOk(st, w, fate); }
    case Rollback(w) => if w in st.writers { LockStepsOk(st, w, Works); }
    case SpillOutput(w, fate) =>
      if w in st.writers && st.writers[w].Encoding? && st.writers[w].output == None { SpillOutputOk(st, w, fate); }
    case SpillTranscript(w, fate) =>
      if w in st.writers && st.writers[w].Encoding? && st.writers[w].output.Some? { SpillTranscriptOk(st, w, fate); }
    case WriteRow(w, fate) => if w in st.writers && st.writers[w].Encoded? { RowStepOk(st, w, fate); }
    case Check(w, d, fate) => if w in st.writers && st.writers[w].Checking? && d in st.writers[w].todo { CheckOk(st, w, d, fate); }
    case Commit(w, fate) => if w in st.writers && st.writers[w].Checking? && st.writers[w].todo == {} { CommitStepOk(st, w, fate); }
    case Sweep(w, d, readable, fate) =>
      if w in st.writers && st.writers[w].Sweeping? && d in st.writers[w].todo { SweepOk(st, w, d, readable, fate); }
    case EndCleanup(w) => if w in st.writers { LeaveOk(st, w); }
    case DropRow(id) =>
    case Crash =>
  }

  // ---------------------------------------------------------------- every interleaving

  lemma {:induction false} AfterInv(ops: seq<Op>)
    ensures Inv(After(ops))
  {
    if ops != [] {
      AfterInv(ops[..|ops| - 1]);
      StepOk(After(ops[..|ops| - 1]), ops[|ops| - 1]);
    }
  }

  /** Whatever the interleaving, the failures and the crashes, every committed row decodes to
      exactly the run it was written for. */
  lemma CommittedRowsDecode(ops: seq<Op>, id: nat)
    requires id in After(ops).rows
    ensures id in After(ops).saved && Decode(After(ops).rows[id], After(ops).blobs) == Some(After(ops).saved[id])
  {
    AfterInv(ops);
  }

  // ---------------------------------------------------------------- a cleanup that nothing disturbs

  function Steps(st: State, ops: seq<Op>): State {
    if ops == [] then st else Step(Steps(st, ops[..|ops| - 1]), ops[|ops| - 1])
  }

  lemma StepsSnoc(st: State, ops: seq<Op>, op: Op)
    ensures Steps(st, ops + [op]) == Step(Steps(st, ops), op)
  {
    assert (ops + [op])[..|ops|] == ops;
  }

  /** What a writer does from its failure on, up to its n-th sweep. */
  function CleanupOps(w: nat, ds: seq<Digest>, n: nat): seq<Op>
    requires n <= |ds|
  {
    if n == 0 then [Rollback(w), LockCleanup(w, Works)] else CleanupOps(w, ds, n - 1) + [Sweep(w, ds[n - 1], true, Works)]
  }

  ghost function Unreferenced(rows: map<nat, Row>, swept: set<Digest>): set<Digest> { set d | d in swept && !Referenced(rows, d) }

  /** The writer has the lock again and has looked at some of its blobs. */
  ghost predicate SweptSome(st: State, after: State, w: nat, created: set<Digest>, swept: set<Digest>) {
    && after.rows == st.rows && after.saved == st.saved && after.lock == Some(w)
    && after.blobs == st.blobs - Unreferenced(st.rows, swept)
    && after.writers == st.writers[w := Sweeping(created, created - swept, true)]
  }

  lemma CleanupBegins(st: State, w: nat, created: set<Digest>)
    requires Inv(st) && w in st.writers && st.writers[w] == Failing(created) && created != {}
    ensures SweptSome(st, Step(Step(st, Rollback(w)), LockCleanup(w, Works)), w, created, {})
  {
    var freed := Step(st, Rollback(w));
    assert freed.writers == st.writers[w := Cleaning(created)] && freed.lock == None;
    assert st.blobs - Unreferenced(st.rows, {}) == st.blobs && created - {} == created;
  }

  lemma SweepsOne(st: State, before: State, w: nat, created: set<Digest>, swept: set<Digest>, d: Digest)
    requires SweptSome(st, before, w, created, swept) && d in created && d !in swept
    ensures SweptSome(st, Step(before, Sweep(w, d, true, Works)), w, created, swept + {d})
  {
    assert Unreferenced(st.rows, swept + {d}) == Unreferenced(st.rows, swept) + if Referenced(st.rows, d) then {} else {d};
    assert created - swept - {d} == created - (swept + {d});
    assert st.blobs - Unreferenced(st.rows, swept) - {d} == st.blobs - (Unreferenced(st.rows, swept) + {d});
  }

  ghost function First(ds: seq<Digest>, n: nat): set<Digest>
    requires n <= |ds|
  {
    if n == 0 then {} else First(ds, n - 1) + {ds[n - 1]}
  }

  lemma {:induction false} FirstIs(ds: seq<Digest>, n: nat, d: Digest)
    requires n <= |ds|
    ensures d in First(ds, n) <==> exists i :: 0 <= i < n && ds[i] == d
  {
    if n > 0 { FirstIs(ds, n - 1, d); }
  }

  lemma {:induction false} SweepsDelete(st: State, w: nat, ds: seq<Digest>, n: nat, created: set<Digest>)
    requires Inv(st) && w in st.writers && st.writers[w] == Failing(created) && n <= |ds| && ds != []
    requires (forall d :: d in ds ==> d in created) && forall i, j :: 0 <= i < j < |ds| ==> ds[i] != ds[j]
    ensures SweptSome(st, Steps(st, CleanupOps(w, ds, n)), w, created, First(ds, n))
  {
    if n == 0 {
      assert ds[0] in created;
      CleanupBegins(st, w, created);
      assert [Rollback(w), LockCleanup(w, Works)] == [] + [Rollback(w)] + [LockCleanup(w, Works)];
      StepsSnoc(st, [], Rollback(w));
      StepsSnoc(st, [] + [Rollback(w)], LockCleanup(w, Works));
    } else {
      SweepsDelete(st, w, ds, n - 1, created);
      StepsSnoc(st, CleanupOps(w, ds, n - 1), Sweep(w, ds[n - 1], true, Works));
      FirstIs(ds, n - 1, ds[n - 1]);
      SweepsOne(st, Steps(st, CleanupOps(w, ds, n - 1)), w, created, First(ds, n - 1), ds[n - 1]);
    }
  }

  /** A failed writer that has installed blobs and whose cleanup nothing disturbs deletes exactly those of
      them that no row refers to, leaves rows and all other blobs alone, and gives the lock back. */
  lemma CleanupDeletes(st: State, w: nat, ds: seq<Digest>)
    requires Inv(st) && w in st.writers && st.writers[w].Failing? && ds != [] && (forall d :: d in ds <==> d in st.writers[w].created)
    requires forall i, j :: 0 <= i < j < |ds| ==> ds[i] != ds[j]
    ensures var created, after := st.writers[w].created, Steps(st, CleanupOps(w, ds, |ds|) + [EndCleanup(w)]);
            && after.rows == st.rows && after.lock == None && after.writers == st.writers - {w}
            && after.blobs == st.blobs - set d | d in created && !Referenced(st.rows, d)
  {
    var created := st.writers[w].created;
    SweepsDelete(st, w, ds, |ds|, created);
    StepsSnoc(st, CleanupOps(w, ds, |ds|), EndCleanup(w));
    forall d ensures d in First(ds, |ds|) <==> d in created { FirstIs(ds, |ds|, d); }
    assert First(ds, |ds|) == created;
    CleanupEnds(st, Steps(st, CleanupOps(w, ds, |ds|)), w, created);
  }

  lemma CleanupEnds(st: State, swept: State, w: nat, created: set<Digest>)
    requires SweptSome(st, swept, w, created, created)
    ensures var after := Step(swept, EndCleanup(w));
            && after.rows == st.rows && after.lock == None && after.writers == st.writers - {w}
            && after.blobs == st.blobs - set d | d in created && !Referenced(st.rows, d)
  {
    assert swept.writers - {w} == st.writers - {w};
  }

  /** A commit that takes effect and still reports an error leaves the row in place, and its blobs are
      looked over again before the writer is done. */
  lemma AmbiguousCommit(st: State, w: nat)
    requires Inv(st) && w in st.writers && st.writers[w].Checking? && st.writers[w].todo == {}
    ensures var x, after := st.writers[w], Step(st, Commit(w, Ambiguous));
            && after.rows == st.rows[x.id := x.row] && after.blobs == st.blobs
            && after.writers == st.writers[w := Failing(x.created)]
            && forall d :: d in x.created ==> Referenced(after.rows, d)
  {
    var x := st.writers[w];
    assert WriterOk(st, x);
    forall d | d in x.created ensures Referenced(st.rows[x.id := x.row], d) { assert Refers(st.rows[x.id := x.row][x.id], d); }
  }

  // ---------------------------------------------------------------- what rows hold

  /** Up to 4096 bytes stand in the row itself, more than that in the blob store. */
  ghost predicate Sized(f: Field) {
    match f
    case Inline(payload) => payload.size <= 4096
    case Spilled(d) => d.payload.size > 4096
  }

  ghost predicate RowsSized(rows: map<nat, Row>, saved: map<nat, Run>) {
    forall id :: id in rows ==> Sized(rows[id].output) && Sized(rows[id].transcript) && id in saved && saved[id].transcript.size > 0
  }

  /** Only commits write rows. */
  lemma OthersWriteNone(st: State, op: Op)
    requires !op.Commit?
    ensures forall id :: id in Step(st, op).rows ==> id in st.rows && Step(st, op).rows[id] == st.rows[id]
    ensures forall id :: id in Step(st, op).rows && id in st.saved ==> id in Step(st, op).saved && Step(st, op).saved[id] == st.saved[id]
  {
  }

  lemma FewerSized(rows: map<nat, Row>, saved: map<nat, Run>, fewer: map<nat, Row>, kept: map<nat, Run>)
    requires RowsSized(rows, saved) && forall id :: id in fewer ==> id in rows && fewer[id] == rows[id]
    requires forall id :: id in fewer && id in saved ==> id in kept && kept[id] == saved[id]
    ensures RowsSized(fewer, kept)
  {
  }

  lemma CommitSized(st: State, w: nat, fate: Fate)
    requires RowsSized(st.rows, st.saved) && w in st.writers && WriterOk(st, st.writers[w])
    ensures RowsSized(Step(st, Commit(w, fate)).rows, Step(st, Commit(w, fate)).saved)
  {
  }

  lemma StepSized(st: State, op: Op)
    requires Inv(st) && RowsSized(st.rows, st.saved)
    ensures RowsSized(Step(st, op).rows, Step(st, op).saved)
  {
    if op.Commit? && op.w in st.writers {
      CommitSized(st, op.w, op.fate);
    } else if !op.Commit? {
      OthersWriteNone(st, op);
      FewerSized(st.rows, st.saved, Step(st, op).rows, Step(st, op).saved);
    }
  }

  /** Whatever the interleaving, no committed row holds a long payload or an empty transcript. */
  lemma {:induction false} CommittedRowsSized(ops: seq<Op>)
    ensures RowsSized(After(ops).rows, After(ops).saved)
  {
    if ops != [] {
      AfterInv(ops[..|ops| - 1]);
      CommittedRowsSized(ops[..|ops| - 1]);
      StepSized(After(ops[..|ops| - 1]), ops[|ops| - 1]);
    }
  }

  /** A writer that has checked all its blobs commits the run it was opened with: its output, and its
      transcript or, where that is empty, two brackets. */
  lemma CommitSaves(st: State, w: nat)
    requires Inv(st) && w in st.writers && st.writers[w].Checking? && st.writers[w].todo == {}
    ensures var x, after := st.writers[w], Step(st, Commit(w, Works));
            x.id in after.rows && Decode(after.rows[x.id], after.blobs) ==
            Some(Run(x.run.output, if x.run.transcript.size == 0 then Payload(2, 0) else x.run.transcript))
  {
    assert WriterOk(st, st.writers[w]);
  }

  /** A new row is not written over one that is there, and an update makes no row. */
  lemma InsertRefused(st: State, w: nat, fate: Fate)
    requires w in st.writers && st.writers[w].Encoded? && (st.writers[w].create <==> st.writers[w].id in st.rows)
    ensures Step(st, WriteRow(w, fate)) == st.(writers := st.writers[w := Failing(st.writers[w].created)])
  {
  }

  /** No step, a failed writer's cleanup included, deletes a blob that a committed row refers to. */
  lemma ReferencedSurvives(ops: seq<Op>, op: Op, d: Digest)
    requires Referenced(After(ops).rows, d) || Referenced(Step(After(ops), op).rows, d)
    ensures (Referenced(After(ops).rows, d) ==> d in After(ops).blobs) && d in Step(After(ops), op).blobs
  {
    AfterInv(ops);
    StepOk(After(ops), op);
    ReferencedPresent(After(ops), d);
    ReferencedPresent(Step(After(ops), op), d);
    if !Referenced(Step(After(ops), op).rows, d) {
      StillPresent(After(ops), op, d);
    }
  }

  lemma ReferencedPresent(st: State, d: Digest)
    requires Inv(st)
    ensures Referenced(st.rows, d) ==> d in st.blobs
  {
    if Referenced(st.rows, d) {
      var id :| id in st.rows && Refers(st.rows[id], d);
      assert Decode(st.rows[id], st.blobs) == Some(st.saved[id]);
    }
  }

  /** Blobs are deleted only while unreferenced. */
  lemma StillPresent(st: State, op: Op, d: Digest)
    requires Inv(st) && Referenced(st.rows, d) && d in st.blobs
    ensures d in Step(st, op).blobs
  {
    match op
    case Check(w, x, fate) => if w in st.writers && st.writers[w].Checking? && x in st.writers[w].todo { CheckOk(st, w, x, fate); }
    case _ =>
  }

  /** A cleanup that met no error leaves none of the failed writer's blobs unless a row refers to it. */
  lemma SweptClean(ops: seq<Op>, w: nat, d: Digest)
    requires var st := After(ops);
             w in st.writers && st.writers[w].Sweeping? && st.writers[w].todo == {} && st.writers[w].clean && d in st.writers[w].created
    ensures d in After(ops).blobs <==> Referenced(After(ops).rows, d)
  {
    AfterInv(ops);
    assert WriterOk(After(ops), After(ops).writers[w]);
    ReferencedPresent(After(ops), d);
  }

  /** At most one writer is past its lock. */
  lemma OneHolder(ops: seq<Op>, w: nat, x: nat)
    requires w in After(ops).writers && x in After(ops).writers && Holds(After(ops).writers[w]) && Holds(After(ops).writers[x])
    ensures w == x
  {
    AfterInv(ops);
  }
}

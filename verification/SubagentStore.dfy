/** The subagent run store as one writer runs it, undisturbed: spilling, writing the row, checking
    the created blobs, committing, and cleaning up after a failure. */
module SubagentStore {
  import opened Common
  import opened Blobs

  /** How the accesses of one write end. */
  datatype Fates = Fates(output: Fate, transcript: Fate, row: Fate, check: bool, commit: Fate, sweep: bool)

  class Store {
    var rows: map<nat, Row>
    var blobs: BlobStore

    /** Blobs hold what their digests say, and every row decodes. */
    ghost predicate Valid()
      reads this
    {
      BlobsOk(blobs) && forall id :: id in rows ==> Decode(rows[id], blobs).Some?
    }

    constructor ()
      ensures Valid() && rows == map[] && blobs == map[]
    {
      rows, blobs := map[], map[];
    }

    /** spillText and spillBytes: a long payload is installed unless it is there. */
    method SpillPayload(payload: Payload, created: set<Digest>, fate: Fate) returns (f: Field, now: set<Digest>, ok: bool)
      requires Valid()
      modifies this`blobs
      ensures Valid() && f == Spill(payload) && ok == (fate == Works)
      ensures blobs == if fate == Fails then old(blobs) else Install(old(blobs), f)
      ensures now == if ok then created + Created(old(blobs), f) else created
    {
      f, now, ok := Spill(payload), created, fate == Works;
      if payload.size <= INLINE_LIMIT || fate == Fails { return; }
      var digest := Sum(payload);
      InstallDecodes(rows, blobs, f);
      if ok && digest !in blobs { now := now + {digest}; }
      blobs := blobs[digest := payload];
    }

    /** cleanupBlobInstall: deletes a blob no committed row refers to. */
    method SweepOne(d: Digest, works: bool)
      requires Valid()
      modifies this`blobs
      ensures Valid()
      ensures blobs == if works && !Referenced(rows, d) then old(blobs) - {d} else old(blobs)
    {
      if works && !Referenced(rows, d) {
        DeleteDecodes(rows, blobs, d);
        blobs := blobs - {d};
      }
    }

    /** cleanupBlobInstalls: every created digest in turn. */
    method SweepAll(created: set<Digest>, works: bool)
      requires Valid()
      modifies this`blobs
      ensures Valid()
      ensures forall d :: d in old(blobs) && (d !in created || Referenced(rows, d) || !works) ==> d in blobs
      ensures forall d :: d in blobs ==> d in old(blobs) && !(works && d in created && !Referenced(rows, d))
    {
      var todo := created;
      while todo != {}
        invariant Valid() && todo <= created
        invariant forall d :: d in old(blobs) && (d !in created - todo || Referenced(rows, d) || !works) ==> d in blobs
        invariant forall d :: d in blobs ==> d in old(blobs) && !(works && d in created - todo && !Referenced(rows, d))
        decreases |todo|
      {
        var d :| d in todo;
        SweepOne(d, works);
        todo := todo - {d};
      }
    }

    /** encodeRun: the output is spilled first, then the transcript. */
    method EncodeRun(run: Run, fates: Fates) returns (row: Row, created: set<Digest>, ok: bool)
      requires Valid()
      modifies this`blobs
      ensures Valid() && ok == (fates.output == Works && fates.transcript == Works)
      ensures row == Row(Spill(Stored(run).output), Spill(Stored(run).transcript))
      ensures ok ==> Present(row.output, blobs) && Present(row.transcript, blobs)
      ensures old(blobs).Keys + created <= blobs.Keys && created !! old(blobs).Keys
      ensures fates.output != Ambiguous && fates.transcript != Ambiguous ==> blobs.Keys == old(blobs).Keys + created
    {
      var stored := Stored(run);
      row := Row(Spill(stored.output), Spill(stored.transcript));
      var output, transcript;
      output, created, ok := SpillPayload(stored.output, {}, fates.output);
      if ok { transcript, created, ok := SpillPayload(stored.transcript, created, fates.transcript); }
    }

    /** Create and Save. A write that succeeds stores a row that decodes to the run. One that fails
        leaves the rows alone (unless the commit took effect and was reported as failed), never loses a
        blob that was there, and, when installs and cleanup work, leaves the blobs as they were. */
    method Write(id: nat, run: Run, create: bool, fates: Fates) returns (ok: bool)
      requires Valid()
      modifies this
      ensures Valid()
      ensures ok ==> create == (id !in old(rows)) && id in rows && rows == old(rows)[id := rows[id]] && Decode(rows[id], blobs) == Some(Stored(run))
      ensures !ok && fates.commit != Ambiguous ==> rows == old(rows)
      ensures old(blobs).Keys <= blobs.Keys
      ensures !ok && fates.commit != Ambiguous && fates.output != Ambiguous && fates.transcript != Ambiguous && fates.sweep ==> blobs == old(blobs)
    {
      ghost var before := blobs;
      var row, created;
      row, created, ok := EncodeRun(run, fates);
      ok := ok && fates.row == Works && create == (id !in rows) && fates.check;
      if ok && fates.commit != Fails {
        SpilledDecodes(row, run, {}, blobs);
        rows := rows[id := row];
        ok := fates.commit == Works;
      } else {
        ok := false;
      }
      if !ok {
        Cleanup(created, fates.sweep);
        if rows == old(rows) { BlobsRestored(rows, before, blobs, created); }
      }
    }

    method Cleanup(created: set<Digest>, works: bool)
      requires Valid()
      modifies this`blobs
      ensures Valid()
      ensures old(blobs).Keys - created <= blobs.Keys <= old(blobs).Keys
      ensures works ==> forall d :: d in created && d in blobs ==> Referenced(rows, d)
    {
      SweepAll(created, works);
    }
  }

  /** Rows that decoded before refer to no blob created since. */
  lemma BlobsRestored(rows: map<nat, Row>, before: BlobStore, after: BlobStore, created: set<Digest>)
    requires BlobsOk(before) && BlobsOk(after) && created !! before.Keys
    requires forall id :: id in rows ==> Decode(rows[id], before).Some?
    ensures (forall d :: d in created && d in after ==> Referenced(rows, d)) && before.Keys <= after.Keys <= before.Keys + created ==> after == before
  {
    forall d | d in created ensures !Referenced(rows, d) {
      forall id | id in rows ensures !Refers(rows[id], d) {
        assert Decode(rows[id], before).Some?;
      }
    }
    if (forall d :: d in created && d in after ==> Referenced(rows, d)) && before.Keys <= after.Keys <= before.Keys + created {
      assert after.Keys == before.Keys;
      assert forall d :: d in before ==> after[d] == d.payload == before[d];
    }
  }

  lemma InstallDecodes(rows: map<nat, Row>, blobs: BlobStore, f: Field)
    requires BlobsOk(blobs) && forall id :: id in rows ==> Decode(rows[id], blobs).Some?
    ensures BlobsOk(Install(blobs, f)) && forall id :: id in rows ==> Decode(rows[id], Install(blobs, f)).Some?
  {
  }

  lemma DeleteDecodes(rows: map<nat, Row>, blobs: BlobStore, d: Digest)
    requires BlobsOk(blobs) && !Referenced(rows, d) && forall id :: id in rows ==> Decode(rows[id], blobs).Some?
    ensures BlobsOk(blobs - {d}) && forall id :: id in rows ==> Decode(rows[id], blobs - {d}).Some?
  {
    forall id | id in rows ensures Decode(rows[id], blobs - {d}).Some? {
      assert !Refers(rows[id], d);
    }
  }
}

/** commitPatchLocal and rollbackHashlineFiles of internal/agent/hashline_edit.go over a
    workspace whose renames and removals may fail at any point. */
module HashlineCommit {
  import opened Common
  import opened Text
  import opened HashlinePrepare

  const EDIT_PREFIX := ".azem-edit"
  const WRITE_PREFIX := ".azem-write"

  function TempName(parent: string, prefix: string, process: nat, serial: nat): string {
    (if parent == "." then "" else parent + "/") + prefix + "-" + Itoa(process) + "-" + Itoa(serial)
  }

  /** The names openRootTemp may choose. */
  ghost predicate IsTemp(path: string) {
    exists parent, prefix, process, serial ::
      (prefix == EDIT_PREFIX || prefix == WRITE_PREFIX) && path == TempName(parent, prefix, process, serial)
  }

  function Parent(path: string): string {
    var parts := Split(path, '/');
    if |parts| == 1 then "." else Join(parts[..|parts| - 1], '/')
  }

  /** The parent of a path is what stands before its last slash. */
  lemma ParentOf(dir: string, base: string)
    requires '/' !in base
    ensures Parent(base) == "." && Parent(dir + ['/'] + base) == dir
  {
    SplitWhole(base, '/');
    SplitAppend(dir, base, '/');
    JoinSplit(dir, '/');
    var parts := Split(dir + ['/'] + base, '/');
    assert parts[..|parts| - 1] == Split(dir, '/');
  }

  /** The last part of a temporary name. */
  lemma TempBase(parent: string, prefix: string, process: nat, serial: nat) returns (base: string)
    requires '/' !in prefix
    ensures '/' !in base && TempName(parent, prefix, process, serial) == (if parent == "." then "" else parent + "/") + base
  {
    var head, p, n := if parent == "." then "" else parent + "/", Itoa(process), Itoa(serial);
    base := prefix + "-" + p + "-" + n;
    assert head + prefix + "-" + p + "-" + n == head + base;
    forall c | c in base ensures c != '/' {
      assert c in prefix || c == '-' || c in p || c in n;
      if c in p { var i :| 0 <= i < |p| && p[i] == c; assert IsDigit(p[i]); }
      if c in n { var i :| 0 <= i < |n| && n[i] == c; assert IsDigit(n[i]); }
    }
  }

  /** A temporary file lies beside the file it is written for. */
  lemma TempBeside(path: string, prefix: string, process: nat, serial: nat)
    requires '/' !in prefix
    ensures Parent(TempName(Parent(path), prefix, process, serial)) == Parent(path)
  {
    var base := TempBase(Parent(path), prefix, process, serial);
    Beside(Parent(path), base);
  }

  lemma Beside(dir: string, base: string)
    requires '/' !in base
    ensures Parent((if dir == "." then "" else dir + "/") + base) == dir
  {
    ParentOf(dir, base);
    assert "" + base == base;
    assert dir + "/" + base == dir + ['/'] + base;
  }

  function Lookup(files: Files, path: string): Option<FileState> {
    if path in files then Some(files[path]) else None
  }

  /** The two states agree everywhere outside temporary names. */
  ghost predicate SameVisible(a: Files, b: Files) {
    forall path :: !IsTemp(path) ==> Lookup(a, path) == Lookup(b, path)
  }

  // ---------------------------------------------------------------- the intended effect

  function NewState(o: Output): FileState { FileState(o.final, o.original.mode) }

  /** The files the first n outputs write. */
  function Written(outputs: seq<Output>, n: nat): Files
    requires n <= |outputs|
  {
    if n == 0 then map[]
    else if outputs[n - 1].remove then Written(outputs, n - 1)
    else Written(outputs, n - 1)[outputs[n - 1].destination := NewState(outputs[n - 1])]
  }

  function Sources(outputs: seq<Output>, n: nat): set<string>
    requires n <= |outputs|
  {
    if n == 0 then {} else Sources(outputs, n - 1) + {outputs[n - 1].source}
  }

  /** One simultaneous update: every source vanishes and every destination appears at once. */
  function Updated(files: Files, outputs: seq<Output>): Files {
    (files - Sources(outputs, |outputs|)) + Written(outputs, |outputs|)
  }

  /** The same effect path by path: a path holds what the file written to it became, else a
      vacated source is gone, else nothing changed. */
  lemma UpdatedAt(files: Files, outputs: seq<Output>, path: string)
    requires DestinationsOk(files, outputs)
    ensures forall i :: 0 <= i < |outputs| && !outputs[i].remove && outputs[i].destination == path ==>
              Lookup(Updated(files, outputs), path) == Some(NewState(outputs[i]))
    ensures (forall i :: 0 <= i < |outputs| ==> outputs[i].remove || outputs[i].destination != path) ==>
              Lookup(Updated(files, outputs), path) == if IsSource(outputs, path) then None else Lookup(files, path)
  {
    WrittenAt(outputs, |outputs|);
    SourcesAt(outputs, |outputs|);
  }

  lemma {:induction false} WrittenAt(outputs: seq<Output>, n: nat)
    requires n <= |outputs|
    requires forall i, j :: 0 <= i < j < |outputs| && !outputs[i].remove && !outputs[j].remove ==> outputs[i].destination != outputs[j].destination
    ensures forall path :: path in Written(outputs, n) <==> exists i :: 0 <= i < n && !outputs[i].remove && outputs[i].destination == path
    ensures forall i :: 0 <= i < n && !outputs[i].remove ==> outputs[i].destination in Written(outputs, n) && Written(outputs, n)[outputs[i].destination] == NewState(outputs[i])
  {
    if n > 0 { WrittenAt(outputs, n - 1); }
  }

  lemma {:induction false} SourcesAt(outputs: seq<Output>, n: nat)
    requires n <= |outputs|
    ensures forall path :: path in Sources(outputs, n) <==> exists i :: 0 <= i < n && outputs[i].source == path
  {
    if n > 0 { SourcesAt(outputs, n - 1); }
  }

  // ---------------------------------------------------------------- the workspace

  datatype RemoveOutcome = Removed | NotFound | RemoveFailed

  datatype CommitResult = Done | Abandoned | RollbackFailed

  class Root {
    var files: Files
    var serial: nat
    const process: nat
    /** How often the system refused an operation or the call was cancelled. */
    ghost var faults: nat

    constructor (files: Files, process: nat)
      ensures this.files == files && this.process == process
    {
      this.files, this.serial, this.process := files, 0, process;
    }

    /** openRootTemp followed by the write: at most 16 names are tried. */
    method WriteTemp(parent: string, prefix: string, state: FileState) returns (name: Option<string>)
      requires prefix == EDIT_PREFIX || prefix == WRITE_PREFIX
      modifies this
      ensures name.None? ==> files == old(files) && faults > old(faults)
      ensures name.Some? ==> faults == old(faults)
      ensures name.Some? ==> IsTemp(name.value) && name.value !in old(files) && files == old(files)[name.value := state]
    {
      for attempt := 0 to 16
        invariant files == old(files) && faults == old(faults)
      {
        var candidate := TempName(parent, prefix, process, serial);
        serial := serial + 1;
        var refused: bool := *;
        if refused {
          faults := faults + 1;
          return None;
        }
        if candidate !in files {
          files := files[candidate := state];
          return Some(candidate);
        }
      }
      faults := faults + 1;
      return None;
    }

    method Rename(from: string, to: string) returns (ok: bool)
      requires from in files
      modifies this`files, this`faults
      ensures if ok then faults == old(faults) else faults > old(faults)
      ensures ok ==> files == (old(files) - {from})[to := old(files)[from]]
      ensures !ok ==> files == old(files)
    {
      ok := *;
      if ok {
        files := (files - {from})[to := files[from]];
      } else {
        faults := faults + 1;
      }
    }

    method Remove(path: string) returns (outcome: RemoveOutcome)
      modifies this`files, this`faults
      ensures if outcome.RemoveFailed? then faults > old(faults) else faults == old(faults)
      ensures outcome.Removed? ==> files == old(files) - {path}
      ensures outcome.NotFound? ==> path !in old(files)
      ensures !outcome.Removed? ==> files == old(files)
    {
      if path !in files {
        return NotFound;
      }
      var refused: bool := *;
      if refused {
        faults := faults + 1;
        return RemoveFailed;
      }
      files := files - {path};
      return Removed;
    }

    /** cleanupHashlineTemps: failures are ignored. */
    method Cleanup(temporary: map<string, string>)
      requires forall d :: d in temporary ==> IsTemp(temporary[d])
      modifies this`files, this`faults
      ensures SameVisible(files, old(files)) && faults >= old(faults)
    {
      var todo := temporary.Keys;
      while todo != {}
        invariant todo <= temporary.Keys
        invariant SameVisible(files, old(files)) && faults >= old(faults)
        decreases todo
      {
        var d :| d in todo;
        var _ := Remove(temporary[d]);
        todo := todo - {d};
      }
    }

    /** writeRootedFile, as rollback calls it: it replaces an existing file through a
        temporary one and creates a missing one in place. */
    method WriteRooted(path: string, state: FileState, exists_: bool) returns (ok: bool)
      requires exists_ <==> path in files
      modifies this
      ensures ok ==> Lookup(files, path) == Some(state)
      ensures faults >= old(faults)
      ensures forall other :: other != path && !IsTemp(other) ==> Lookup(files, other) == Lookup(old(files), other)
    {
      if exists_ {
        var name := WriteTemp(Parent(path), WRITE_PREFIX, state);
        if name.None? {
          return false;
        }
        ok := Rename(name.value, path);
        if !ok {
          var _ := Remove(name.value);
        }
      } else {
        ok := *;
        var created: bool := *;
        if ok {
          files := files[path := state];
        } else if created {
          var partial: string := *;
          files := files[path := FileState(partial, state.mode)];
        }
      }
    }

    /** rollbackHashlineFiles: true when every mutated path was put back. */
    method Rollback(originals: Files, mutated: seq<string>) returns (clean: bool)
      requires forall i :: 0 <= i < |mutated| ==> !IsTemp(mutated[i])
      modifies this
      ensures clean ==> forall path :: path in mutated ==> Lookup(files, path) == Lookup(originals, path)
      ensures faults >= old(faults)
      ensures forall path :: path !in mutated && !IsTemp(path) ==> Lookup(files, path) == Lookup(old(files), path)
    {
      var seen: set<string> := {};
      clean := true;
      for k := 0 to |mutated|
        invariant faults >= old(faults)
        invariant forall path :: path in seen <==> path in mutated[..k]
        invariant clean ==> forall path :: path in seen ==> Lookup(files, path) == Lookup(originals, path)
        invariant forall path :: path !in mutated && !IsTemp(path) ==> Lookup(files, path) == Lookup(old(files), path)
      {
        var path := mutated[k];
        assert mutated[..k + 1] == mutated[..k] + [path];
        if path !in seen {
          seen := seen + {path};
          if path !in originals {
            var outcome := Remove(path);
            if outcome.RemoveFailed? {
              clean := false;
            }
          } else {
            var ok := WriteRooted(path, originals[path], path in files);
            if !ok {
              clean := false;
            }
          }
        }
      }
      assert mutated[..|mutated|] == mutated;
    }

    /** Writes each output's text under a temporary name next to its destination. */
    method StageOutputs(outputs: seq<Output>) returns (temporary: map<string, string>, ok: bool)
      requires OneWriter(outputs)
      modifies this
      ensures forall d :: d in temporary ==> IsTemp(temporary[d]) && temporary[d] !in old(files)
      ensures if ok then faults == old(faults) else faults > old(faults)
      ensures ok ==> temporary.Keys == Written(outputs, |outputs|).Keys
      ensures ok ==> Staged(old(files), files, temporary, Written(outputs, |outputs|))
      ensures !ok ==> SameVisible(files, old(files))
    {
      temporary, ok := map[], true;
      for k := 0 to |outputs|
        invariant ok && faults == old(faults)
        invariant forall d :: d in temporary ==> IsTemp(temporary[d]) && temporary[d] !in old(files)
        invariant temporary.Keys == Written(outputs, k).Keys
        invariant Staged(old(files), files, temporary, Written(outputs, k))
        invariant SameVisible(files, old(files))
      {
        if !outputs[k].remove {
          var o := outputs[k];
          ghost var before := files;
          var cancelled: bool := *;
          var name: Option<string> := None;
          if cancelled {
            faults := faults + 1;
          } else {
            name := WriteTemp(Parent(o.destination), EDIT_PREFIX, NewState(o));
          }
          if name.None? {
            Cleanup(temporary);
            return temporary, false;
          }
          WrittenFresh(outputs, k);
          StageOne(old(files), before, temporary, Written(outputs, k), o.destination, name.value, NewState(o));
          temporary := temporary[o.destination := name.value];
        }
      }
    }

    /** One turn of the rename loop. */
    method RenameOne(rest: map<string, string>, destinations: seq<string>, k: nat, mutated: seq<string>,
                     ghost before: Files, ghost staged: map<string, string>, ghost written: Files, ghost done: set<string>) returns (ok: bool)
      requires k < |destinations| && Renaming(before, files, staged, rest, written, done, destinations, k, mutated)
      modifies this`files, this`faults
      ensures if ok then faults == old(faults) else faults > old(faults)
      ensures ok ==> Renaming(before, files, staged, rest - {destinations[k]}, written, done + {destinations[k]}, destinations, k + 1, mutated + [destinations[k]])
      ensures !ok ==> files == old(files)
    {
      NextRename(before, files, staged, rest, written, done, destinations, k, mutated);
      MidwayStep(before, files, rest, written, done, destinations[k]);
      ok := Rename(rest[destinations[k]], destinations[k]);
      if ok { RenamedOne(before, files, staged, rest, written, done, destinations, k, mutated); }
    }

    /** The rename loop, in sorted order of the destinations. It stops at the first failure. */
    method RenameAll(staged: map<string, string>, ghost before: Files, ghost written: Files)
      returns (mutated: seq<string>, rest: map<string, string>, ok: bool)
      requires Midway(before, files, staged, written, {})
      modifies this`files, this`faults
      ensures if ok then faults == old(faults) else faults > old(faults)
      ensures forall d :: d in mutated ==> d in written
      ensures forall d :: d in rest ==> d in staged && rest[d] == staged[d]
      ensures forall path :: path !in mutated && path !in staged.Values ==> Lookup(files, path) == Lookup(before, path)
      ensures ok ==> files == before + written && forall d :: d in written ==> d in mutated
    {
      var destinations := SortedKeys(staged.Keys);
      mutated, rest, ok := [], staged, true;
      ghost var done: set<string> := {};
      var k := 0;
      while k < |destinations|
        invariant k <= |destinations| && ok && faults == old(faults)
        invariant Renaming(before, files, staged, rest, written, done, destinations, k, mutated)
      {
        RenamingVisible(before, files, staged, rest, written, done, destinations, k, mutated);
        ok := RenameOne(rest, destinations, k, mutated, before, staged, written, done);
        if !ok { return; }
        var d := destinations[k];
        mutated := mutated + [d];
        rest := rest - {d};
        done := done + {d};
        k := k + 1;
      }
      RenamingVisible(before, files, staged, rest, written, done, destinations, k, mutated);
      RenamingEnd(before, files, staged, rest, written, done, destinations, k, mutated);
    }

    /** The removal loop: sources nothing was written to. It stops at the first failure. */
    method RemoveSources(outputs: seq<Output>, renamed: seq<string>, ghost before: Files, ghost written: Files)
      returns (mutated: seq<string>, ok: bool)
      requires files == before + written && NoRepeats(SourceList(outputs))
      requires forall d :: d in renamed <==> d in written
      requires forall i :: 0 <= i < |outputs| ==> outputs[i].source in before
      modifies this`files, this`faults
      ensures if ok then faults == old(faults) else faults > old(faults)
      ensures forall d :: d in mutated ==> d in written || IsSource(outputs, d)
      ensures forall path :: path !in mutated ==> Lookup(files, path) == Lookup(before, path)
      ensures ok ==> files == (before - Sources(outputs, |outputs|)) + written
    {
      mutated, ok := renamed, true;
      ghost var gone: set<string> := {};
      for k := 0 to |outputs|
        invariant ok && faults == old(faults)
        invariant Removing(before, files, written, outputs, k, mutated, gone)
      {
        var source := outputs[k].source;
        if source !in renamed {
          RemovingNext(before, files, written, outputs, k, mutated, gone);
          var outcome := Remove(source);
          if outcome != Removed {
            RemovingVisible(before, files, written, outputs, k, mutated, gone);
            return mutated, false;
          }
          mutated := mutated + [source];
          gone := gone + {source};
        }
      }
      RemovingVisible(before, files, written, outputs, |outputs|, mutated, gone);
    }

    /** Checks that the sources still hold what the patch was prepared against. */
    method ReadOriginals(outputs: seq<Output>) returns (originals: Files, ok: bool)
      requires Committable(files, outputs)
      ensures ok <==> Intact(files, outputs)
      ensures ok ==> KnowsOriginals(files, outputs, originals)
    {
      originals, ok := map[], true;
      for k := 0 to |outputs|
        invariant forall path :: path in originals <==> exists i :: 0 <= i < k && outputs[i].source == path
        invariant forall path :: path in originals ==> path in files && originals[path] == files[path]
        invariant forall i :: 0 <= i < k ==> Unchanged(files, outputs[i])
      {
        var o := outputs[k];
        if o.source !in files || files[o.source].data != o.original.data {
          return originals, false;
        }
        originals := originals[o.source := FileState(o.original.data, o.original.mode)];
      }
    }

    /** commitPatchLocal: it succeeds exactly when the sources are as they were prepared and the system
        refuses nothing, and a successful commit is one simultaneous update of all files. A failed one
        whose rollback reports no error leaves every visible path as it was; whatever happens, paths
        that are no source and no destination are not touched. */
    method CommitPatch(outputs: seq<Output>) returns (r: CommitResult)
      requires Committable(files, outputs)
      modifies this
      ensures r.Done? <==> Intact(old(files), outputs) && faults == old(faults)
      ensures r.Done? ==> files == Updated(old(files), outputs)
      ensures r.Abandoned? ==> SameVisible(files, old(files))
      ensures forall path :: !IsTemp(path) && Uninvolved(outputs, path) ==> Lookup(files, path) == Lookup(old(files), path)
    {
      ghost var before, written := files, Written(outputs, |outputs|);
      var originals, intact := ReadOriginals(outputs);
      if !intact {
        return Abandoned;
      }
      var temporary, ok := StageOutputs(outputs);
      if !ok {
        return Abandoned;
      }
      WrittenVisible(outputs);
      StagedMidway(before, files, temporary, written);
      UninvolvedNotWritten(outputs);
      var mutated, rest;
      mutated, rest, ok := RenameAll(temporary, before, written);
      TempValues(temporary);
      if !ok {
        ghost var mid := files;
        MutatedVisible(outputs, mutated);
        var clean := Rollback(originals, mutated);
        RolledBack(before, mid, files, outputs, originals, mutated, clean);
        Cleanup(rest);
        return if clean then Abandoned else RollbackFailed;
      }
      mutated, ok := RemoveSources(outputs, mutated, before, written);
      if !ok {
        ghost var mid := files;
        MutatedVisible(outputs, mutated);
        var clean := Rollback(originals, mutated);
        RolledBack(before, mid, files, outputs, originals, mutated, clean);
        return if clean then Abandoned else RollbackFailed;
      }
      return Done;
    }
  }

  /** The file is still what the patch was prepared against. */
  predicate Unchanged(files: Files, o: Output) { o.source in files && files[o.source].data == o.original.data }

  ghost predicate Intact(files: Files, outputs: seq<Output>) { forall i :: 0 <= i < |outputs| ==> Unchanged(files, outputs[i]) }

  /** No output reads or writes the path. */
  ghost predicate Uninvolved(outputs: seq<Output>, path: string) {
    forall i :: 0 <= i < |outputs| ==> outputs[i].source != path && (outputs[i].remove || outputs[i].destination != path)
  }

  lemma UninvolvedNotWritten(outputs: seq<Output>)
    requires OneWriter(outputs)
    ensures forall path :: Uninvolved(outputs, path) ==> path !in Written(outputs, |outputs|) && !IsSource(outputs, path)
  {
    WrittenAt(outputs, |outputs|);
  }

  /** Removals in progress: of the first k sources those nothing was written to are gone. */
  ghost predicate Removing(before: Files, now: Files, written: Files, outputs: seq<Output>, k: nat, mutated: seq<string>, gone: set<string>)
    requires k <= |outputs|
  {
    && (forall d :: d in mutated <==> d in written || d in gone)
    && gone == Sources(outputs, k) - written.Keys && now == (before + written) - gone
  }

  lemma RemovingNext(before: Files, now: Files, written: Files, outputs: seq<Output>, k: nat, mutated: seq<string>, gone: set<string>)
    requires k < |outputs| && Removing(before, now, written, outputs, k, mutated, gone) && NoRepeats(SourceList(outputs))
    requires outputs[k].source in before && outputs[k].source !in written
    ensures outputs[k].source in now
    ensures Removing(before, now - {outputs[k].source}, written, outputs, k + 1, mutated + [outputs[k].source], gone + {outputs[k].source})
  {
    SourcesAt(outputs, k);
    assert SourceList(outputs)[k] == outputs[k].source;
    var source := outputs[k].source;
    assert now - {source} == (before + written) - (gone + {source});
  }

  lemma RemovingVisible(before: Files, now: Files, written: Files, outputs: seq<Output>, k: nat, mutated: seq<string>, gone: set<string>)
    requires k <= |outputs| && Removing(before, now, written, outputs, k, mutated, gone)
    ensures forall d :: d in mutated ==> d in written || IsSource(outputs, d)
    ensures forall path :: path !in mutated ==> Lookup(now, path) == Lookup(before, path)
    ensures k == |outputs| ==> now == (before - Sources(outputs, |outputs|)) + written
  {
    SourcesAt(outputs, k);
  }

  /** No two outputs write one path. */
  ghost predicate OneWriter(outputs: seq<Output>) {
    forall i, j :: 0 <= i < j < |outputs| && !outputs[i].remove && !outputs[j].remove ==> outputs[i].destination != outputs[j].destination
  }

  lemma WrittenFresh(outputs: seq<Output>, k: nat)
    requires OneWriter(outputs) && k < |outputs| && !outputs[k].remove
    ensures outputs[k].destination !in Written(outputs, k)
  {
    WrittenAt(outputs, k);
  }

  lemma StageOne<K, V>(before: map<K, V>, now: map<K, V>, temporary: map<K, K>, written: map<K, V>, d: K, name: K, state: V)
    requires Staged(before, now, temporary, written) && d !in written && name !in now
    ensures Staged(before, now[name := state], temporary[d := name], written[d := state])
  {
    var t := temporary[d := name];
    assert t.Values == temporary.Values + {name} by {
      assert d !in temporary;
      forall v | v in temporary.Values ensures v in t.Values {
        var e :| e in temporary && temporary[e] == v;
        assert t[e] == v;
      }
      assert t[d] == name;
    }
    forall e | e in temporary ensures t[e] == temporary[e] && t[e] != name {
      assert temporary[e] in temporary.Values;
    }
  }

  /** Beside the old files there are exactly the staged texts, each under its own name. */
  ghost predicate Staged<K, V>(before: map<K, V>, now: map<K, V>, temporary: map<K, K>, written: map<K, V>) {
    && now.Keys == before.Keys + temporary.Values
    && (forall d :: d in temporary ==> d in written && temporary[d] in now && now[temporary[d]] == written[d])
    && (forall d, e :: d in temporary && e in temporary && d != e ==> temporary[d] != temporary[e])
    && (forall path :: path in before ==> path in now && now[path] == before[path])
  }

  /** Renames in progress: `done` holds its final text, the rest is still staged. */
  ghost predicate Midway<K, V>(before: map<K, V>, now: map<K, V>, rest: map<K, K>, written: map<K, V>, done: set<K>) {
    && rest.Keys == written.Keys - done && done <= written.Keys
    && now.Keys == before.Keys + done + rest.Values
    && (forall d :: d in rest ==> rest[d] in now && now[rest[d]] == written[d] && rest[d] !in before && rest[d] !in written)
    && (forall d, e :: d in rest && e in rest && d != e ==> rest[d] != rest[e])
    && (forall d :: d in done ==> d in now && now[d] == written[d])
    && (forall path :: path in before && path !in done ==> path in now && now[path] == before[path])
  }

  lemma MidwayStep<K, V>(before: map<K, V>, now: map<K, V>, rest: map<K, K>, written: map<K, V>, done: set<K>, d: K)
    requires Midway(before, now, rest, written, done) && d in rest
    ensures Midway(before, (now - {rest[d]})[d := now[rest[d]]], rest - {d}, written, done + {d})
  {
    var next, less := (now - {rest[d]})[d := now[rest[d]]], rest - {d};
    assert rest.Values == less.Values + {rest[d]} by {
      forall v | v in rest.Values ensures v in less.Values + {rest[d]} {
        var e :| e in rest && rest[e] == v;
        if e != d { assert less[e] == v; }
      }
      forall v | v in less.Values ensures v in rest.Values {
        var e :| e in less && less[e] == v;
        assert rest[e] == v;
      }
      assert rest[d] in rest.Values;
    }
    assert rest[d] !in less.Values;
    assert next.Keys == before.Keys + (done + {d}) + less.Values;
  }

  /** The rename loop's state: the first k destinations are `done`, listed in `mutated`. */
  ghost predicate Renaming<K(!new), V>(before: map<K, V>, now: map<K, V>, staged: map<K, K>, rest: map<K, K>, written: map<K, V>, done: set<K>, destinations: seq<K>, k: nat, mutated: seq<K>) {
    && k <= |destinations| && NoRepeats(destinations) && (forall d :: d in destinations <==> d in written)
    && (forall i :: 0 <= i < |destinations| ==> (destinations[i] in done <==> i < k))
    && (forall d :: d in mutated <==> d in done)
    && (forall d :: d in rest ==> d in staged && rest[d] == staged[d])
    && Midway(before, now, rest, written, done)
  }

  lemma NextRename<K(!new), V>(before: map<K, V>, now: map<K, V>, staged: map<K, K>, rest: map<K, K>, written: map<K, V>, done: set<K>, destinations: seq<K>, k: nat, mutated: seq<K>)
    requires Renaming(before, now, staged, rest, written, done, destinations, k, mutated) && k < |destinations|
    ensures destinations[k] in rest
  {
    assert destinations[k] in destinations && destinations[k] !in done;
  }

  lemma RenamedOne<K(!new), V>(before: map<K, V>, now: map<K, V>, staged: map<K, K>, rest: map<K, K>, written: map<K, V>, done: set<K>, destinations: seq<K>, k: nat, mutated: seq<K>)
    requires k < |destinations| && NoRepeats(destinations) && (forall d :: d in destinations <==> d in written)
    requires forall i :: 0 <= i < |destinations| ==> (destinations[i] in done <==> i < k)
    requires forall d :: d in mutated <==> d in done
    requires forall d :: d in rest ==> d in staged && rest[d] == staged[d]
    requires Midway(before, now, rest - {destinations[k]}, written, done + {destinations[k]})
    ensures Renaming(before, now, staged, rest - {destinations[k]}, written, done + {destinations[k]}, destinations, k + 1, mutated + [destinations[k]])
  {
  }

  lemma RenamingVisible<K(!new), V>(before: map<K, V>, now: map<K, V>, staged: map<K, K>, rest: map<K, K>, written: map<K, V>, done: set<K>, destinations: seq<K>, k: nat, mutated: seq<K>)
    requires Renaming(before, now, staged, rest, written, done, destinations, k, mutated)
    ensures forall d :: d in mutated ==> d in written
    ensures forall d :: d in rest ==> d in staged && rest[d] == staged[d]
    ensures forall path :: path !in mutated && path !in staged.Values ==>
              (path in now <==> path in before) && (path in now ==> now[path] == before[path])
  {
    forall v | v in rest.Values ensures v in staged.Values {
      var d :| d in rest && rest[d] == v;
      assert staged[d] == v;
    }
  }

  lemma RenamingEnd<K(!new), V>(before: map<K, V>, now: map<K, V>, staged: map<K, K>, rest: map<K, K>, written: map<K, V>, done: set<K>, destinations: seq<K>, k: nat, mutated: seq<K>)
    requires Renaming(before, now, staged, rest, written, done, destinations, k, mutated) && k == |destinations|
    ensures now == before + written && forall d :: d in written ==> d in mutated
  {
    forall d | d in written ensures d in done {
      assert d in destinations;
    }
    assert rest.Keys == {};
    assert rest.Values == {};
  }

  ghost function SourceList(outputs: seq<Output>): (r: seq<string>)
    ensures |r| == |outputs| && forall i :: 0 <= i < |r| ==> r[i] == outputs[i].source
  {
    seq(|outputs|, i requires 0 <= i < |outputs| => outputs[i].source)
  }

  /** What preparePatch guarantees and nothing has disturbed since: the destinations are
      admissible, no path is a temporary name, and file modes are those recorded. */
  ghost predicate Committable(files: Files, outputs: seq<Output>) {
    && DestinationsOk(files, outputs) && OneWriter(outputs) && NoRepeats(SourceList(outputs))
    && (forall i :: 0 <= i < |outputs| ==> !IsTemp(outputs[i].source) && !IsTemp(outputs[i].destination))
    && (forall i :: 0 <= i < |outputs| && outputs[i].source in files ==> files[outputs[i].source].mode == outputs[i].original.mode)
  }

  ghost predicate KnowsOriginals(before: Files, outputs: seq<Output>, originals: Files) {
    && (forall path :: path in originals <==> IsSource(outputs, path))
    && (forall path :: path in originals ==> path in before && originals[path] == before[path])
  }

  lemma WrittenVisible(outputs: seq<Output>)
    requires OneWriter(outputs) && forall i :: 0 <= i < |outputs| ==> !IsTemp(outputs[i].destination)
    ensures forall d :: d in Written(outputs, |outputs|) ==> !IsTemp(d)
  {
    WrittenAt(outputs, |outputs|);
  }

  lemma MutatedVisible(outputs: seq<Output>, mutated: seq<string>)
    requires OneWriter(outputs) && forall i :: 0 <= i < |outputs| ==> !IsTemp(outputs[i].destination) && !IsTemp(outputs[i].source)
    requires forall d :: d in mutated ==> d in Written(outputs, |outputs|) || IsSource(outputs, d)
    ensures forall i :: 0 <= i < |mutated| ==> !IsTemp(mutated[i])
  {
    WrittenVisible(outputs);
    forall i | 0 <= i < |mutated| ensures !IsTemp(mutated[i]) {
      assert mutated[i] in mutated;
    }
  }

  lemma StagedMidway<K, V>(before: map<K, V>, now: map<K, V>, temporary: map<K, K>, written: map<K, V>)
    requires temporary.Keys == written.Keys && Staged(before, now, temporary, written)
    requires forall d :: d in temporary ==> temporary[d] !in before && temporary[d] !in written
    ensures Midway(before, now, temporary, written, {})
  {
  }

  lemma TempValues(temporary: map<string, string>)
    requires forall d :: d in temporary ==> IsTemp(temporary[d])
    ensures forall path :: !IsTemp(path) ==> path !in temporary.Values
  {
  }

  /** Restoring the mutated paths restores everything: a mutated path that was not a source
      did not exist before. */
  lemma RolledBack(before: Files, mid: Files, after: Files, outputs: seq<Output>, originals: Files, mutated: seq<string>, clean: bool)
    requires Committable(before, outputs) && KnowsOriginals(before, outputs, originals)
    requires forall d :: d in mutated ==> d in Written(outputs, |outputs|) || IsSource(outputs, d)
    requires forall path :: path !in mutated && !IsTemp(path) ==> Lookup(mid, path) == Lookup(before, path)
    requires clean ==> forall path :: path in mutated ==> Lookup(after, path) == Lookup(originals, path)
    requires forall path :: path !in mutated && !IsTemp(path) ==> Lookup(after, path) == Lookup(mid, path)
    ensures clean ==> SameVisible(after, before)
  {
    WrittenAt(outputs, |outputs|);
    forall path | path in mutated ensures Lookup(originals, path) == Lookup(before, path) {
      if !IsSource(outputs, path) {
        var i :| 0 <= i < |outputs| && !outputs[i].remove && outputs[i].destination == path;
        assert outputs[i].destination != outputs[i].source;
      }
    }
  }
}

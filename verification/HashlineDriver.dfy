/** Execute of internal/agent/hashline_edit.go: parse, prepare, commit. */
module HashlineDriver {
  import opened Common
  import opened HashlinePatch
  import opened HashlinePrepare
  import opened HashlineCommit
  import opened HashlineClipboard

  /** The files after a patch that is accepted and committed without I/O failure. */
  function Executed(host: Host, clipboard: Registers, files: Files, input: string): Option<Files> {
    match Parse(input, host.unquote)
    case Err(_) => None
    case Ok(sections) =>
      match Prepare(host, clipboard, files, sections)
      case Err(_) => None
      case Ok((outputs, _)) => Some(Updated(files, outputs))
  }

  lemma ExecutedAs(host: Host, clipboard: Registers, files: Files, input: string, sections: seq<Section>, outputs: seq<Output>, registers: Registers)
    requires Parse(input, host.unquote) == Ok(sections) && Prepare(host, clipboard, files, sections) == Ok((outputs, registers))
    ensures Executed(host, clipboard, files, input) == Some(Updated(files, outputs))
  {
  }

  lemma ExecutedNot(host: Host, clipboard: Registers, files: Files, input: string)
    requires Parse(input, host.unquote).Err?
    ensures Executed(host, clipboard, files, input) == None
  {
  }

  /** The patch names no temporary file of the engine. */
  ghost predicate NamesVisible(host: Host, clipboard: Registers, files: Files, input: string) {
    Parse(input, host.unquote).Ok? ==>
      var prepared := Prepare(host, clipboard, files, Parse(input, host.unquote).value);
      prepared.Ok? ==> forall i :: 0 <= i < |prepared.value.0| ==> !IsTemp(prepared.value.0[i].source) && !IsTemp(prepared.value.0[i].destination)
  }

  datatype DriverResult = Rejected | Finished(commit: CommitResult)

  lemma PreparedCommittable(files: Files, outputs: seq<Output>)
    requires SourcesOk(files, outputs) && DestinationsOk(files, outputs)
    requires forall i :: 0 <= i < |outputs| ==> !IsTemp(outputs[i].source) && !IsTemp(outputs[i].destination)
    ensures Committable(files, outputs)
  {
  }

  /** The registers a patch fills. */
  function Filled(host: Host, clipboard: Registers, files: Files, input: string): Registers {
    match Parse(input, host.unquote)
    case Err(_) => map[]
    case Ok(sections) =>
      match Prepare(host, clipboard, files, sections)
      case Err(_) => map[]
      case Ok((_, registers)) => registers
  }

  lemma PreparedIntact(files: Files, outputs: seq<Output>)
    requires SourcesOk(files, outputs)
    ensures Intact(files, outputs)
  {
  }

  /** A patch is rejected exactly when it does not parse or prepare, and then nothing changes. Any other
      is committed exactly when the system refuses nothing: all files change together and its registers
      enter the clipboard. Otherwise the clipboard is as it was, and so are the files unless the rollback
      itself fails. */
  method Execute(host: Host, clipboard: Clipboard, root: Root, input: string) returns (r: DriverResult, ghost added: seq<string>, ghost evicted: nat)
    requires HostOk(host) && clipboard.Valid() && NamesVisible(host, clipboard.values, root.files, input)
    modifies root, clipboard
    ensures clipboard.Valid()
    ensures r.Rejected? <==> Executed(host, old(clipboard.values), old(root.files), input).None?
    ensures r.Rejected? ==> root.files == old(root.files)
    ensures r == Finished(Done) <==> !r.Rejected? && root.faults == old(root.faults)
    ensures r == Finished(Done) ==>
              && Executed(host, old(clipboard.values), old(root.files), input) == Some(root.files)
              && Kept(old(clipboard.values), old(clipboard.order), Filled(host, old(clipboard.values), old(root.files), input), added, evicted,
                      clipboard.values, clipboard.order)
    ensures r != Finished(Done) ==> clipboard.values == old(clipboard.values) && clipboard.order == old(clipboard.order)
    ensures r == Finished(Abandoned) ==> SameVisible(root.files, old(root.files))
  {
    added, evicted := [], 0;
    var parsed := ParsePatch(input, host.unquote);
    if parsed.Err? {
      r := Rejected;
      return;
    }
    ParseNumbers(input, host.unquote);
    var prepared := PreparePatch(host, clipboard.values, root.files, parsed.value);
    if prepared.Err? {
      r := Rejected;
      return;
    }
    var (outputs, registers) := prepared.value;
    PreparedOk(host, clipboard.values, root.files, parsed.value);
    PreparedCommittable(root.files, outputs);
    PreparedIntact(root.files, outputs);
    var commit := root.CommitPatch(outputs);
    if commit.Done? {
      added, evicted := clipboard.Commit(registers);
    }
    r := Finished(commit);
  }
}

/** preparePatch of internal/agent/hashline_edit.go: resolves every hunk of a patch against
    the files on disk and computes what each touched file becomes. */
module HashlinePrepare {
  import opened Common
  import opened Text
  import opened HashlinePatch
  import opened HashlineApply

  datatype FileState = FileState(data: string, mode: nat)
  type Files = map<string, FileState>
  type Registers = map<string, seq<string>>

  /** What the engine takes from elsewhere: the line tag (an FNV hash of the text), Go string
      unquoting, the block finders, and the workspace path a spelling stands for, if any. */
  datatype Host = Host(tag: string -> string, unquote: Unquote, block: (string, seq<string>, nat) -> Option<(nat, nat)>,
                       resolve: string -> Option<string>)

  ghost predicate HostOk(host: Host) {
    && (forall text :: IsTag(host.tag(text)))
    && (forall path, lines, line :: host.block(path, lines, line).Some? ==> BlockOk(host.block(path, lines, line).value, |lines|, line))
  }

  predicate BlockOk(block: (nat, nat), n: nat, line: nat) {
    1 <= block.0 == line < block.1 <= n
  }

  /** A file the patch touches, while its hunks are being collected. */
  datatype Draft = Draft(source: string, destination: string, tag: string, original: FileState, text: string,
                         lines: seq<string>, actions: seq<Action>, remove: bool, move: bool)

  datatype Progress = Progress(drafts: map<string, Draft>, order: seq<string>, registers: Registers, anonymous: Option<seq<string>>)

  /** What the commit has to do for one touched file. */
  datatype Output = Output(source: string, destination: string, original: FileState, text: string, final: string, remove: bool, move: bool)

  datatype PrepareError =
    | BadPath(path: string)
    | Missing(path: string)
    | Stale(path: string)
    | TagMismatch(path: string)
    | OutsideFile(path: string)
    | EmptyRegister(name: string)
    | RemoveNotAlone(path: string)
    | ConflictingMove(path: string)
    | ConflictingHunks(path: string)
    | NoChange
    | BadDestinations

  // ---------------------------------------------------------------- locators

  function ResolveRange(host: Host, d: Draft, locator: Locator): Option<(nat, nat)> {
    match locator
    case Range(start, end) => if start > |d.lines| || end > |d.lines| then None else Some((start, end))
    case Block(line) => host.block(d.source, d.lines, line)
    case _ => None
  }

  function ResolveAction(host: Host, d: Draft, locator: Locator, body: seq<string>, sequence: nat): Option<Action> {
    match locator
    case Range(_, _) => ReplaceAt(ResolveRange(host, d, locator), body, sequence)
    case Block(_) => ReplaceAt(ResolveRange(host, d, locator), body, sequence)
    case Before(line) => if 1 <= line <= |d.lines| then Some(Insert(line - 1, body, sequence)) else None
    case After(line) => if line <= |d.lines| then Some(Insert(line, body, sequence)) else None
    case Tail => Some(Insert(|d.lines|, body, sequence))
    case AfterBlock(line) =>
      match host.block(d.source, d.lines, line)
      case Some((_, end)) => Some(Insert(end, body, sequence))
      case None => None
  }

  function ReplaceAt(range: Option<(nat, nat)>, body: seq<string>, sequence: nat): Option<Action> {
    match range
    case Some((start, end)) => Some(Replace(start, end, body, sequence))
    case None => None
  }

  lemma ResolvedFits(host: Host, d: Draft, locator: Locator, body: seq<string>, sequence: nat)
    requires HostOk(host) && LocatorOk(locator)
    ensures var a := ResolveAction(host, d, locator, body, sequence);
            a.Some? ==> Fits(a.value, |d.lines|) && a.value.sequence == sequence
    ensures var r := ResolveRange(host, d, locator); r.Some? ==> 1 <= r.value.0 <= r.value.1 <= |d.lines|
  {
    if locator.Block? || locator.AfterBlock? {
      var b := host.block(d.source, d.lines, locator.line);
      assert b.Some? ==> BlockOk(b.value, |d.lines|, locator.line);
    }
  }

  // ---------------------------------------------------------------- collecting hunks

  function WithAction(p: Progress, path: string, a: Action): Progress
    requires path in p.drafts
  {
    var d := p.drafts[path];
    p.(drafts := p.drafts[path := d.(actions := d.actions + [a])])
  }

  function RegisterValue(p: Progress, clipboard: Registers, name: string): Option<seq<string>> {
    if name == "" then p.anonymous
    else if name in p.registers then Some(p.registers[name])
    else if name in clipboard then Some(clipboard[name])
    else None
  }

  function Captured(p: Progress, name: string, lines: seq<string>): Progress {
    if name == "" then p.(anonymous := Some(lines)) else p.(registers := p.registers[name := lines])
  }

  function CutRange(p: Progress, path: string, register: string, range: Option<(nat, nat)>, sequence: nat): (r: Result<Progress, PrepareError>)
    requires path in p.drafts
    ensures r.Ok? ==> path in r.value.drafts
  {
    match range
    case None => Err(OutsideFile(path))
    case Some((start, end)) =>
      if !(1 <= start <= end <= |p.drafts[path].lines|) then Err(OutsideFile(path))
      else Ok(WithAction(Captured(p, register, p.drafts[path].lines[start - 1..end]), path, Replace(start, end, [], sequence)))
  }

  function SetFlags(p: Progress, path: string, destination: string, move: bool, remove: bool): Progress
    requires path in p.drafts
  {
    p.(drafts := p.drafts[path := p.drafts[path].(destination := destination, move := move, remove := remove)])
  }

  /** One hunk of the section for `path`; `alone` says it is the section's only hunk. */
  function PrepareHunk(host: Host, clipboard: Registers, p: Progress, path: string, alone: bool, hunk: Hunk): (r: Result<Progress, PrepareError>)
    requires path in p.drafts
    ensures r.Ok? ==> path in r.value.drafts
  {
    var d := p.drafts[path];
    match hunk.kind
    case Put(locator, body) => Placed(p, path, ResolveAction(host, d, locator, body, hunk.sequence))
    case Cut(locator, register) => CutRange(p, path, register, ResolveRange(host, d, locator), hunk.sequence)
    case Paste(locator, register) =>
      (match RegisterValue(p, clipboard, register)
       case Some(value) => Placed(p, path, ResolveAction(host, d, locator, value, hunk.sequence))
       case None => Err(EmptyRegister(register)))
    case Remove =>
      if d.move || d.remove || d.actions != [] || !alone then Err(RemoveNotAlone(path))
      else Ok(SetFlags(p, path, d.destination, d.move, true))
    case Move(destination) =>
      if d.move || d.remove then Err(ConflictingMove(path))
      else
        match host.resolve(destination)
        case None => Err(BadPath(destination))
        case Some(target) => Ok(SetFlags(p, path, target, target != path, d.remove))
  }

  function Placed(p: Progress, path: string, action: Option<Action>): Result<Progress, PrepareError>
    requires path in p.drafts
  {
    match action
    case Some(a) => Ok(WithAction(p, path, a))
    case None => Err(OutsideFile(path))
  }

  /** How one hunk of a section moves the collection on. */
  type Step = (Progress, Hunk) -> Result<Progress, PrepareError>

  function SectionStep(host: Host, clipboard: Registers, path: string, alone: bool): Step {
    (p: Progress, hunk: Hunk) => if path in p.drafts then PrepareHunk(host, clipboard, p, path, alone, hunk) else Err(Missing(path))
  }

  function PrepareHunks(step: Step, p: Progress, hunks: seq<Hunk>, k: nat): Result<Progress, PrepareError>
    requires k <= |hunks|
    decreases |hunks| - k
  {
    if k == |hunks| then Ok(p)
    else
      match step(p, hunks[k])
      case Err(e) => Err(e)
      case Ok(next) => PrepareHunks(step, next, hunks, k + 1)
  }

  /** Reads the file of a section on first sight, and checks the section's tag. */
  function OpenDraft(host: Host, files: Files, p: Progress, path: string, tag: string): (r: Result<Progress, PrepareError>)
    ensures r.Ok? ==> path in r.value.drafts
  {
    if path in p.drafts then
      if p.drafts[path].tag != tag then Err(TagMismatch(path)) else Ok(p)
    else if path !in files then Err(Missing(path))
    else if host.tag(Normalize(files[path].data)) != tag then Err(Stale(path))
    else
      var text := Normalize(files[path].data);
      var d := Draft(path, path, tag, files[path], text, Split(text, '\n'), [], false, false);
      Ok(p.(drafts := p.drafts[path := d], order := p.order + [path]))
  }

  /** One section of a file: open the file, then take the hunks in order. */
  function PrepareFile(host: Host, clipboard: Registers, files: Files, p: Progress, path: string, s: Section): Result<Progress, PrepareError> {
    match OpenDraft(host, files, p, path, s.tag)
    case Err(e) => Err(e)
    case Ok(ready) => PrepareHunks(SectionStep(host, clipboard, path, |s.hunks| == 1), ready, s.hunks, 0)
  }

  /** One section, for the file its path stands for. */
  function PrepareSection(host: Host, clipboard: Registers, files: Files, p: Progress, s: Section): Result<Progress, PrepareError> {
    match host.resolve(s.path)
    case None => Err(BadPath(s.path))
    case Some(path) => PrepareFile(host, clipboard, files, p, path, s)
  }

  type Advance = (Progress, Section) -> Result<Progress, PrepareError>

  function PatchAdvance(host: Host, clipboard: Registers, files: Files): Advance {
    (p: Progress, s: Section) => PrepareSection(host, clipboard, files, p, s)
  }

  function PrepareSections(advance: Advance, p: Progress, sections: seq<Section>, k: nat): Result<Progress, PrepareError>
    requires k <= |sections|
    decreases |sections| - k
  {
    if k == |sections| then Ok(p)
    else
      match advance(p, sections[k])
      case Err(e) => Err(e)
      case Ok(next) => PrepareSections(advance, next, sections, k + 1)
  }

  // ---------------------------------------------------------------- outcome

  function OutputOf(d: Draft): Output {
    Output(d.source, d.destination, d.original, d.text, if d.remove then "" else Join(Declared(d.lines, d.actions), '\n'), d.remove, d.move)
  }

  /** The outputs of the drafts from the k-th on, in order. */
  function Finish(p: Progress, k: nat): Result<seq<Output>, PrepareError>
    requires k <= |p.order|
  {
    FinishWith(OutputOf, p, k)
  }

  type Render = Draft -> Output

  function FinishWith(render: Render, p: Progress, k: nat): Result<seq<Output>, PrepareError>
    requires k <= |p.order|
    decreases |p.order| - k
  {
    if k == |p.order| then Ok([])
    else if p.order[k] !in p.drafts then Err(Missing(p.order[k]))
    else
      var d := p.drafts[p.order[k]];
      if !d.remove && !Valid(d.actions) then Err(ConflictingHunks(p.order[k]))
      else
        match FinishWith(render, p, k + 1)
        case Err(e) => Err(e)
        case Ok(rest) => Ok([render(d)] + rest)
  }

  predicate Changes(o: Output) { o.remove || o.final != o.text || o.move }

  /** validateHashlineDestinations: no two files write one path, and a move lands on a free
      path or on one this patch vacates. */
  predicate DestinationsOk(files: Files, outputs: seq<Output>) {
    && (forall i, j :: 0 <= i < j < |outputs| && !outputs[i].remove && !outputs[j].remove ==> outputs[i].destination != outputs[j].destination)
    && (forall i :: 0 <= i < |outputs| && !outputs[i].remove && outputs[i].destination != outputs[i].source ==>
          outputs[i].destination in files ==> IsSource(outputs, outputs[i].destination))
  }

  predicate IsSource(outputs: seq<Output>, path: string) {
    exists j :: 0 <= j < |outputs| && outputs[j].source == path
  }

  const NO_PROGRESS := Progress(map[], [], map[], None)

  predicate AnyChange(outputs: seq<Output>) { exists i :: 0 <= i < |outputs| && Changes(outputs[i]) }

  function Accept(files: Files, outputs: seq<Output>, registers: Registers): Result<(seq<Output>, Registers), PrepareError> {
    if !AnyChange(outputs) && registers == map[] then Err(NoChange)
    else if !DestinationsOk(files, outputs) then Err(BadDestinations)
    else Ok((outputs, registers))
  }

  function Complete(files: Files, p: Progress): Result<(seq<Output>, Registers), PrepareError> {
    match Finish(p, 0)
    case Err(e) => Err(e)
    case Ok(outputs) => Accept(files, outputs, p.registers)
  }

  /** preparePatch as a function of the files, the clipboard and the parsed patch. */
  function Prepare(host: Host, clipboard: Registers, files: Files, sections: seq<Section>): Result<(seq<Output>, Registers), PrepareError> {
    match PrepareSections(PatchAdvance(host, clipboard, files), NO_PROGRESS, sections, 0)
    case Err(e) => Err(e)
    case Ok(p) => Complete(files, p)
  }

  // ---------------------------------------------------------------- invariants of the collection

  /** Every action is within the file, and sequence numbers rise below `bound`. */
  ghost predicate ActionsOk(actions: seq<Action>, n: nat, bound: nat) {
    && (forall i :: 0 <= i < |actions| ==> Fits(actions[i], n) && actions[i].sequence < bound)
    && (forall i, j :: 0 <= i < j < |actions| ==> actions[i].sequence < actions[j].sequence)
  }

  lemma ActionsGrow(actions: seq<Action>, a: Action, n: nat, bound: nat)
    requires ActionsOk(actions, n, bound)
    ensures ActionsOk(actions, n, bound + 1)
    ensures Fits(a, n) && a.sequence == bound ==> ActionsOk(actions + [a], n, bound + 1)
  {
  }

  ghost predicate DraftOk(files: Files, d: Draft, path: string, bound: nat) {
    d.source == path && path in files && d.original == files[path] && ActionsOk(d.actions, |d.lines|, bound)
  }

  ghost predicate OrderOk(order: seq<string>, keys: set<string>) {
    && (forall path :: path in order <==> path in keys)
    && (forall i, j :: 0 <= i < j < |order| ==> order[i] != order[j])
  }

  ghost predicate ProgressOk(files: Files, p: Progress, bound: nat) {
    && (forall path :: path in p.drafts ==> DraftOk(files, p.drafts[path], path, bound))
    && OrderOk(p.order, p.drafts.Keys)
  }

  /** Replacing one draft by another of the same file keeps the collection in order. */
  lemma ReplaceDraft(files: Files, p: Progress, q: Progress, path: string, d: Draft, bound: nat)
    requires ProgressOk(files, p, bound) && path in p.drafts && DraftOk(files, d, path, bound + 1)
    requires q.drafts == p.drafts[path := d] && q.order == p.order
    ensures ProgressOk(files, q, bound + 1) && path in q.drafts
  {
    assert q.drafts.Keys == p.drafts.Keys;
    forall x | x in q.drafts ensures DraftOk(files, q.drafts[x], x, bound + 1) {
      if x != path {
        assert DraftOk(files, p.drafts[x], x, bound);
        ActionsGrow(p.drafts[x].actions, Insert(0, [], 0), |p.drafts[x].lines|, bound);
      }
    }
  }

  lemma AddActionOk(files: Files, p: Progress, path: string, a: Action, bound: nat)
    requires ProgressOk(files, p, bound) && path in p.drafts
    requires Fits(a, |p.drafts[path].lines|) && a.sequence == bound
    ensures ProgressOk(files, WithAction(p, path, a), bound + 1) && path in WithAction(p, path, a).drafts
  {
    var d := p.drafts[path];
    assert DraftOk(files, d, path, bound);
    ActionsGrow(d.actions, a, |d.lines|, bound);
    ReplaceDraft(files, p, WithAction(p, path, a), path, d.(actions := d.actions + [a]), bound);
  }

  lemma PlacedOk(host: Host, files: Files, p: Progress, path: string, locator: Locator, body: seq<string>, bound: nat)
    requires HostOk(host) && ProgressOk(files, p, bound) && path in p.drafts && LocatorOk(locator)
    ensures var r := Placed(p, path, ResolveAction(host, p.drafts[path], locator, body, bound));
            r.Ok? ==> ProgressOk(files, r.value, bound + 1) && path in r.value.drafts
  {
    assert DraftOk(files, p.drafts[path], path, bound);
    ResolvedFits(host, p.drafts[path], locator, body, bound);
    var a := ResolveAction(host, p.drafts[path], locator, body, bound);
    if a.Some? { AddActionOk(files, p, path, a.value, bound); }
  }

  lemma CutOk(files: Files, p: Progress, path: string, register: string, range: Option<(nat, nat)>, bound: nat)
    requires ProgressOk(files, p, bound) && path in p.drafts
    ensures var r := CutRange(p, path, register, range, bound); r.Ok? ==> ProgressOk(files, r.value, bound + 1)
  {
    if CutRange(p, path, register, range, bound).Ok? {
      var (start, end) := range.value;
      AddActionOk(files, Captured(p, register, p.drafts[path].lines[start - 1..end]), path, Replace(start, end, [], bound), bound);
    }
  }

  lemma FlagsOk(files: Files, p: Progress, path: string, destination: string, move: bool, remove: bool, bound: nat)
    requires ProgressOk(files, p, bound) && path in p.drafts
    ensures ProgressOk(files, SetFlags(p, path, destination, move, remove), bound + 1)
  {
    var d := p.drafts[path].(destination := destination, move := move, remove := remove);
    assert DraftOk(files, p.drafts[path], path, bound);
    ActionsGrow(d.actions, Insert(0, [], 0), |d.lines|, bound);
    ReplaceDraft(files, p, SetFlags(p, path, destination, move, remove), path, d, bound);
  }

  lemma PlaceKeepsOk(host: Host, clipboard: Registers, files: Files, p: Progress, path: string, alone: bool, hunk: Hunk)
    requires HostOk(host) && ProgressOk(files, p, hunk.sequence) && path in p.drafts && KindOk(hunk.kind)
    requires hunk.kind.Put? || hunk.kind.Paste?
    ensures var r := PrepareHunk(host, clipboard, p, path, alone, hunk); r.Ok? ==> ProgressOk(files, r.value, hunk.sequence + 1)
  {
    if hunk.kind.Put? {
      PlacedOk(host, files, p, path, hunk.kind.locator, hunk.kind.body, hunk.sequence);
    } else {
      var value := RegisterValue(p, clipboard, hunk.kind.register);
      if value.Some? { PlacedOk(host, files, p, path, hunk.kind.locator, value.value, hunk.sequence); }
    }
  }

  lemma FlagKeepsOk(host: Host, clipboard: Registers, files: Files, p: Progress, path: string, alone: bool, hunk: Hunk)
    requires HostOk(host) && ProgressOk(files, p, hunk.sequence) && path in p.drafts && KindOk(hunk.kind)
    requires hunk.kind.Remove? || hunk.kind.Move?
    ensures var r := PrepareHunk(host, clipboard, p, path, alone, hunk); r.Ok? ==> ProgressOk(files, r.value, hunk.sequence + 1)
  {
    forall destination, move, remove ensures ProgressOk(files, SetFlags(p, path, destination, move, remove), hunk.sequence + 1) {
      FlagsOk(files, p, path, destination, move, remove, hunk.sequence);
    }
    FlagReaches(host, clipboard, p, path, alone, hunk, q => ProgressOk(files, q, hunk.sequence + 1));
  }

  /** REM and MV only set flags. */
  lemma FlagReaches(host: Host, clipboard: Registers, p: Progress, path: string, alone: bool, hunk: Hunk, ok: Progress -> bool)
    requires path in p.drafts && (hunk.kind.Remove? || hunk.kind.Move?)
    requires forall destination, move, remove :: ok(SetFlags(p, path, destination, move, remove))
    ensures var r := PrepareHunk(host, clipboard, p, path, alone, hunk); r.Ok? ==> ok(r.value)
  {
  }

  lemma HunkKeepsOk(host: Host, clipboard: Registers, files: Files, p: Progress, path: string, alone: bool, hunk: Hunk)
    requires HostOk(host) && ProgressOk(files, p, hunk.sequence) && path in p.drafts && KindOk(hunk.kind)
    ensures var r := PrepareHunk(host, clipboard, p, path, alone, hunk); r.Ok? ==> ProgressOk(files, r.value, hunk.sequence + 1)
  {
    match hunk.kind
    case Put(_, _) => PlaceKeepsOk(host, clipboard, files, p, path, alone, hunk);
    case Paste(_, _) => PlaceKeepsOk(host, clipboard, files, p, path, alone, hunk);
    case Cut(locator, register) => CutOk(files, p, path, register, ResolveRange(host, p.drafts[path], locator), hunk.sequence);
    case Remove => FlagKeepsOk(host, clipboard, files, p, path, alone, hunk);
    case Move(_) => FlagKeepsOk(host, clipboard, files, p, path, alone, hunk);
  }

  ghost predicate StepOk(step: Step, files: Files) {
    forall p: Progress, hunk: Hunk :: ProgressOk(files, p, hunk.sequence) && KindOk(hunk.kind) && step(p, hunk).Ok? ==> ProgressOk(files, step(p, hunk).value, hunk.sequence + 1)
  }

  lemma SectionStepOk(host: Host, clipboard: Registers, files: Files, path: string, alone: bool)
    requires HostOk(host)
    ensures StepOk(SectionStep(host, clipboard, path, alone), files)
  {
    forall p: Progress, hunk: Hunk | ProgressOk(files, p, hunk.sequence) && KindOk(hunk.kind) && SectionStep(host, clipboard, path, alone)(p, hunk).Ok?
      ensures ProgressOk(files, SectionStep(host, clipboard, path, alone)(p, hunk).value, hunk.sequence + 1)
    {
      HunkKeepsOk(host, clipboard, files, p, path, alone, hunk);
    }
  }

  lemma {:induction false} HunksKeepOk(step: Step, files: Files, p: Progress, hunks: seq<Hunk>, k: nat, first: nat)
    requires StepOk(step, files) && k <= |hunks| && Numbered(hunks, first) && ProgressOk(files, p, first + k)
    ensures var r := PrepareHunks(step, p, hunks, k); r.Ok? ==> ProgressOk(files, r.value, first + |hunks|)
    decreases |hunks| - k
  {
    if k < |hunks| && step(p, hunks[k]).Ok? {
      HunksKeepOk(step, files, step(p, hunks[k]).value, hunks, k + 1, first);
    }
  }

  lemma OpenKeepsOk(host: Host, files: Files, p: Progress, path: string, tag: string, bound: nat)
    requires ProgressOk(files, p, bound)
    ensures var r := OpenDraft(host, files, p, path, tag); r.Ok? ==> ProgressOk(files, r.value, bound)
  {
    var r := OpenDraft(host, files, p, path, tag);
    if r.Ok? && path !in p.drafts {
      forall x | x in r.value.drafts ensures DraftOk(files, r.value.drafts[x], x, bound) {
        if x != path { assert DraftOk(files, p.drafts[x], x, bound); }
      }
      assert r.value.drafts.Keys == p.drafts.Keys + {path};
    }
  }

  lemma FileKeepsOk(host: Host, clipboard: Registers, files: Files, p: Progress, path: string, s: Section, first: nat)
    requires HostOk(host) && Numbered(s.hunks, first) && ProgressOk(files, p, first)
    ensures var r := PrepareFile(host, clipboard, files, p, path, s); r.Ok? ==> ProgressOk(files, r.value, first + |s.hunks|)
  {
    var ready, step := OpenDraft(host, files, p, path, s.tag), SectionStep(host, clipboard, path, |s.hunks| == 1);
    OpenKeepsOk(host, files, p, path, s.tag, first);
    SectionStepOk(host, clipboard, files, path, |s.hunks| == 1);
    if ready.Ok? { OpenedKeepsOk(step, files, ready.value, s.hunks, first); }
  }

  lemma OpenedKeepsOk(step: Step, files: Files, ready: Progress, hunks: seq<Hunk>, first: nat)
    requires StepOk(step, files) && Numbered(hunks, first) && ProgressOk(files, ready, first)
    ensures var r := PrepareHunks(step, ready, hunks, 0); r.Ok? ==> ProgressOk(files, r.value, first + |hunks|)
  {
    HunksKeepOk(step, files, ready, hunks, 0, first);
  }

  lemma SectionKeepsOk(host: Host, clipboard: Registers, files: Files, p: Progress, s: Section, first: nat)
    requires HostOk(host) && Numbered(s.hunks, first) && ProgressOk(files, p, first)
    ensures var r := PrepareSection(host, clipboard, files, p, s); r.Ok? ==> ProgressOk(files, r.value, first + |s.hunks|)
  {
    if host.resolve(s.path).Some? { FileKeepsOk(host, clipboard, files, p, host.resolve(s.path).value, s, first); }
  }

  ghost predicate AdvanceOk(advance: Advance, files: Files) {
    forall p: Progress, s: Section, first: nat :: ProgressOk(files, p, first) && Numbered(s.hunks, first) && advance(p, s).Ok? ==>
      ProgressOk(files, advance(p, s).value, first + |s.hunks|)
  }

  lemma PatchAdvanceOk(host: Host, clipboard: Registers, files: Files)
    requires HostOk(host)
    ensures AdvanceOk(PatchAdvance(host, clipboard, files), files)
  {
    var advance := PatchAdvance(host, clipboard, files);
    forall p: Progress, s: Section, first: nat | ProgressOk(files, p, first) && Numbered(s.hunks, first) && advance(p, s).Ok?
      ensures ProgressOk(files, advance(p, s).value, first + |s.hunks|)
    {
      SectionKeepsOk(host, clipboard, files, p, s, first);
    }
  }

  lemma {:induction false} SectionsKeepOk(advance: Advance, files: Files, p: Progress, sections: seq<Section>, k: nat, first: nat)
    requires AdvanceOk(advance, files) && k <= |sections| && SectionsNumbered(sections[k..], first) && ProgressOk(files, p, first)
    ensures var r := PrepareSections(advance, p, sections, k); r.Ok? ==> exists bound: nat :: ProgressOk(files, r.value, bound)
    decreases |sections| - k
  {
    if k < |sections| && advance(p, sections[k]).Ok? {
      assert sections[k..][0] == sections[k] && sections[k..][1..] == sections[k + 1..];
      SectionsKeepOk(advance, files, advance(p, sections[k]).value, sections, k + 1, first + |sections[k].hunks|);
    }
  }

  /** The same hunks for the same files, however their paths are spelled. */
  ghost predicate SameFiles(host: Host, a: seq<Section>, b: seq<Section>) {
    |a| == |b| && forall i :: 0 <= i < |a| ==> SameFile(host, a[i], b[i])
  }

  ghost predicate SameFile(host: Host, s: Section, t: Section) {
    host.resolve(s.path).Some? && host.resolve(s.path) == host.resolve(t.path) && s.tag == t.tag && s.hunks == t.hunks
  }

  lemma {:induction false} SectionsSpelled(host: Host, clipboard: Registers, files: Files, p: Progress, a: seq<Section>, b: seq<Section>, k: nat)
    requires SameFiles(host, a, b) && k <= |a|
    ensures PrepareSections(PatchAdvance(host, clipboard, files), p, a, k) == PrepareSections(PatchAdvance(host, clipboard, files), p, b, k)
    decreases |a| - k
  {
    if k < |a| {
      var next := PatchAdvance(host, clipboard, files)(p, a[k]);
      SpelledOnce(host, clipboard, files, p, a[k], b[k]);
      if next.Ok? { SectionsSpelled(host, clipboard, files, next.value, a, b, k + 1); }
    }
  }

  lemma SpelledOnce(host: Host, clipboard: Registers, files: Files, p: Progress, s: Section, t: Section)
    requires SameFile(host, s, t)
    ensures PrepareSection(host, clipboard, files, p, s) == PrepareSection(host, clipboard, files, p, t)
  {
  }

  /** A file is one draft, whichever spellings of its path the sections use. */
  lemma SpellingIrrelevant(host: Host, clipboard: Registers, files: Files, a: seq<Section>, b: seq<Section>)
    requires SameFiles(host, a, b)
    ensures Prepare(host, clipboard, files, a) == Prepare(host, clipboard, files, b)
  {
    SectionsSpelled(host, clipboard, files, NO_PROGRESS, a, b, 0);
  }

  // ---------------------------------------------------------------- what an accepted patch is

  /** Every output belongs to a distinct file on disk, as it was when the patch was prepared. */
  ghost predicate SourcesOk(files: Files, outputs: seq<Output>) {
    && (forall i :: 0 <= i < |outputs| ==> outputs[i].source in files && outputs[i].original == files[outputs[i].source])
    && (forall i, j :: 0 <= i < j < |outputs| ==> outputs[i].source != outputs[j].source)
  }

  /** What holds of every rendered draft holds of every output. */
  lemma {:induction false} FinishedAll(render: Render, p: Progress, k: nat, ok: (Output, string) -> bool)
    requires k <= |p.order| && FinishWith(render, p, k).Ok?
    requires forall path :: path in p.drafts ==> ok(render(p.drafts[path]), path)
    ensures var outputs := FinishWith(render, p, k).value;
            |outputs| == |p.order| - k && forall i :: 0 <= i < |outputs| ==> ok(outputs[i], p.order[k + i])
    decreases |p.order| - k
  {
    if k < |p.order| {
      FinishedAll(render, p, k + 1, ok);
      var outputs, rest := FinishWith(render, p, k).value, FinishWith(render, p, k + 1).value;
      forall i | 0 <= i < |outputs| ensures ok(outputs[i], p.order[k + i]) {
        if i > 0 { assert outputs[i] == rest[i - 1]; }
      }
    }
  }

  lemma FinishedSources(files: Files, p: Progress, bound: nat)
    requires ProgressOk(files, p, bound) && Finish(p, 0).Ok?
    ensures SourcesOk(files, Finish(p, 0).value)
  {
    forall path | path in p.drafts ensures OutputFrom(files, OutputOf(p.drafts[path]), path) {
      assert DraftOk(files, p.drafts[path], path, bound);
    }
    FinishedAll(OutputOf, p, 0, (o, path) => OutputFrom(files, o, path));
    SourcesFrom(files, Finish(p, 0).value, p.order);
  }

  ghost predicate OutputFrom(files: Files, o: Output, path: string) {
    o.source == path && path in files && o.original == files[path]
  }

  /** What the commit may rely on. */
  lemma PreparedOk(host: Host, clipboard: Registers, files: Files, sections: seq<Section>)
    requires HostOk(host) && SectionsNumbered(sections, 0) && Prepare(host, clipboard, files, sections).Ok?
    ensures var outputs := Prepare(host, clipboard, files, sections).value.0; SourcesOk(files, outputs) && DestinationsOk(files, outputs)
  {
    var bound := CollectedOk(host, clipboard, files, sections);
    var p := PrepareSections(PatchAdvance(host, clipboard, files), NO_PROGRESS, sections, 0).value;
    CompletedOk(files, p, bound);
  }

  lemma CompletedOk(files: Files, p: Progress, bound: nat)
    requires ProgressOk(files, p, bound) && Complete(files, p).Ok?
    ensures var outputs := Complete(files, p).value.0; SourcesOk(files, outputs) && DestinationsOk(files, outputs)
  {
    FinishedSources(files, p, bound);
  }

  lemma SourcesFrom(files: Files, outputs: seq<Output>, order: seq<string>)
    requires |outputs| == |order| && forall i :: 0 <= i < |outputs| ==> OutputFrom(files, outputs[i], order[i])
    requires forall i, j :: 0 <= i < j < |order| ==> order[i] != order[j]
    ensures SourcesOk(files, outputs)
  {
  }

  // ---------------------------------------------------------------- the imperative form

  method CollectSection(host: Host, clipboard: Registers, files: Files, before: Progress, s: Section) returns (r: Result<Progress, PrepareError>)
    ensures r == PrepareSection(host, clipboard, files, before, s)
  {
    var relative := host.resolve(s.path);
    if relative.None? {
      return Err(BadPath(s.path));
    }
    r := OpenDraft(host, files, before, relative.value, s.tag);
    if r.Err? {
      return;
    }
    var step := SectionStep(host, clipboard, relative.value, |s.hunks| == 1);
    ghost var ready := r.value;
    for k := 0 to |s.hunks|
      invariant r.Ok? && PrepareHunks(step, ready, s.hunks, 0) == PrepareHunks(step, r.value, s.hunks, k)
    {
      r := step(r.value, s.hunks[k]);
      if r.Err? {
        return;
      }
    }
  }

  method CollectSections(host: Host, clipboard: Registers, files: Files, sections: seq<Section>) returns (r: Result<Progress, PrepareError>)
    ensures r == PrepareSections(PatchAdvance(host, clipboard, files), NO_PROGRESS, sections, 0)
  {
    ghost var advance := PatchAdvance(host, clipboard, files);
    r := Ok(NO_PROGRESS);
    for k := 0 to |sections|
      invariant r.Ok? && PrepareSections(advance, NO_PROGRESS, sections, 0) == PrepareSections(advance, r.value, sections, k)
    {
      ghost var p := r.value;
      r := CollectSection(host, clipboard, files, r.value, sections[k]);
      assert r == advance(p, sections[k]);
      if r.Err? {
        return;
      }
    }
  }

  function AfterOutputs(done: seq<Output>, r: Result<seq<Output>, PrepareError>): Result<seq<Output>, PrepareError> {
    match r case Err(e) => Err(e) case Ok(rest) => Ok(done + rest)
  }

  lemma StepOutputs(done: seq<Output>, o: Output, r: Result<seq<Output>, PrepareError>)
    ensures AfterOutputs(done, AfterOutputs([o], r)) == AfterOutputs(done + [o], r)
  {
    if r.Ok? { assert done + ([o] + r.value) == done + [o] + r.value; }
  }

  lemma NoOutputsYet(r: Result<seq<Output>, PrepareError>)
    ensures AfterOutputs([], r) == r
  {
    if r.Ok? { assert [] + r.value == r.value; }
  }

  /** Applies each file's actions. */
  method FinishDrafts(files: Files, p: Progress, ghost bound: nat) returns (r: Result<seq<Output>, PrepareError>)
    requires ProgressOk(files, p, bound)
    ensures r == Finish(p, 0)
  {
    var outputs: seq<Output> := [];
    NoOutputsYet(Finish(p, 0));
    for k := 0 to |p.order|
      invariant Finish(p, 0) == AfterOutputs(outputs, Finish(p, k))
    {
      var d := p.drafts[p.order[k]];
      assert DraftOk(files, d, p.order[k], bound);
      var final := "";
      if !d.remove {
        var applied := ApplyActions(d.lines, d.actions);
        if !applied.Applied? {
          return Err(ConflictingHunks(p.order[k]));
        }
        final := Join(applied.lines, '\n');
      }
      var o := Output(d.source, d.destination, d.original, d.text, final, d.remove, d.move);
      assert o == OutputOf(d);
      StepOutputs(outputs, o, Finish(p, k + 1));
      outputs := outputs + [o];
    }
    assert outputs + [] == outputs;
    return Ok(outputs);
  }

  /** validateHashlineDestinations. */
  method ValidateDestinations(files: Files, outputs: seq<Output>) returns (ok: bool)
    ensures ok <==> DestinationsOk(files, outputs)
  {
    var sources: set<string>, writers: map<string, string> := {}, map[];
    for k := 0 to |outputs|
      invariant forall path :: path in sources <==> exists j :: 0 <= j < k && outputs[j].source == path
    {
      sources := sources + {outputs[k].source};
    }
    for k := 0 to |outputs|
      invariant forall path :: path in writers <==> exists j :: 0 <= j < k && !outputs[j].remove && outputs[j].destination == path
      invariant forall i, j :: 0 <= i < j < k && !outputs[i].remove && !outputs[j].remove ==> outputs[i].destination != outputs[j].destination
      invariant forall i :: 0 <= i < k && !outputs[i].remove && outputs[i].destination != outputs[i].source ==>
                  outputs[i].destination in files ==> IsSource(outputs, outputs[i].destination)
    {
      var o := outputs[k];
      if !o.remove {
        if o.destination in writers {
          return false;
        }
        if o.destination != o.source && o.destination in files && o.destination !in sources {
          return false;
        }
        writers := writers[o.destination := o.source];
      }
    }
    return true;
  }

  method AcceptOutputs(files: Files, outputs: seq<Output>, registers: Registers) returns (r: Result<(seq<Output>, Registers), PrepareError>)
    ensures r == Accept(files, outputs, registers)
  {
    var mutated := false;
    for k := 0 to |outputs|
      invariant mutated <==> exists i :: 0 <= i < k && Changes(outputs[i])
    {
      if Changes(outputs[k]) {
        mutated := true;
      }
    }
    if !mutated && |registers| == 0 {
      return Err(NoChange);
    }
    var ok := ValidateDestinations(files, outputs);
    return if ok then Ok((outputs, registers)) else Err(BadDestinations);
  }

  /** preparePatch. Its hunks come from the parser, which is what `SectionsNumbered` says. */
  method PreparePatch(host: Host, clipboard: Registers, files: Files, sections: seq<Section>)
    returns (r: Result<(seq<Output>, Registers), PrepareError>)
    requires HostOk(host) && SectionsNumbered(sections, 0)
    ensures r == Prepare(host, clipboard, files, sections)
  {
    var collected := CollectSections(host, clipboard, files, sections);
    if collected.Err? {
      return Err(collected.error);
    }
    ghost var bound := CollectedOk(host, clipboard, files, sections);
    var finished := FinishDrafts(files, collected.value, bound);
    if finished.Err? {
      return Err(finished.error);
    }
    r := AcceptOutputs(files, finished.value, collected.value.registers);
  }

  lemma CollectedOk(host: Host, clipboard: Registers, files: Files, sections: seq<Section>) returns (bound: nat)
    requires HostOk(host) && SectionsNumbered(sections, 0)
    requires PrepareSections(PatchAdvance(host, clipboard, files), NO_PROGRESS, sections, 0).Ok?
    ensures ProgressOk(files, PrepareSections(PatchAdvance(host, clipboard, files), NO_PROGRESS, sections, 0).value, bound)
  {
    PatchAdvanceOk(host, clipboard, files);
    assert sections[0..] == sections;
    SectionsKeepOk(PatchAdvance(host, clipboard, files), files, NO_PROGRESS, sections, 0, 0);
    bound :| ProgressOk(files, PrepareSections(PatchAdvance(host, clipboard, files), NO_PROGRESS, sections, 0).value, bound);
  }
}

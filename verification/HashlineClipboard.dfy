/** The registers a scope keeps between patches: hashlineClipboard of internal/agent/hashline_edit.go. */
module HashlineClipboard {
  import opened HashlinePrepare
  import opened Positions
  import opened NativeEdits

  const MAX_REGISTERS: nat := 64
  const MAX_REGISTER_BYTES: nat := 0x400_0000

  function LinesBytes(lines: seq<string>): nat {
    if lines == [] then 0 else LinesBytes(lines[..|lines| - 1]) + Bytes(lines[|lines| - 1]) + 1
  }

  /** The size of some lines is that of their text when each line is ended. */
  lemma {:induction false} TextBytes(lines: seq<string>)
    ensures LinesBytes(lines) == |Utf8(Terminated(lines, |lines|))|
  {
    if lines != [] {
      var init, last := lines[..|lines| - 1], lines[|lines| - 1];
      TextBytes(init);
      TerminatedPrefix(lines, |init|);
      BytesAppend(Terminated(init, |init|), last);
      BytesAppend(Terminated(init, |init|) + last, "\n");
    }
  }

  lemma {:induction false} TerminatedPrefix(lines: seq<string>, n: nat)
    requires n < |lines|
    ensures Terminated(lines, n) == Terminated(lines[..|lines| - 1], n)
  {
    if n > 0 { TerminatedPrefix(lines, n - 1); }
  }

  /** hashlineRegisterBytes over the listed registers. */
  function TotalBytes(values: Registers, order: seq<string>): nat {
    if order == [] then 0
    else (if order[0] in values then LinesBytes(values[order[0]]) else 0) + TotalBytes(values, order[1..])
  }

  predicate WithinLimits(values: Registers, order: seq<string>) {
    |order| <= MAX_REGISTERS && TotalBytes(values, order) <= MAX_REGISTER_BYTES
  }

  /** The order lists every register once. */
  ghost predicate Lists(order: seq<string>, values: Registers) {
    && (forall name :: name in values <==> name in order)
    && (forall i, j :: 0 <= i < j < |order| ==> order[i] != order[j])
  }

  /** What a commit leaves: the registers in order of first use, the new ones last, without the oldest
      that do not fit, and no fewer than fit. */
  ghost predicate Kept(before: Registers, order: seq<string>, registers: Registers, added: seq<string>, evicted: nat, now: Registers, nowOrder: seq<string>) {
    && Lists(order + added, before + registers) && (forall name :: name in added ==> name in registers)
    && evicted <= |order + added| && nowOrder == (order + added)[evicted..] && Lists(nowOrder, now)
    && (forall name :: name in now ==> name in before + registers && now[name] == (before + registers)[name])
    && WithinLimits(now, nowOrder)
    && (evicted > 0 ==> !WithinLimits(before + registers, (order + added)[evicted - 1..]))
  }

  lemma {:induction false} SameBytes(a: Registers, b: Registers, order: seq<string>)
    requires forall name :: name in order ==> name in a && name in b && a[name] == b[name]
    ensures TotalBytes(a, order) == TotalBytes(b, order)
  {
    if order != [] {
      assert order[0] in order && forall name :: name in order[1..] ==> name in order;
      SameBytes(a, b, order[1..]);
    }
  }

  lemma ListsTail(order: seq<string>, values: Registers)
    requires Lists(order, values) && order != []
    ensures Lists(order[1..], values - {order[0]})
  {
    assert order == [order[0]] + order[1..];
  }

  /** Registers in the course of being entered: those in `todo` are still missing. */
  ghost predicate Entering(before: Registers, order: seq<string>, registers: Registers, todo: set<string>, added: seq<string>,
                           now: Registers, nowOrder: seq<string>)
  {
    && todo <= registers.Keys && now == before + (registers - todo) && nowOrder == order + added && Lists(nowOrder, now)
    && (forall name :: name in added ==> name in registers)
  }

  lemma NothingEntered(before: Registers, order: seq<string>, registers: Registers)
    requires Lists(order, before)
    ensures Entering(before, order, registers, registers.Keys, [], before, order)
  {
    assert registers - registers.Keys == map[] && before + map[] == before && order + [] == order;
  }

  lemma EnterOne(before: Registers, order: seq<string>, registers: Registers, todo: set<string>, added: seq<string>,
                 now: Registers, nowOrder: seq<string>, name: string)
    requires Entering(before, order, registers, todo, added, now, nowOrder) && name in todo
    ensures var next := now[name := registers[name]];
            if name in now then Entering(before, order, registers, todo - {name}, added, next, nowOrder)
            else Entering(before, order, registers, todo - {name}, added + [name], next, nowOrder + [name])
  {
    assert now[name := registers[name]] == before + (registers - (todo - {name}));
    assert order + (added + [name]) == order + added + [name];
  }

  /** Registers in the course of being dropped: each of the dropped ones had to go. */
  ghost predicate Evicting(before: Registers, order: seq<string>, evicted: nat, now: Registers, nowOrder: seq<string>) {
    && Lists(nowOrder, now) && evicted <= |order| && nowOrder == order[evicted..]
    && (forall name :: name in now ==> name in before && now[name] == before[name])
    && (evicted > 0 ==> !WithinLimits(before, order[evicted - 1..]))
  }

  lemma NothingEvicted(before: Registers, order: seq<string>)
    requires Lists(order, before)
    ensures Evicting(before, order, 0, before, order)
  {
    assert order[0..] == order;
  }

  lemma EvictOne(before: Registers, order: seq<string>, evicted: nat, now: Registers, nowOrder: seq<string>)
    requires Evicting(before, order, evicted, now, nowOrder) && !WithinLimits(now, nowOrder)
    ensures nowOrder != [] && Evicting(before, order, evicted + 1, now - {nowOrder[0]}, nowOrder[1..])
  {
    SameBytes(now, before, nowOrder);
    ListsTail(nowOrder, now);
    assert nowOrder[1..] == order[evicted + 1..];
  }

  lemma NothingKept(before: Registers, order: seq<string>, registers: Registers)
    requires registers == map[] && Lists(order, before) && WithinLimits(before, order)
    ensures Kept(before, order, registers, [], 0, before, order)
  {
    assert before + registers == before && order + [] == order;
  }

  class Clipboard {
    var values: Registers
    var order: seq<string>

    ghost predicate Valid()
      reads this
    {
      Lists(order, values) && WithinLimits(values, order)
    }

    constructor ()
      ensures Valid() && values == map[]
    {
      values, order := map[], [];
    }

    /** Enters the registers of a patch, in whatever order the map yields them. */
    method Enter(registers: Registers) returns (ghost added: seq<string>)
      requires Lists(order, values)
      modifies this
      ensures values == old(values) + registers && order == old(order) + added && Lists(order, values)
      ensures forall name :: name in added ==> name in registers
    {
      added := [];
      var todo := registers.Keys;
      NothingEntered(values, order, registers);
      while todo != {}
        invariant Entering(old(values), old(order), registers, todo, added, values, order)
        decreases todo
      {
        var name :| name in todo;
        EnterOne(old(values), old(order), registers, todo, added, values, order, name);
        if name !in values {
          order := order + [name];
          added := added + [name];
        }
        values := values[name := registers[name]];
        todo := todo - {name};
      }
      assert registers - todo == registers;
    }

    /** Drops the oldest registers until the rest is within the limits. */
    method Evict() returns (ghost evicted: nat)
      requires Lists(order, values)
      modifies this
      ensures Valid() && evicted <= |old(order)| && order == old(order)[evicted..]
      ensures forall name :: name in values ==> name in old(values) && values[name] == old(values)[name]
      ensures evicted > 0 ==> !WithinLimits(old(values), old(order)[evicted - 1..])
    {
      evicted := 0;
      NothingEvicted(values, order);
      while !WithinLimits(values, order)
        invariant Evicting(old(values), old(order), evicted, values, order)
        decreases |order|
      {
        EvictOne(old(values), old(order), evicted, values, order);
        var oldest := order[0];
        order := order[1..];
        values := values - {oldest};
        evicted := evicted + 1;
      }
    }

    /** commit: the registers of a committed patch replace those of the same name; nothing to enter
        changes nothing. */
    method Commit(registers: Registers) returns (ghost added: seq<string>, ghost evicted: nat)
      requires Valid()
      modifies this
      ensures Valid() && Kept(old(values), old(order), registers, added, evicted, values, order)
      ensures registers == map[] ==> values == old(values) && order == old(order)
    {
      added, evicted := [], 0;
      if |registers| == 0 {
        NothingKept(values, order, registers);
        return;
      }
      added := Enter(registers);
      evicted := Evict();
    }
  }
}

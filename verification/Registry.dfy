/** The adapter registry: artifacts deployed on exact base routes, killed for good, and rolled back. */
module Registry {
  import opened Common
  import opened Text

  datatype Route = Route(provider: string, model: string, reasoning: string)

  /** An artifact: its identity, base route, serving route, rollback target ("base" or an identity)
      and a stand-in for the rest of its content. */
  datatype Artifact = Artifact(id: string, base: Route, serving: Route, rollback: string, killSwitch: bool, rest: nat)

  /** What the registry relies on: Validate and the key of a base route. */
  datatype Rules = Rules(valid: Artifact -> bool, key: Route -> string)

  /** The registry's maps, and the order in which identities were first registered. */
  datatype State = State(artifacts: map<string, Artifact>, active: map<string, string>, killed: map<string, bool>, order: seq<string>)

  predicate Killed(st: State, id: string) { id in st.killed && st.killed[id] }

  /** The checks of Deploy under its lock. */
  predicate Deployable(rules: Rules, st: State, a: Artifact) {
    && (a.rollback == "base"
        || (a.rollback in st.artifacts && !Killed(st, a.rollback) && rules.key(st.artifacts[a.rollback].base) == rules.key(a.base)))
    && (a.id in st.artifacts ==> !Killed(st, a.id) && st.artifacts[a.id] == a)
  }

  /** What the caller and the two trust boundaries must grant first. */
  datatype Grant = Grant(base: Route, reportTrusted: bool, routeServed: bool)

  predicate Granted(a: Artifact, g: Grant) { g.base == a.base && g.reportTrusted && g.routeServed }

  function Deployed(rules: Rules, st: State, a: Artifact, g: Grant): State {
    if !rules.valid(a) || !Granted(a, g) || !Deployable(rules, st, a) then st
    else
      State(st.artifacts[a.id := a], st.active[rules.key(a.base) := a.id], st.killed[a.id := false],
            if a.id in st.artifacts then st.order else st.order + [a.id])
  }

  function AfterKill(rules: Rules, st: State, id: string): State {
    if id !in st.artifacts then st
    else
      var a := st.artifacts[id];
      var marked := st.(killed := st.killed[id := true]);
      if rules.key(a.base) !in st.active || st.active[rules.key(a.base)] != id then marked
      else if a.rollback == "base" || Killed(marked, a.rollback) then marked.(active := st.active - {rules.key(a.base)})
      else if a.rollback in st.artifacts && rules.valid(st.artifacts[a.rollback]) then marked.(active := st.active[rules.key(a.base) := a.rollback])
      else marked.(active := st.active - {rules.key(a.base)})
  }

  /** Resolve: the serving route and the adapter behind it, or the route as it was. */
  function Resolved(rules: Rules, st: State, r: Route): (Route, Option<string>) {
    var key := rules.key(r);
    if key in st.active && st.active[key] in st.artifacts && !Killed(st, st.active[key]) && rules.valid(st.artifacts[st.active[key]])
    then (st.artifacts[st.active[key]].serving, Some(st.active[key]))
    else (r, None)
  }

  // ---------------------------------------------------------------- what every operation keeps

  ghost predicate ArtifactsOk(rules: Rules, st: State) {
    forall id :: id in st.artifacts ==> st.artifacts[id].id == id && rules.valid(st.artifacts[id])
  }

  /** Every active entry is a registered artifact of that key that has not been killed. */
  ghost predicate ActiveOk(rules: Rules, st: State) {
    forall key :: key in st.active ==>
      st.active[key] in st.artifacts && !Killed(st, st.active[key]) && rules.key(st.artifacts[st.active[key]].base) == key
  }

  ghost predicate Earlier(order: seq<string>, i: nat, id: string) { exists j :: 0 <= j < i && j < |order| && order[j] == id }

  /** Rollback links lead to the same key and only to identities registered earlier. */
  ghost predicate OrderOk(rules: Rules, st: State) {
    && (forall i :: 0 <= i < |st.order| ==> st.order[i] in st.artifacts)
    && (forall id :: id in st.artifacts ==> id in st.order)
    && (forall i :: 0 <= i < |st.order| ==> LinkOk(rules, st, i))
  }

  ghost predicate LinkOk(rules: Rules, st: State, i: nat)
    requires i < |st.order| && st.order[i] in st.artifacts
  {
    var a := st.artifacts[st.order[i]];
    a.rollback == "base"
    || (Earlier(st.order, i, a.rollback) && a.rollback in st.artifacts && rules.key(st.artifacts[a.rollback].base) == rules.key(a.base))
  }

  ghost predicate Inv(rules: Rules, st: State) { ArtifactsOk(rules, st) && ActiveOk(rules, st) && OrderOk(rules, st) }

  lemma DeployOrder(rules: Rules, st: State, a: Artifact, g: Grant)
    requires OrderOk(rules, st)
    ensures OrderOk(rules, Deployed(rules, st, a, g))
  {
    var t := Deployed(rules, st, a, g);
    if t != st {
      forall i | 0 <= i < |t.order| ensures t.order[i] in t.artifacts && LinkOk(rules, t, i) {
        if i < |st.order| {
          assert st.order[i] in st.artifacts && LinkOk(rules, st, i);
          var b := st.artifacts[st.order[i]];
          if b.rollback != "base" {
            var j :| 0 <= j < i && j < |st.order| && st.order[j] == b.rollback;
            assert t.order[j] == b.rollback;
          }
        } else if a.rollback != "base" {
          assert a.rollback in st.order;
          var j :| 0 <= j < |st.order| && st.order[j] == a.rollback;
          assert t.order[j] == a.rollback;
        }
      }
      forall id | id in t.artifacts ensures id in t.order {
        if id in st.artifacts { assert id in st.order; } else { assert t.order[|st.order|] == id; }
      }
    }
  }

  lemma DeployKeeps(rules: Rules, st: State, a: Artifact, g: Grant)
    requires Inv(rules, st)
    ensures Inv(rules, Deployed(rules, st, a, g))
  {
    DeployOrder(rules, st, a, g);
  }

  lemma KillKeeps(rules: Rules, st: State, id: string)
    requires Inv(rules, st)
    ensures Inv(rules, AfterKill(rules, st, id))
  {
    KillOrder(rules, st, id);
    if id in st.artifacts {
      assert st.artifacts[id].id == id;
      LinkOf(rules, st, id);
    }
  }

  lemma KillOrder(rules: Rules, st: State, id: string)
    requires OrderOk(rules, st)
    ensures OrderOk(rules, AfterKill(rules, st, id))
  {
    var t := AfterKill(rules, st, id);
    forall i | 0 <= i < |t.order| ensures t.order[i] in t.artifacts && LinkOk(rules, t, i) {
      assert LinkOk(rules, st, i);
    }
  }

  lemma LinkOf(rules: Rules, st: State, id: string)
    requires OrderOk(rules, st) && id in st.artifacts
    ensures var a := st.artifacts[id];
            a.rollback == "base" || (a.rollback in st.artifacts && rules.key(st.artifacts[a.rollback].base) == rules.key(a.base))
  {
    assert id in st.order;
    var i :| 0 <= i < |st.order| && st.order[i] == id;
    assert LinkOk(rules, st, i);
  }

  // ---------------------------------------------------------------- histories

  datatype Op = Deploy(artifact: Artifact, grant: Grant) | Kill(id: string)

  function Step(rules: Rules, st: State, op: Op): State {
    match op
    case Deploy(a, g) => Deployed(rules, st, a, g)
    case Kill(id) => AfterKill(rules, st, id)
  }

  function After(rules: Rules, ops: seq<Op>): State {
    if ops == [] then State(map[], map[], map[], []) else Step(rules, After(rules, ops[..|ops| - 1]), ops[|ops| - 1])
  }

  lemma {:induction false} AfterInv(rules: Rules, ops: seq<Op>)
    ensures Inv(rules, After(rules, ops))
  {
    if ops != [] {
      AfterInv(rules, ops[..|ops| - 1]);
      var st := After(rules, ops[..|ops| - 1]);
      match ops[|ops| - 1]
      case Deploy(a, g) => DeployKeeps(rules, st, a, g);
      case Kill(id) => KillKeeps(rules, st, id);
    }
  }

  // ---------------------------------------------------------------- what one operation does

  lemma SelfLoop(st: State, id: string, n: nat)
    requires id in st.artifacts && st.artifacts[id].rollback == id && id != "base"
    ensures Follow(st, id, n) == id
  {
    if n > 0 { SelfLoop(st, id, n - 1); }
  }

  /** No artifact is its own rollback target. */
  lemma TargetIsOther(rules: Rules, st: State, id: string)
    requires OrderOk(rules, st) && id in st.artifacts && st.artifacts[id].rollback != "base"
    ensures st.artifacts[id].rollback != id
  {
    assert id in st.order;
    var i :| 0 <= i < |st.order| && st.order[i] == id;
    ChainEnds(rules, st, i, i + 1);
    if st.artifacts[id].rollback == id { SelfLoop(st, id, i + 1); }
  }

  /** Where an artifact was active before it was killed, its rollback target is active afterwards unless that
      is the base route or killed, and then nothing is; elsewhere everything is as it was. */
  ghost predicate FallsBack(before: State, after: State, id: string) {
    forall key {:trigger key in after.active} ::
      if key in before.active && before.active[key] == id && id in before.artifacts then
        var target := before.artifacts[id].rollback;
        if target == "base" || Killed(before, target) then key !in after.active
        else key in after.active && after.active[key] == target
      else
        && (key in after.active <==> key in before.active)
        && (key in before.active ==> after.active[key] == before.active[key])
  }

  lemma KillFalls(rules: Rules, st: State, id: string)
    requires Inv(rules, st)
    ensures FallsBack(st, AfterKill(rules, st, id), id)
  {
    if id in st.artifacts {
      assert st.artifacts[id].id == id;
      LinkOf(rules, st, id);
      if st.artifacts[id].rollback != "base" { TargetIsOther(rules, st, id); }
      forall key | key in st.active && st.active[key] == id ensures key == rules.key(st.artifacts[id].base) {}
    }
  }

  /** Main theorem: in every history, killing an artifact marks it and no other, changes no content, and puts its
      rollback target in its place wherever it was active, unless the target is the base route or has been
      killed: then nothing is active there. Every other key is as it was. */
  lemma KillFallsBack(rules: Rules, ops: seq<Op>, id: string)
    ensures var st, t := After(rules, ops), After(rules, ops + [Kill(id)]);
            && t.artifacts == st.artifacts
            && (forall other :: Killed(t, other) <==> Killed(st, other) || (other == id && id in st.artifacts))
            && FallsBack(st, t, id)
  {
    assert (ops + [Kill(id)])[..|ops|] == ops;
    AfterInv(rules, ops);
    KillFalls(rules, After(rules, ops), id);
  }

  /** In every history, a deployment takes effect exactly when the artifact is valid, the caller's route and both
      trust boundaries agree, its rollback target is the base route or a registered artifact of the same key that
      has not been killed, and its identity is new or registered with the same content and not killed. Then it is
      active for its key whatever was; otherwise the registry is as it was. */
  lemma DeployExactly(rules: Rules, ops: seq<Op>, a: Artifact, g: Grant)
    ensures var st, t := After(rules, ops), After(rules, ops + [Deploy(a, g)]);
            var takes :=
              && rules.valid(a) && g == Grant(a.base, true, true)
              && (a.rollback != "base" ==>
                    a.rollback in st.artifacts && !Killed(st, a.rollback) && rules.key(st.artifacts[a.rollback].base) == rules.key(a.base))
              && (a.id in st.artifacts ==> st.artifacts[a.id] == a && !Killed(st, a.id));
            && (!takes ==> t == st)
            && (takes ==>
                  && t.artifacts == st.artifacts[a.id := a] && t.active == st.active[rules.key(a.base) := a.id]
                  && forall id :: Killed(t, id) <==> Killed(st, id))
  {
    assert (ops + [Deploy(a, g)])[..|ops|] == ops;
    AfterInv(rules, ops);
    UnregisteredNotKilled(rules, ops, a.id);
  }

  /** Only registered artifacts are marked as killed. */
  lemma {:induction false} UnregisteredNotKilled(rules: Rules, ops: seq<Op>, id: string)
    ensures Killed(After(rules, ops), id) ==> id in After(rules, ops).artifacts
  {
    if ops != [] { UnregisteredNotKilled(rules, ops[..|ops| - 1], id); }
  }

  lemma StepContent(rules: Rules, st: State, op: Op, id: string)
    requires id in st.artifacts
    ensures id in Step(rules, st, op).artifacts && Step(rules, st, op).artifacts[id] == st.artifacts[id]
  {
  }

  lemma AfterMore(rules: Rules, ops: seq<Op>, more: seq<Op>)
    requires more != []
    ensures After(rules, ops + more) == Step(rules, After(rules, ops + more[..|more| - 1]), more[|more| - 1])
  {
    assert (ops + more)[..|ops + more| - 1] == ops + more[..|more| - 1];
  }

  /** What is registered under an identity never changes. */
  lemma {:induction false} ContentForever(rules: Rules, ops: seq<Op>, more: seq<Op>, id: string)
    requires id in After(rules, ops).artifacts
    ensures id in After(rules, ops + more).artifacts && After(rules, ops + more).artifacts[id] == After(rules, ops).artifacts[id]
  {
    if more == [] {
      assert ops + more == ops;
    } else {
      var init, last := more[..|more| - 1], more[|more| - 1];
      ContentForever(rules, ops, init, id);
      AfterMore(rules, ops, more);
      StepContent(rules, After(rules, ops + init), last, id);
    }
  }

  lemma StepKilled(rules: Rules, st: State, op: Op, id: string)
    requires Inv(rules, st) && id in st.artifacts && Killed(st, id)
    ensures id in Step(rules, st, op).artifacts && Killed(Step(rules, st, op), id)
  {
  }

  /** A killed artifact stays killed, whatever is deployed later. */
  lemma {:induction false} KilledForever(rules: Rules, ops: seq<Op>, more: seq<Op>, id: string)
    requires id in After(rules, ops).artifacts && Killed(After(rules, ops), id)
    ensures id in After(rules, ops + more).artifacts && Killed(After(rules, ops + more), id)
  {
    if more == [] {
      assert ops + more == ops;
    } else {
      var init, last := more[..|more| - 1], more[|more| - 1];
      KilledForever(rules, ops, init, id);
      AfterMore(rules, ops, more);
      AfterInv(rules, ops + init);
      StepKilled(rules, After(rules, ops + init), last, id);
    }
  }

  /** In every reachable registry an active entry is a registered, valid artifact deployed for that
      key that was never killed before. */
  lemma ActiveIsLive(rules: Rules, ops: seq<Op>, more: seq<Op>, key: string)
    requires key in After(rules, ops + more).active
    ensures var st := After(rules, ops + more);
            && st.active[key] in st.artifacts && rules.valid(st.artifacts[st.active[key]])
            && rules.key(st.artifacts[st.active[key]].base) == key
            && !Killed(st, st.active[key])
            && (st.active[key] in After(rules, ops).artifacts ==> !Killed(After(rules, ops), st.active[key]))
  {
    AfterInv(rules, ops + more);
    var id := After(rules, ops + more).active[key];
    if id in After(rules, ops).artifacts && Killed(After(rules, ops), id) {
      KilledForever(rules, ops, more, id);
      assert false;
    }
  }

  /** Following n rollback links from an identity; "base" is the end. */
  ghost function Follow(st: State, id: string, n: nat): string
    decreases n
  {
    if n == 0 || id == "base" || id !in st.artifacts then id else Follow(st, st.artifacts[id].rollback, n - 1)
  }

  lemma {:induction false} FollowFixed(st: State, n: nat)
    ensures Follow(st, "base", n) == "base"
  {
  }

  /** Rollback links are well-founded: from the i-th registered artifact they end within i + 1 steps. */
  lemma {:induction false} ChainEnds(rules: Rules, st: State, i: nat, n: nat)
    requires OrderOk(rules, st) && i < |st.order| && i < n
    ensures Follow(st, st.order[i], n) == "base"
    decreases i
  {
    assert LinkOk(rules, st, i);
    var a := st.artifacts[st.order[i]];
    FollowFixed(st, n - 1);
    if a.rollback != "base" {
      var j :| 0 <= j < i && j < |st.order| && st.order[j] == a.rollback;
      ChainEnds(rules, st, j, n - 1);
    }
  }

  lemma RollbacksEnd(rules: Rules, ops: seq<Op>, id: string)
    requires id in After(rules, ops).artifacts
    ensures Follow(After(rules, ops), id, |After(rules, ops).order|) == "base"
  {
    AfterInv(rules, ops);
    var st := After(rules, ops);
    assert id in st.order;
    var i :| 0 <= i < |st.order| && st.order[i] == id;
    ChainEnds(rules, st, i, |st.order|);
  }

  // ---------------------------------------------------------------- killing back to the base route

  ghost function Live(rules: Rules, st: State, key: string): set<string> {
    set id | id in st.artifacts && !Killed(st, id) && rules.key(st.artifacts[id].base) == key
  }

  /** Kill whatever is active for the key, n times. */
  function KillActive(rules: Rules, st: State, key: string, n: nat): State
    decreases n
  {
    if n == 0 || key !in st.active then st else KillActive(rules, AfterKill(rules, st, st.active[key]), key, n - 1)
  }

  lemma KillShrinks(rules: Rules, st: State, key: string)
    requires Inv(rules, st) && key in st.active
    ensures Live(rules, AfterKill(rules, st, st.active[key]), key) == Live(rules, st, key) - {st.active[key]}
    ensures st.active[key] in Live(rules, st, key)
  {
    var id := st.active[key];
    var t := AfterKill(rules, st, id);
    assert t.artifacts == st.artifacts && t.killed == st.killed[id := true];
  }

  /** Killing the active artifact over and over reaches the base route within as many kills as
      there are live artifacts for it. */
  lemma {:induction false} KillsReachBase(rules: Rules, st: State, key: string, n: nat)
    requires Inv(rules, st) && |Live(rules, st, key)| <= n
    ensures key !in KillActive(rules, st, key, n).active
    decreases n
  {
    if key in st.active {
      KillShrinks(rules, st, key);
      KillKeeps(rules, st, st.active[key]);
      KillsReachBase(rules, AfterKill(rules, st, st.active[key]), key, n - 1);
    }
  }

  // ---------------------------------------------------------------- the keys and checks in use

  predicate HexDigit(c: char) { '0' <= c <= '9' || 'a' <= c <= 'f' }

  predicate AdapterId(s: string) {
    |s| == 72 && HasPrefix(s, "adapter:") && forall i :: 8 <= i < |s| ==> HexDigit(s[i])
  }

  predicate Trimmed(s: string) { TrimSpace(s) != "" && TrimSpace(s) == s }

  /** Validate; `identity` is the content digest, `contentOk` its checks of payload digests,
      lineage and validation report. */
  predicate Validate(identity: Artifact -> string, contentOk: Artifact -> bool, a: Artifact) {
    && AdapterId(a.id) && a.id == identity(a.(id := "")) && contentOk(a) && !a.killSwitch
    && Trimmed(a.base.provider) && Trimmed(a.base.model)
    && a.serving.provider == a.base.provider && Trimmed(a.serving.model)
    && a.serving.model != a.base.model && a.serving.reasoning == a.base.reasoning
    && a.rollback != "" && TrimSpace(a.rollback) == a.rollback
    && (a.rollback == "base" || (AdapterId(a.rollback) && a.rollback != a.id))
  }

  function BaseKey(r: Route): string { r.provider + "\0" + r.model + "\0" + r.reasoning }

  function InUse(identity: Artifact -> string, contentOk: Artifact -> bool): Rules {
    Rules(a => Validate(identity, contentOk, a), BaseKey)
  }

  /** What a caller can check of a route before it asks. */
  predicate NulFree(r: Route) { '\0' !in r.provider && '\0' !in r.model && '\0' !in r.reasoning }

  lemma HeadEqual(a: string, b: string, s: string, t: string)
    requires '\0' !in a && '\0' !in b && a + "\0" + s == b + "\0" + t
    ensures a == b && s == t
  {
    var x, y := a + ['\0'] + s, b + ['\0'] + t;
    SplitHead(a, s, '\0');
    SplitHead(b, t, '\0');
    assert a == Split(x, '\0')[0] && b == Split(y, '\0')[0];
    assert s == x[|a| + 1..] && t == y[|b| + 1..];
  }

  lemma NulsInKey(r: Route)
    ensures multiset(BaseKey(r))['\0'] == multiset(r.provider)['\0'] + multiset(r.model)['\0'] + multiset(r.reasoning)['\0'] + 2
  {
    assert BaseKey(r) == r.provider + ['\0'] + r.model + ['\0'] + r.reasoning;
  }

  lemma SameNuls(r: Route, s: Route)
    requires NulFree(r) && BaseKey(r) == BaseKey(s)
    ensures NulFree(s)
  {
    NulsInKey(r);
    NulsInKey(s);
    assert forall t: string :: '\0' in t <==> multiset(t)['\0'] > 0;
  }

  /** A route without NUL characters shares its key with no other route. */
  lemma KeyExact(r: Route, s: Route)
    requires NulFree(r) && BaseKey(r) == BaseKey(s)
    ensures r == s
  {
    SameNuls(r, s);
    assert BaseKey(r) == r.provider + "\0" + (r.model + "\0" + r.reasoning);
    assert BaseKey(s) == s.provider + "\0" + (s.model + "\0" + s.reasoning);
    HeadEqual(r.provider, s.provider, r.model + "\0" + r.reasoning, s.model + "\0" + s.reasoning);
    HeadEqual(r.model, s.model, r.reasoning, s.reasoning);
  }

  lemma CutAtNul(t: string) returns (x: string, y: string)
    requires '\0' in t
    ensures t == x + "\0" + y && |x| < |t|
  {
    var i :| 0 <= i < |t| && t[i] == '\0';
    x, y := t[..i], t[i + 1..];
  }

  /** A route with a NUL character in any field shares its key with another route. */
  lemma TwinOf(r: Route) returns (s: Route)
    requires !NulFree(r)
    ensures s != r && BaseKey(s) == BaseKey(r)
  {
    if '\0' in r.provider {
      var x, y := CutAtNul(r.provider);
      s := Route(x, y, r.model + "\0" + r.reasoning);
    } else if '\0' in r.model {
      var x, y := CutAtNul(r.model);
      s := Route(r.provider, x, y + "\0" + r.reasoning);
    } else {
      var x, y := CutAtNul(r.reasoning);
      s := Route(r.provider, r.model + "\0" + x, y);
      assert |s.model| > |r.model|;
    }
  }

  /** A key belongs to one route exactly when that route has no NUL character. */
  lemma KeyUnique(r: Route)
    ensures (forall s :: BaseKey(s) == BaseKey(r) ==> s == r) <==> NulFree(r)
  {
    if NulFree(r) {
      forall s | BaseKey(s) == BaseKey(r) ensures s == r { KeyExact(r, s); }
    } else {
      var s := TwinOf(r);
    }
  }

  /** Resolving a route finds an artifact exactly when one is active, deployed for exactly that
      route; its serving route keeps provider and reasoning and changes the model. */
  lemma ResolveExact(identity: Artifact -> string, contentOk: Artifact -> bool, ops: seq<Op>, r: Route)
    requires NulFree(r)
    ensures var rules := InUse(identity, contentOk);
            var st := After(rules, ops);
            var (route, adapter) := Resolved(rules, st, r);
            && (adapter.Some? <==> BaseKey(r) in st.active)
            && (adapter.None? ==> route == r)
            && (adapter.Some? ==>
                  && adapter.value == st.active[BaseKey(r)] && adapter.value in st.artifacts && route == st.artifacts[adapter.value].serving
                  && st.artifacts[adapter.value].base == r && !Killed(st, adapter.value) && !st.artifacts[adapter.value].killSwitch
                  && adapter.value == identity(st.artifacts[adapter.value].(id := ""))
                  && route.provider == r.provider && route.reasoning == r.reasoning && route.model != r.model)
  {
    var rules := InUse(identity, contentOk);
    AfterInv(rules, ops);
    var st := After(rules, ops);
    if BaseKey(r) in st.active {
      var id := st.active[BaseKey(r)];
      assert rules.valid(st.artifacts[id]) && rules.key(st.artifacts[id].base) == BaseKey(r);
      KeyExact(r, st.artifacts[id].base);
    }
  }

  /** What is served in place of a route: the adapter's name is `adapter:` and 64 hexadecimal digits, and
      neither provider nor model, asked or served, is blank or has white space around it. */
  lemma ServedWell(identity: Artifact -> string, contentOk: Artifact -> bool, ops: seq<Op>, r: Route)
    requires NulFree(r) && Resolved(InUse(identity, contentOk), After(InUse(identity, contentOk), ops), r).1.Some?
    ensures var (route, adapter) := Resolved(InUse(identity, contentOk), After(InUse(identity, contentOk), ops), r);
            && r.provider != "" && Tight(r.provider) && r.model != "" && Tight(r.model) && route.model != "" && Tight(route.model)
            && |adapter.value| == 72 && adapter.value[..8] == "adapter:"
            && forall c :: c in adapter.value[8..] ==> '0' <= c <= '9' || 'a' <= c <= 'f'
  {
    var rules := InUse(identity, contentOk);
    AfterInv(rules, ops);
    var st := After(rules, ops);
    var id := st.active[BaseKey(r)];
    var a := st.artifacts[id];
    assert rules.valid(a) && rules.key(a.base) == BaseKey(r);
    KeyExact(r, a.base);
    TrimmedIsTight(r.provider);
    TrimmedIsTight(r.model);
    TrimmedIsTight(a.serving.model);
    HexIs(id);
  }

  lemma TrimmedIsTight(s: string)
    requires Trimmed(s)
    ensures s != "" && Tight(s)
  {
    var before, after := TrimParts(s);
  }

  lemma HexIs(id: string)
    requires AdapterId(id)
    ensures id[..8] == "adapter:" && forall c :: c in id[8..] ==> '0' <= c <= '9' || 'a' <= c <= 'f'
  {
    forall c | c in id[8..] ensures '0' <= c <= '9' || 'a' <= c <= 'f' {
      var i :| 0 <= i < |id[8..]| && id[8..][i] == c;
      assert HexDigit(id[8 + i]);
    }
  }

  /** Whenever two routes share a key, an artifact deployed for one answers for the other. */
  lemma SharedKeyAnswers(identity: Artifact -> string, contentOk: Artifact -> bool, a: Artifact, r: Route)
    requires Validate(identity, contentOk, a) && a.rollback == "base" && BaseKey(r) == BaseKey(a.base)
    ensures var rules := InUse(identity, contentOk);
            Resolved(rules, After(rules, [Deploy(a, Grant(a.base, true, true))]), r) == (a.serving, Some(a.id))
  {
    var rules := InUse(identity, contentOk);
    var ops := [Deploy(a, Grant(a.base, true, true))];
    assert ops[..0] == [];
    assert After(rules, ops[..0]) == State(map[], map[], map[], []);
  }

  /** Such routes exist, and a NUL in the reasoning is enough on the side that asks. */
  lemma NulRoutesCollide(identity: Artifact -> string, contentOk: Artifact -> bool, a: Artifact)
    requires Validate(identity, contentOk, a) && a.base == Route("p", "m\0n", "r") && a.rollback == "base"
    ensures var rules := InUse(identity, contentOk);
            Resolved(rules, After(rules, [Deploy(a, Grant(a.base, true, true))]), Route("p", "m", "n\0r")) == (a.serving, Some(a.id))
  {
    assert BaseKey(a.base) == "p\0m\0n\0r" && BaseKey(Route("p", "m", "n\0r")) == "p\0m\0n\0r";
    SharedKeyAnswers(identity, contentOk, a, Route("p", "m", "n\0r"));
  }

  // ---------------------------------------------------------------- the registry object

  class Registry {
    const rules: Rules
    var artifacts: map<string, Artifact>
    var active: map<string, string>
    var killed: map<string, bool>
    ghost var order: seq<string>

    ghost function Contents(): State
      reads this
    {
      State(artifacts, active, killed, order)
    }

    ghost predicate Valid()
      reads this
    {
      Inv(rules, Contents())
    }

    constructor (rules: Rules)
      ensures Valid() && this.rules == rules && Contents() == After(rules, [])
    {
      this.rules := rules;
      artifacts, active, killed, order := map[], map[], map[], [];
    }

    predicate IsKilled(id: string)
      reads this
    {
      id in killed && killed[id]
    }

    /** Deploys unless a check refuses; a refusal changes nothing. */
    method Deploy(a: Artifact, g: Grant) returns (ok: bool)
      requires Valid()
      modifies this
      ensures Valid() && Contents() == Deployed(rules, old(Contents()), a, g)
      ensures ok <==> rules.valid(a) && Granted(a, g) && Deployable(rules, old(Contents()), a)
      ensures ok ==> active == old(active)[rules.key(a.base) := a.id]
    {
      DeployKeeps(rules, Contents(), a, g);
      if !rules.valid(a) || !Granted(a, g) { return false; }
      var key := rules.key(a.base);
      if a.rollback != "base" {
        if a.rollback !in artifacts || IsKilled(a.rollback) || rules.key(artifacts[a.rollback].base) != key { return false; }
      }
      if a.id in artifacts {
        if IsKilled(a.id) || artifacts[a.id] != a { return false; }
      }
      order := if a.id in artifacts then order else order + [a.id];
      artifacts := artifacts[a.id := a];
      killed := killed[a.id := false];
      active := active[key := a.id];
      ok := true;
    }

    /** Kills an artifact for good and, where it was active, falls back to its rollback target or
        to the base route. */
    method Kill(id: string) returns (ok: bool)
      requires Valid()
      modifies this
      ensures Valid() && Contents() == AfterKill(rules, old(Contents()), id)
      ensures ok <==> id in old(artifacts)
      ensures ok ==> IsKilled(id) && artifacts == old(artifacts)
      ensures FallsBack(old(Contents()), Contents(), id)
    {
      KillKeeps(rules, Contents(), id);
      KillFalls(rules, Contents(), id);
      if id !in artifacts { return false; }
      var a := artifacts[id];
      killed := killed[id := true];
      var key := rules.key(a.base);
      ok := true;
      if key !in active || active[key] != id { return; }
      if a.rollback == "base" || IsKilled(a.rollback) {
        active := active - {key};
      } else if a.rollback in artifacts && rules.valid(artifacts[a.rollback]) {
        active := active[key := a.rollback];
      } else {
        active := active - {key};
      }
    }

    method Resolve(r: Route) returns (route: Route, adapter: Option<string>)
      requires Valid()
      ensures (route, adapter) == Resolved(rules, Contents(), r)
      ensures adapter.Some? <==> rules.key(r) in active
    {
      route, adapter := r, None;
      var key := rules.key(r);
      if key in active && active[key] in artifacts && !IsKilled(active[key]) && rules.valid(artifacts[active[key]]) {
        route, adapter := artifacts[active[key]].serving, Some(active[key]);
      }
    }
  }
}

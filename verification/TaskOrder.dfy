/** The order in which the resolver runs commands that do not have to wait for each
    other: requests in the order of the request, and of the targets that one command
    waits for the one named last first. */
module TaskOrder {
  import opened TaskResolver
  import opened TaskGraph

  // Some beginning of the queue holds `a` and not `b`.
  ghost predicate Precedes(run: seq<Task>, a: Name, b: Name) {
    exists k :: 0 <= k <= |run| && a in Names(run[..k]) && b !in Names(run[..k])
  }

  lemma PrecedesIsPosition(run: seq<Task>, a: Name, b: Name)
    requires Distinct(run) && Precedes(run, a, b) && b in Names(run)
    ensures a in Names(run) && Position(run, a) < Position(run, b)
  {
    var k :| 0 <= k <= |run| && a in Names(run[..k]) && b !in Names(run[..k]);
    var t :| t in run[..k] && t.name == a;
    var i :| 0 <= i < k && run[i] == t;
    assert t in run && Position(run, a) == i;
    assert forall j :: 0 <= j < k ==> run[j] in run[..k];
  }

  // ----- what commands may wait for -----

  // `n` is reached from `roots` along dependencies and order-only dependencies.
  ghost predicate Needs(reg: Registry, roots: set<Name>, n: Name) {
    exists p :: p != [] && IsWalk(reg, p) && p[0] in roots && p[|p| - 1] == n
  }

  ghost function Needed(reg: Registry, roots: set<Name>): set<Name> {
    set n | n in reg.Keys && Needs(reg, roots, n)
  }

  lemma NeededIsSelfContained(reg: Registry, roots: set<Name>)
    ensures SelfContained(reg, Needed(reg, roots))
    ensures roots <= reg.Keys ==> roots <= Needed(reg, roots)
  {
    forall n, d | n in Needed(reg, roots) && Edge(reg, n, d) ensures d in Needed(reg, roots) {
      var p :| p != [] && IsWalk(reg, p) && p[0] in roots && p[|p| - 1] == n;
      ExtendWalk(reg, p, d);
      var p' := p + [d];
      assert p' != [] && p'[0] in roots && p'[|p'| - 1] == d;
    }
    forall n | n in roots && n in reg.Keys ensures n in Needed(reg, roots) {
      var p := [n];
      assert p != [] && IsWalk(reg, p) && p[0] in roots && p[|p| - 1] == n;
    }
  }

  // ----- the order of the request -----

  lemma FirstGivesPrecedes(first: set<Name>, s: set<Name>, run: seq<Task>, a: Name, b: Name)
    requires QueuedFirst(first, s, run) && a in first && b !in s
    ensures Precedes(run, a, b)
  {
    var k :| 0 <= k <= |run| && first <= Names(run[..k]) <= s;
  }

  // A command among the first p requests runs before every command that none of these
  // requests may wait for.
  lemma EarlierRequestRunsFirst(reg: Registry, requested: seq<Task>, p: nat, a: Name, b: Name)
    requires Closed(reg) && Acyclic(reg) && ValidRequest(reg, requested)
    requires p <= |requested| && a in Names(requested[..p]) && !Needs(reg, Names(requested[..p]), b)
    ensures Precedes(Outcome(reg, requested), a, b)
  {
    var roots := Names(requested[..p]);
    assert roots <= reg.Keys by {
      assert forall t :: t in requested[..p] ==> t in requested && t.name in Names(requested);
    }
    NeededIsSelfContained(reg, roots);
    FirstGivesPrecedes(roots, Needed(reg, roots), Outcome(reg, requested), a, b);
  }

  // Two requests, of which nothing targets the later one, run in the order in which they
  // first appear.
  lemma UntargetedKeepsItsPlace(reg: Registry, requested: seq<Task>, p: nat, a: Name, b: Name)
    requires Closed(reg) && Acyclic(reg) && ValidRequest(reg, requested)
    requires p <= |requested| && a in Names(requested[..p]) && b !in Names(requested[..p])
    requires b in Names(requested) && Untargeted(reg, b)
    ensures a in Names(Outcome(reg, requested)) && b in Names(Outcome(reg, requested))
    ensures Position(Outcome(reg, requested), a) < Position(Outcome(reg, requested), b)
  {
    var s := reg.Keys - {b};
    var run := Outcome(reg, requested);
    assert SelfContained(reg, s);
    assert Names(requested[..p]) <= s by {
      assert forall t :: t in requested[..p] ==> t in requested && t.name in Names(requested);
    }
    assert QueuedFirst(Names(requested[..p]), s, run);
    FirstGivesPrecedes(Names(requested[..p]), s, run, a, b);
    assert b in reg;
    RequestedIsReachable(reg, requested, b);
    PrecedesIsPosition(run, a, b);
  }

  // ----- the order of pulled targets -----

  function Missing(deps: seq<Name>, done: set<Name>): seq<Name> {
    if deps == [] then [] else (if deps[0] in done then [] else [deps[0]]) + Missing(deps[1..], done)
  }

  function Among(deps: seq<Name>, listed: set<Name>): seq<Name> {
    if deps == [] then [] else (if deps[0] in listed then [deps[0]] else []) + Among(deps[1..], listed)
  }

  // The targets the head has to wait for: its dependencies and its listed order-only
  // dependencies, without those queued.
  function Wanted(q: Queue, cmd: Command): seq<Name> {
    Missing(cmd.dependencies, Names(q.run))
    + Missing(Among(cmd.orderDependencies, Names(q.tasks)), Names(q.run))
  }

  lemma {:induction false} MissingHolds(deps: seq<Name>, done: set<Name>)
    ensures forall d :: d in Missing(deps, done) <==> d in deps && d !in done
  {
    if deps != [] {
      MissingHolds(deps[1..], done);
      assert forall d :: d in deps <==> d == deps[0] || d in deps[1..];
    }
  }

  lemma {:induction false} AmongHolds(deps: seq<Name>, listed: set<Name>)
    ensures forall d :: d in Among(deps, listed) <==> d in deps && d in listed
  {
    if deps != [] {
      AmongHolds(deps[1..], listed);
      assert forall d :: d in deps <==> d == deps[0] || d in deps[1..];
    }
  }

  lemma ReadyIffNothingWanted(q: Queue, cmd: Command)
    ensures Ready(q, cmd) <==> Wanted(q, cmd) == []
  {
    var order := Among(cmd.orderDependencies, Names(q.tasks));
    MissingHolds(cmd.dependencies, Names(q.run));
    AmongHolds(cmd.orderDependencies, Names(q.tasks));
    MissingHolds(order, Names(q.run));
    if Wanted(q, cmd) != [] {
      var d := Wanted(q, cmd)[0];
      assert d in Missing(cmd.dependencies, Names(q.run)) || d in Missing(order, Names(q.run));
    }
  }

  // Nothing but the wanted targets is ever pulled.
  lemma {:induction false} PullingMissing(q: Queue, snapshot: seq<Task>, deps: seq<Name>)
    requires forall t :: t in snapshot ==> t in q.tasks
    ensures PullDependencies(q, snapshot, deps) == PullDependencies(q, snapshot, Missing(deps, Names(q.run)))
    decreases |deps|
  {
    if deps != [] {
      var d := deps[0];
      PullDependencyPulls(q, snapshot, d);
      PullingMissing(PullDependency(q, snapshot, d), snapshot, deps[1..]);
      var rest := Missing(deps[1..], Names(q.run));
      assert [] + rest == rest && ([d] + rest)[0] == d && ([d] + rest)[1..] == rest;
    }
  }

  lemma {:induction false} PullingListed(q: Queue, snapshot: seq<Task>, deps: seq<Name>)
    requires forall t :: t in snapshot ==> t in q.tasks
    ensures PullOrderDependencies(q, snapshot, deps) ==
            PullOrderDependencies(q, snapshot, Missing(Among(deps, Names(snapshot)), Names(q.run)))
    decreases |deps|
  {
    if deps != [] {
      var d := deps[0];
      PullOrderDependencyPulls(q, snapshot, d);
      PullingListed(PullOrderDependency(q, snapshot, d), snapshot, deps[1..]);
      var among := Among(deps[1..], Names(snapshot));
      var rest := Missing(among, Names(q.run));
      assert [] + among == among && ([d] + among)[0] == d && ([d] + among)[1..] == among;
      assert [] + rest == rest && ([d] + rest)[0] == d && ([d] + rest)[1..] == rest;
    }
  }

  lemma {:induction false} DependenciesPutInLead(
    q: Queue, snapshot: seq<Task>, deps: seq<Name>, k: nat, s: set<Name>)
    requires (forall t :: t in snapshot ==> t in q.tasks) && k < |deps| && deps[k] !in Names(q.run)
    requires SetOf(deps[k..]) <= s
    ensures deps[k] in Lead(PullDependencies(q, snapshot, deps).tasks, s)
    decreases |deps|
  {
    var m := PullDependency(q, snapshot, deps[0]);
    PullDependencyPulls(q, snapshot, deps[0]);
    if k == 0 {
      assert deps[0] in SetOf(deps[0..]);
      assert SetOf(deps[1..]) <= SetOf(deps[0..]);
      assert deps[0] in Lead(m.tasks, s);
      DependenciesKeepLead(m, snapshot, deps[1..], s);
    } else {
      assert deps[1..][k - 1..] == deps[k..];
      DependenciesPutInLead(m, snapshot, deps[1..], k - 1, s);
    }
  }

  lemma {:induction false} OrderPutsInLead(
    q: Queue, snapshot: seq<Task>, deps: seq<Name>, k: nat, s: set<Name>)
    requires (forall t :: t in snapshot ==> t in q.tasks) && k < |deps|
    requires deps[k] in Names(snapshot) && deps[k] !in Names(q.run)
    requires SetOf(deps[k..]) <= s
    ensures deps[k] in Lead(PullOrderDependencies(q, snapshot, deps).tasks, s)
    decreases |deps|
  {
    var m := PullOrderDependency(q, snapshot, deps[0]);
    PullOrderDependencyPulls(q, snapshot, deps[0]);
    if k == 0 {
      assert deps[0] in SetOf(deps[0..]);
      assert SetOf(deps[1..]) <= SetOf(deps[0..]);
      assert deps[0] in Lead(m.tasks, s);
      OrderKeepsLead(m, snapshot, deps[1..], s);
    } else {
      assert deps[1..][k - 1..] == deps[k..];
      OrderPutsInLead(m, snapshot, deps[1..], k - 1, s);
    }
  }

  // Pulling is pulling the wanted dependencies and then the wanted order-only ones.
  lemma PullIsWanted(q: Queue, cmd: Command) returns (deps: seq<Name>, order: seq<Name>, m: Queue)
    ensures Wanted(q, cmd) == deps + order
    ensures m == PullDependencies(q, q.tasks, deps) && m.run == q.run && forall t :: t in q.tasks ==> t in m.tasks
    ensures Pull(q, cmd) == PullOrderDependencies(m, q.tasks, order)
    ensures forall d :: d in deps ==> d in cmd.dependencies && d !in Names(q.run)
    ensures forall d :: d in order ==> d in cmd.orderDependencies && d in Names(q.tasks) && d !in Names(q.run)
  {
    deps := Missing(cmd.dependencies, Names(q.run));
    order := Missing(Among(cmd.orderDependencies, Names(q.tasks)), Names(q.run));
    m := PullDependencies(q, q.tasks, cmd.dependencies);
    PullDependenciesPulls(q, q.tasks, cmd.dependencies);
    PullingMissing(q, q.tasks, cmd.dependencies);
    PullingListed(m, q.tasks, cmd.orderDependencies);
    MissingHolds(cmd.dependencies, Names(q.run));
    AmongHolds(cmd.orderDependencies, Names(q.tasks));
    MissingHolds(Among(cmd.orderDependencies, Names(q.tasks)), Names(q.run));
  }

  lemma SuffixOfJoin(a: seq<Name>, b: seq<Name>, k: nat)
    requires k < |a| + |b|
    ensures k < |a| ==> (a + b)[k..] == a[k..] + b && SetOf((a + b)[k..]) == SetOf(a[k..]) + SetOf(b)
    ensures k >= |a| ==> (a + b)[k..] == b[k - |a|..]
  {
    if k < |a| {
      assert (a + b)[k..] == a[k..] + b;
    }
  }

  // After pulling, every wanted target stands behind itself and later wanted ones only.
  lemma PullPutsInLead(q: Queue, cmd: Command, k: nat, s: set<Name>)
    requires k < |Wanted(q, cmd)| && SetOf(Wanted(q, cmd)[k..]) <= s
    ensures Wanted(q, cmd)[k] in Lead(Pull(q, cmd).tasks, s)
  {
    var deps, order, m := PullIsWanted(q, cmd);
    SuffixOfJoin(deps, order, k);
    if k < |deps| {
      DependenciesPutInLead(q, q.tasks, deps, k, s);
      OrderKeepsLead(m, q.tasks, order, s);
    } else {
      assert order[k - |deps|] in order;
      OrderPutsInLead(m, q.tasks, order, k - |deps|, s);
    }
  }

  // Of the targets that the head of the list waits for, each runs before every command
  // that is not yet queued and that neither it nor a target named after it may wait for:
  // the last one first.
  lemma LaterTargetRunsFirst(reg: Registry, requested: seq<Task>, q: Queue, k: nat, x: Name)
    requires Closed(reg) && Acyclic(reg) && Inv(reg, requested, q) && q.tasks != []
    requires k < |Wanted(q, reg[q.tasks[0].name])|
    requires x !in Names(q.run) && !Needs(reg, SetOf(Wanted(q, reg[q.tasks[0].name])[k..]), x)
    ensures Precedes(Resolve(reg, requested, q), Wanted(q, reg[q.tasks[0].name])[k], x)
  {
    var cmd := reg[q.tasks[0].name];
    var w := Wanted(q, cmd);
    var s := Needed(reg, SetOf(w[k..]));
    ReadyIffNothingWanted(q, cmd);
    WantedAreKnown(reg, requested, q);
    assert SetOf(w[k..]) <= reg.Keys by {
      assert forall d :: d in w[k..] ==> d in w;
    }
    NeededIsSelfContained(reg, SetOf(w[k..]));
    PullPutsInLead(q, cmd, k, s);
    PullPulls(q, cmd);
    var r := Iterate(reg, q);
    IterateKeepsInv(reg, requested, q);
    IterateDecreases(reg, requested, q);
    var n := LeadIsServed(reg, requested, r, s);
    assert w[k] in Names(Resolve(reg, requested, r)[..n]);
  }

  lemma WantedAreKnown(reg: Registry, requested: seq<Task>, q: Queue)
    requires Closed(reg) && Inv(reg, requested, q) && q.tasks != []
    ensures SetOf(Wanted(q, reg[q.tasks[0].name])) <= reg.Keys
  {
    var cmd := reg[q.tasks[0].name];
    MissingHolds(cmd.dependencies, Names(q.run));
    AmongHolds(cmd.orderDependencies, Names(q.tasks));
    MissingHolds(Among(cmd.orderDependencies, Names(q.tasks)), Names(q.run));
    assert forall n :: n in Names(q.tasks) ==> n in reg;
  }

  // ----- which entry is pulled -----

  lemma {:induction false} LastNamedIsLast(ts: seq<Task>, n: Name) returns (i: nat)
    requires n in Names(ts)
    ensures i < |ts| && ts[i] == LastNamed(ts, n) && ts[i].name == n
    ensures forall j :: i < j < |ts| ==> ts[j].name != n
    decreases |ts|
  {
    if ts[|ts| - 1].name == n {
      i := |ts| - 1;
    } else {
      var init := ts[..|ts| - 1];
      assert n in Names(init) by {
        var t :| t in ts && t.name == n;
        assert t in init;
      }
      i := LastNamedIsLast(init, n);
    }
  }

  // A command that has to wait gives way to the target named last: the last entry of that
  // name in the list, or one with default options if there is none.
  lemma LastTargetComesFirst(q: Queue, cmd: Command)
    requires Wanted(q, cmd) != []
    ensures var y := Wanted(q, cmd)[|Wanted(q, cmd)| - 1];
            && Pull(q, cmd).tasks != [] && Pull(q, cmd).tasks[0].name == y
            && (if y in Names(q.tasks) then Pull(q, cmd).tasks[0] == LastNamed(q.tasks, y)
                else Pull(q, cmd).tasks[0].origin.Invoked?)
  {
    var deps, order, m := PullIsWanted(q, cmd);
    if order == [] {
      LastDependencyIsHead(q, q.tasks, deps);
    } else {
      LastOrderDependencyIsHead(m, q.tasks, order);
    }
  }

  lemma {:induction false} LastDependencyIsHead(q: Queue, snapshot: seq<Task>, deps: seq<Name>)
    requires (forall t :: t in snapshot ==> t in q.tasks) && deps != []
    requires forall d :: d in deps ==> d !in Names(q.run)
    ensures var r, y := PullDependencies(q, snapshot, deps).tasks, deps[|deps| - 1];
            && r != [] && r[0].name == y
            && (if y in Names(snapshot) then r[0] == LastNamed(snapshot, y) else r[0].origin.Invoked?)
    decreases |deps|
  {
    PullDependencyPulls(q, snapshot, deps[0]);
    if |deps| > 1 {
      LastDependencyIsHead(PullDependency(q, snapshot, deps[0]), snapshot, deps[1..]);
    } else {
      assert deps[1..] == [];
    }
  }

  lemma {:induction false} LastOrderDependencyIsHead(q: Queue, snapshot: seq<Task>, deps: seq<Name>)
    requires (forall t :: t in snapshot ==> t in q.tasks) && deps != []
    requires forall d :: d in deps ==> d in Names(snapshot) && d !in Names(q.run)
    ensures var r, y := PullOrderDependencies(q, snapshot, deps).tasks, deps[|deps| - 1];
            r != [] && r[0].name == y && y in Names(snapshot) && r[0] == LastNamed(snapshot, y)
    decreases |deps|
  {
    PullOrderDependencyPulls(q, snapshot, deps[0]);
    if |deps| > 1 {
      LastOrderDependencyIsHead(PullOrderDependency(q, snapshot, deps[0]), snapshot, deps[1..]);
    } else {
      assert deps[1..] == [];
    }
  }
}

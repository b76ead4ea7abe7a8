/** Exactly when the resolver's loop ends. For a registry: on every request if and only if
    the command graph has no cycle. For one request: if and only if its list never holds
    commands that wait for each other in a circle, which also order-only edges between
    invented commands can bring about. */
module TaskTermination {
  import opened TaskResolver
  import opened TaskGraph

  // The list and the queue after n turns of the loop, or fewer if the list is drained.
  ghost function After(reg: Registry, requested: seq<Task>, q: Queue, n: nat): (r: Queue)
    requires Closed(reg) && Inv(reg, requested, q)
    ensures Inv(reg, requested, r)
    decreases n
  {
    if n == 0 || q.tasks == [] then q else
      IterateKeepsInv(reg, requested, q);
      After(reg, requested, Iterate(reg, q), n - 1)
  }

  ghost predicate DrainsFrom(reg: Registry, requested: seq<Task>, q: Queue)
    requires Closed(reg) && Inv(reg, requested, q)
  {
    exists n :: After(reg, requested, q, n).tasks == []
  }

  ghost predicate Drains(reg: Registry, requested: seq<Task>)
    requires Closed(reg) && ValidRequest(reg, requested)
  {
    InvInit(reg, requested);
    DrainsFrom(reg, requested, Queue(requested, [], 0))
  }

  // ----- without a cycle the list drains -----

  lemma EmptyIsDrained(reg: Registry, requested: seq<Task>, q: Queue)
    requires Closed(reg) && Inv(reg, requested, q) && q.tasks == []
    ensures DrainsFrom(reg, requested, q)
  {
    assert After(reg, requested, q, 0).tasks == [];
  }

  lemma OneMoreTurn(reg: Registry, requested: seq<Task>, q: Queue)
    requires Closed(reg) && Inv(reg, requested, q) && q.tasks != []
    requires Inv(reg, requested, Iterate(reg, q)) && DrainsFrom(reg, requested, Iterate(reg, q))
    ensures DrainsFrom(reg, requested, q)
  {
    var n :| After(reg, requested, Iterate(reg, q), n).tasks == [];
    FirstTurn(reg, requested, q, n);
  }

  lemma FirstTurn(reg: Registry, requested: seq<Task>, q: Queue, n: nat)
    requires Closed(reg) && Inv(reg, requested, q) && q.tasks != []
    requires Inv(reg, requested, Iterate(reg, q))
    ensures After(reg, requested, q, n + 1) == After(reg, requested, Iterate(reg, q), n)
  {
  }

  lemma {:induction false} AcyclicDrains(reg: Registry, requested: seq<Task>, q: Queue)
    requires Closed(reg) && Acyclic(reg) && Inv(reg, requested, q)
    ensures DrainsFrom(reg, requested, q)
    decreases |reg.Keys - Names(q.run)|, Backlog(q.tasks, Names(q.run)), HeadRank(reg, q.tasks)
  {
    if q.tasks == [] {
      EmptyIsDrained(reg, requested, q);
    } else {
      var r := Iterate(reg, q);
      IterateKeepsInv(reg, requested, q);
      IterateDecreases(reg, requested, q);
      AcyclicDrains(reg, requested, r);
      OneMoreTurn(reg, requested, q);
    }
  }

  // ----- a cycle the request has to respect -----

  // d must run before n on this request.
  ghost predicate MustPrecede(reg: Registry, roots: set<Name>, n: Name, d: Name) {
    n in reg && (d in reg[n].dependencies || (d in reg[n].orderDependencies && d in roots))
  }

  ghost predicate BoundWalk(reg: Registry, roots: set<Name>, p: seq<Name>) {
    forall i, j :: 0 <= i < |p| && 0 <= j < |p| && j == i + 1 ==> MustPrecede(reg, roots, p[i], p[j])
  }

  // The request reaches a name from which what must run first leads back to it.
  ghost predicate ReachesCycle(reg: Registry, requested: seq<Task>) {
    exists p :: |p| > 1 && BoundWalk(reg, Names(requested), p) && p[0] == p[|p| - 1]
                && Reachable(reg, Names(requested), p[0])
  }

  lemma EarlierPosition(run: seq<Task>, i: nat, d: Name)
    requires Distinct(run) && i < |run| && d in Names(run[..i])
    ensures d in Names(run) && Position(run, d) < i
  {
    var t :| t in run[..i] && t.name == d;
    assert t in run;
    var k :| 0 <= k < i && run[k] == t;
  }

  // In a good queue the positions fall along such a walk.
  lemma {:induction false} PositionsFall(reg: Registry, requested: seq<Task>, run: seq<Task>, p: seq<Name>)
    requires GoodQueue(reg, requested, run) && |p| > 1 && BoundWalk(reg, Names(requested), p)
    requires p[0] in Names(run)
    ensures p[|p| - 1] in Names(run) && Position(run, p[|p| - 1]) < Position(run, p[0])
    decreases |p|
  {
    var q := p[..|p| - 1];
    if |q| > 1 {
      PositionsFall(reg, requested, run, q);
    }
    var i := Position(run, q[|q| - 1]);
    assert MustPrecede(reg, Names(requested), q[|q| - 1], p[|p| - 1]);
    assert p[|p| - 1] in Names(run[..i]);
    EarlierPosition(run, i, p[|p| - 1]);
  }

  // A request that reaches such a cycle never drains its list.
  lemma CycleNeverDrains(reg: Registry, requested: seq<Task>)
    requires Closed(reg) && ValidRequest(reg, requested) && ReachesCycle(reg, requested)
    ensures !Drains(reg, requested)
  {
    InvInit(reg, requested);
    var p :| |p| > 1 && BoundWalk(reg, Names(requested), p) && p[0] == p[|p| - 1]
             && Reachable(reg, Names(requested), p[0]);
    forall n ensures After(reg, requested, Queue(requested, [], 0), n).tasks != [] {
      var r := After(reg, requested, Queue(requested, [], 0), n);
      if r.tasks == [] {
        DrainedIsGood(reg, requested, r.run, r.serial);
        PositionsFall(reg, requested, r.run, p);
        assert false;
      }
    }
  }

  // Requesting every command of a cycle makes all its edges binding.
  lemma RequestOfCycle(reg: Registry, p: seq<Name>) returns (requested: seq<Task>)
    requires |p| > 1 && IsWalk(reg, p) && p[0] == p[|p| - 1]
    ensures ValidRequest(reg, requested) && ReachesCycle(reg, requested)
  {
    requested := seq(|p|, i requires 0 <= i < |p| => Task(p[i], Requested(i)));
    assert forall i :: 0 <= i < |p| ==> requested[i].name == p[i];
    forall i | 0 <= i < |p| ensures p[i] in Names(requested) && p[i] in reg {
      assert requested[i] in requested;
      if i + 1 < |p| {
        assert Edge(reg, p[i], p[i + 1]);
      } else {
        assert Edge(reg, p[i - 1], p[i]);
      }
    }
    assert BoundWalk(reg, Names(requested), p) by {
      forall i, j | 0 <= i < |p| && 0 <= j < |p| && j == i + 1
        ensures MustPrecede(reg, Names(requested), p[i], p[j])
      {
        assert Edge(reg, p[i], p[j]);
      }
    }
    RequestedIsReachable(reg, requested, p[0]);
  }

  // The loop ends on every request if and only if the combined dependency and order-only
  // graph has no cycle.
  lemma DrainsIffNoCycle(reg: Registry)
    requires Closed(reg)
    ensures (forall requested :: ValidRequest(reg, requested) ==> Drains(reg, requested)) <==> !HasCycle(reg)
  {
    if HasCycle(reg) {
      var p :| |p| > 1 && IsWalk(reg, p) && p[0] == p[|p| - 1];
      var requested := RequestOfCycle(reg, p);
      CycleNeverDrains(reg, requested);
    } else {
      AcyclicIffNoCycle(reg);
      forall requested | ValidRequest(reg, requested) ensures Drains(reg, requested) {
        InvInit(reg, requested);
        AcyclicDrains(reg, requested, Queue(requested, [], 0));
      }
    }
  }

  // ----- one request: commands that wait for each other -----

  function Unqueued(ns: seq<Name>, run: set<Name>): (r: seq<Name>)
    ensures forall d :: d in r <==> d in ns && d !in run
  {
    if ns == [] then [] else (if ns[0] in run then [] else [ns[0]]) + Unqueued(ns[1..], run)
  }

  // The listed commands, each with the listed ones it waits for.
  ghost function Waiting(reg: Registry, listed: set<Name>, queued: set<Name>): Registry {
    map n | n in listed && n in reg ::
      Command([], Unqueued(reg[n].dependencies + reg[n].orderDependencies, queued))
  }

  ghost predicate Circular(reg: Registry, q: Queue) {
    HasCycle(Waiting(reg, Names(q.tasks), Names(q.run)))
  }

  lemma WaitsFor(reg: Registry, listed: set<Name>, queued: set<Name>, n: Name, d: Name)
    ensures Edge(Waiting(reg, listed, queued), n, d) <==>
            && n in reg && d in reg && n in listed && d in listed && d !in queued
            && (d in reg[n].dependencies || d in reg[n].orderDependencies)
  {
  }

  // --- a circle is never resolved ---

  lemma {:induction false} WalkStays(reg: Registry, q: Queue, r: Queue, p: seq<Name>)
    requires IsWalk(Waiting(reg, Names(q.tasks), Names(q.run)), p)
    requires forall i :: 0 <= i < |p| ==> p[i] in Names(r.tasks) && p[i] !in Names(r.run)
    ensures IsWalk(Waiting(reg, Names(r.tasks), Names(r.run)), p)
  {
    forall i, j | 0 <= i < |p| && 0 <= j < |p| && j == i + 1
      ensures Edge(Waiting(reg, Names(r.tasks), Names(r.run)), p[i], p[j])
    {
      assert Edge(Waiting(reg, Names(q.tasks), Names(q.run)), p[i], p[j]);
      WaitsFor(reg, Names(q.tasks), Names(q.run), p[i], p[j]);
      WaitsFor(reg, Names(r.tasks), Names(r.run), p[i], p[j]);
    }
  }

  // Everything on a circle is listed, not queued, and not ready.
  lemma OnCircle(reg: Registry, q: Queue, p: seq<Name>, i: nat)
    requires |p| > 1 && IsWalk(Waiting(reg, Names(q.tasks), Names(q.run)), p) && p[0] == p[|p| - 1] && i < |p|
    ensures p[i] in reg && p[i] in Names(q.tasks) && p[i] !in Names(q.run) && !Ready(q, reg[p[i]])
  {
    var w := Waiting(reg, Names(q.tasks), Names(q.run));
    var before := if i == 0 then p[|p| - 2] else p[i - 1];
    var after := if i == |p| - 1 then p[1] else p[i + 1];
    assert Edge(w, before, p[i]) && Edge(w, p[i], after);
    WaitsFor(reg, Names(q.tasks), Names(q.run), before, p[i]);
    WaitsFor(reg, Names(q.tasks), Names(q.run), p[i], after);
  }

  lemma CircleStays(reg: Registry, requested: seq<Task>, q: Queue)
    requires Closed(reg) && Inv(reg, requested, q) && q.tasks != [] && Circular(reg, q)
    ensures Circular(reg, Iterate(reg, q))
  {
    var p :| |p| > 1 && IsWalk(Waiting(reg, Names(q.tasks), Names(q.run)), p) && p[0] == p[|p| - 1];
    var r := Iterate(reg, q);
    forall i | 0 <= i < |p| ensures p[i] in Names(r.tasks) && p[i] !in Names(r.run) {
      OnCircle(reg, q, p, i);
      if Ready(q, reg[q.tasks[0].name]) {
        EmitKeepsNames(q);
        var t :| t in q.tasks && t.name == p[i];
        assert t in q.tasks[1..];
      } else {
        PullKeepsOrigins(reg, requested, q);
        PullPulls(q, reg[q.tasks[0].name]);
      }
    }
    WalkStays(reg, q, r, p);
  }

  lemma CircularHasTasks(reg: Registry, q: Queue)
    requires Circular(reg, q)
    ensures q.tasks != []
  {
    var p :| |p| > 1 && IsWalk(Waiting(reg, Names(q.tasks), Names(q.run)), p) && p[0] == p[|p| - 1];
    OnCircle(reg, q, p, 0);
  }

  lemma {:induction false} CircularNeverDrains(reg: Registry, requested: seq<Task>, q: Queue, n: nat)
    requires Closed(reg) && Inv(reg, requested, q) && Circular(reg, q)
    ensures After(reg, requested, q, n).tasks != []
    decreases n
  {
    CircularHasTasks(reg, q);
    if n == 0 {
      NoTurn(reg, requested, q);
    } else {
      var m := n - 1;
      CircleStays(reg, requested, q);
      IterateKeepsInv(reg, requested, q);
      CircularNeverDrains(reg, requested, Iterate(reg, q), m);
      FirstTurn(reg, requested, q, m);
    }
  }

  lemma NoTurn(reg: Registry, requested: seq<Task>, q: Queue)
    requires Closed(reg) && Inv(reg, requested, q)
    ensures After(reg, requested, q, 0) == q
  {
  }

  // --- without circles the list drains ---

  ghost function WaitRank(reg: Registry, q: Queue): nat
    requires !Circular(reg, q)
  {
    AcyclicIffNoCycle(Waiting(reg, Names(q.tasks), Names(q.run)));
    HeadRank(Waiting(reg, Names(q.tasks), Names(q.run)), q.tasks)
  }

  lemma PullKeepsMeasure(reg: Registry, requested: seq<Task>, q: Queue)
    requires Closed(reg) && Inv(reg, requested, q) && q.tasks != [] && !Ready(q, reg[q.tasks[0].name])
    ensures var r := Iterate(reg, q);
            && r.run == q.run && Backlog(r.tasks, Names(r.run)) == Backlog(q.tasks, Names(q.run))
            && Names(q.tasks) <= Names(r.tasks) <= reg.Keys
            && r.tasks != [] && r.tasks[0].name in reg && r.tasks[0].name !in Names(q.run)
            && (r.tasks[0].name in reg[q.tasks[0].name].dependencies
                || r.tasks[0].name in reg[q.tasks[0].name].orderDependencies)
  {
    PullPulls(q, reg[q.tasks[0].name]);
    PullKeepsInv(reg, requested, q);
    PullKeepsOrigins(reg, requested, q);
  }

  // A pull lists a new command, or brings one to the front that the head waits for.
  lemma PullGetsOn(reg: Registry, requested: seq<Task>, q: Queue)
    requires Closed(reg) && Inv(reg, requested, q) && q.tasks != [] && !Ready(q, reg[q.tasks[0].name])
    requires !Circular(reg, q) && !Circular(reg, Iterate(reg, q))
    ensures var r := Iterate(reg, q);
            || |reg.Keys - Names(r.tasks)| < |reg.Keys - Names(q.tasks)|
            || (Names(r.tasks) == Names(q.tasks) && WaitRank(reg, r) < WaitRank(reg, q))
  {
    var r := Iterate(reg, q);
    PullKeepsMeasure(reg, requested, q);
    if Names(r.tasks) == Names(q.tasks) {
      RankFalls(reg, q, r);
    } else {
      SmallerRest(reg, Names(q.tasks), Names(r.tasks));
    }
  }

  lemma RankFalls(reg: Registry, q: Queue, r: Queue)
    requires q.tasks != [] && r.tasks != [] && !Circular(reg, q)
    requires Names(r.tasks) == Names(q.tasks) && Names(r.run) == Names(q.run)
    requires q.tasks[0].name in reg && r.tasks[0].name in reg && r.tasks[0].name !in Names(q.run)
    requires r.tasks[0].name in reg[q.tasks[0].name].dependencies
             || r.tasks[0].name in reg[q.tasks[0].name].orderDependencies
    ensures !Circular(reg, r) && WaitRank(reg, r) < WaitRank(reg, q)
  {
    var n, d := q.tasks[0].name, r.tasks[0].name;
    var w := Waiting(reg, Names(q.tasks), Names(q.run));
    assert q.tasks[0] in q.tasks && r.tasks[0] in r.tasks;
    WaitsFor(reg, Names(q.tasks), Names(q.run), n, d);
    AcyclicIffNoCycle(w);
    assert Edge(w, n, d);
  }

  lemma SmallerRest(reg: Registry, a: set<Name>, b: set<Name>)
    requires a < b && b <= reg.Keys
    ensures |reg.Keys - b| < |reg.Keys - a|
  {
    var n :| n in b && n !in a;
    assert reg.Keys - b <= (reg.Keys - a) - {n};
    SubsetIsNoLarger(reg.Keys - b, (reg.Keys - a) - {n});
  }

  lemma {:induction false} SubsetIsNoLarger(a: set<Name>, b: set<Name>)
    requires a <= b
    ensures |a| <= |b|
    decreases |a|
  {
    if a != {} {
      var n :| n in a;
      SubsetIsNoLarger(a - {n}, b - {n});
    }
  }

  ghost predicate NeverCircular(reg: Registry, requested: seq<Task>, q: Queue)
    requires Closed(reg) && Inv(reg, requested, q)
  {
    forall n :: !Circular(reg, After(reg, requested, q, n))
  }

  lemma NextNeverCircular(reg: Registry, requested: seq<Task>, q: Queue)
    requires Closed(reg) && Inv(reg, requested, q) && q.tasks != [] && NeverCircular(reg, requested, q)
    requires Inv(reg, requested, Iterate(reg, q))
    ensures NeverCircular(reg, requested, Iterate(reg, q)) && !Circular(reg, Iterate(reg, q)) && !Circular(reg, q)
  {
    forall n ensures !Circular(reg, After(reg, requested, Iterate(reg, q), n)) {
      FirstTurn(reg, requested, q, n);
    }
    assert After(reg, requested, q, 0) == q;
    assert After(reg, requested, Iterate(reg, q), 0) == Iterate(reg, q);
  }

  lemma EmitGetsOn(reg: Registry, requested: seq<Task>, q: Queue)
    requires Closed(reg) && Inv(reg, requested, q) && q.tasks != [] && Ready(q, reg[q.tasks[0].name])
    ensures var r := Iterate(reg, q);
            || |reg.Keys - Names(r.run)| < |reg.Keys - Names(q.run)|
            || (|reg.Keys - Names(r.run)| == |reg.Keys - Names(q.run)|
                && Backlog(r.tasks, Names(r.run)) < Backlog(q.tasks, Names(q.run)))
  {
    var h, r := q.tasks[0], Iterate(reg, q);
    EmitKeepsNames(q);
    if h.name in Names(q.run) {
      assert Names(r.run) == Names(q.run);
    } else {
      assert reg.Keys - Names(r.run) == (reg.Keys - Names(q.run)) - {h.name};
      assert h.name in reg.Keys - Names(q.run);
    }
  }

  ghost function HeadWait(reg: Registry, q: Queue): nat {
    if Circular(reg, q) then 0 else WaitRank(reg, q)
  }

  lemma {:induction false} NeverCircularDrains(reg: Registry, requested: seq<Task>, q: Queue)
    requires Closed(reg) && Inv(reg, requested, q) && NeverCircular(reg, requested, q)
    ensures DrainsFrom(reg, requested, q)
    decreases |reg.Keys - Names(q.run)|, Backlog(q.tasks, Names(q.run)), |reg.Keys - Names(q.tasks)|,
              HeadWait(reg, q)
  {
    if q.tasks == [] {
      EmptyIsDrained(reg, requested, q);
    } else {
      var r := Iterate(reg, q);
      IterateKeepsInv(reg, requested, q);
      NextNeverCircular(reg, requested, q);
      if Ready(q, reg[q.tasks[0].name]) {
        EmitGetsOn(reg, requested, q);
      } else {
        PullKeepsMeasure(reg, requested, q);
        PullGetsOn(reg, requested, q);
      }
      NeverCircularDrains(reg, requested, r);
      OneMoreTurn(reg, requested, q);
    }
  }

  // The loop ends on a request if and only if its list never holds commands that wait for
  // each other in a circle.
  lemma DrainsIffNeverCircular(reg: Registry, requested: seq<Task>)
    requires Closed(reg) && ValidRequest(reg, requested)
    ensures Inv(reg, requested, Queue(requested, [], 0))
    ensures Drains(reg, requested) <==> NeverCircular(reg, requested, Queue(requested, [], 0))
  {
    InvInit(reg, requested);
    var q := Queue(requested, [], 0);
    if NeverCircular(reg, requested, q) {
      NeverCircularDrains(reg, requested, q);
    } else {
      var n :| Circular(reg, After(reg, requested, q, n));
      forall m ensures After(reg, requested, q, m).tasks != [] {
        NotDrainedBy(reg, requested, q, n, m);
      }
    }
  }

  lemma {:induction false} NotDrainedBy(reg: Registry, requested: seq<Task>, q: Queue, n: nat, m: nat)
    requires Closed(reg) && Inv(reg, requested, q) && Circular(reg, After(reg, requested, q, n))
    ensures After(reg, requested, q, m).tasks != []
    decreases n
  {
    if Circular(reg, q) {
      CircularNeverDrains(reg, requested, q, m);
    } else {
      StillTasks(reg, requested, q, n);
      var r, k := Iterate(reg, q), n - 1;
      IterateKeepsInv(reg, requested, q);
      FirstTurn(reg, requested, q, k);
      if m == 0 {
        NoTurn(reg, requested, q);
      } else {
        var l := m - 1;
        NotDrainedBy(reg, requested, r, k, l);
        FirstTurn(reg, requested, q, l);
      }
    }
  }

  lemma StillTasks(reg: Registry, requested: seq<Task>, q: Queue, n: nat)
    requires Closed(reg) && Inv(reg, requested, q)
    requires !Circular(reg, q) && Circular(reg, After(reg, requested, q, n))
    ensures n > 0 && q.tasks != []
  {
    NoTurn(reg, requested, q);
  }

  // --- a circle that no walk of binding edges shows ---

  const SAMPLE: Registry := map["a" := Command(["b", "c"], []), "b" := Command([], ["c"]), "c" := Command([], ["b"])]

  lemma NoBindingCycle(requested: seq<Task>)
    requires Names(requested) == {"a"}
    ensures !ReachesCycle(SAMPLE, requested)
  {
    forall p | |p| > 1 && BoundWalk(SAMPLE, {"a"}, p) ensures p[0] != p[|p| - 1] {
      assert MustPrecede(SAMPLE, {"a"}, p[0], p[1]);
      assert p[0] == "a" && p[1] != "a";
      assert |p| > 2 ==> MustPrecede(SAMPLE, {"a"}, p[1], p[2]);
      assert |p| == 2;
    }
  }

  lemma SampleTurn(a: Task)
    requires a.name == "a"
    ensures Iterate(SAMPLE, Queue([a], [], 0)) == Queue([Task("c", Invoked(1)), Task("b", Invoked(0)), a], [], 2)
  {
    var q := Queue([a], [], 0);
    assert a in q.tasks && "a" in Names(q.tasks) && Names(q.run) == {};
    assert Names(q.tasks) == {"a"};
    var b, c := Task("b", Invoked(0)), Task("c", Invoked(1));
    var r := Queue([b] + [a], [], 1);
    assert SAMPLE["a"].dependencies == ["b", "c"] && "b" in SAMPLE["a"].dependencies;
    assert !Ready(q, SAMPLE["a"]);
    assert PullDependency(q, q.tasks, "b") == r;
    assert PullDependency(r, q.tasks, "c") == Queue([c] + r.tasks, [], 2);
    assert ["b", "c"][1..] == ["c"] && ["c"][1..] == [];
    assert PullDependencies(q, q.tasks, ["b", "c"]) == PullDependencies(r, q.tasks, ["c"]);
  }

  lemma SampleIsCircular(a: Task)
    requires a.name == "a"
    ensures Circular(SAMPLE, Iterate(SAMPLE, Queue([a], [], 0)))
  {
    var r := Queue([Task("c", Invoked(1)), Task("b", Invoked(0)), a], [], 2);
    SampleTurn(a);
    assert r.tasks[0] in r.tasks && r.tasks[1] in r.tasks;
    WaitsFor(SAMPLE, Names(r.tasks), Names(r.run), "b", "c");
    WaitsFor(SAMPLE, Names(r.tasks), Names(r.run), "c", "b");
    var p := ["b", "c", "b"];
    assert IsWalk(Waiting(SAMPLE, Names(r.tasks), Names(r.run)), p) && p[0] == p[|p| - 1];
  }

  lemma CircularTurnNeverDrains(reg: Registry, requested: seq<Task>)
    requires Closed(reg) && ValidRequest(reg, requested) && requested != [] && requested[0].name in reg
    requires Circular(reg, Iterate(reg, Queue(requested, [], 0)))
    ensures !Drains(reg, requested)
  {
    var q := Queue(requested, [], 0);
    InvInit(reg, requested);
    IterateKeepsInv(reg, requested, q);
    FirstTurn(reg, requested, q, 0);
    NoTurn(reg, requested, Iterate(reg, q));
    forall m ensures After(reg, requested, q, m).tasks != [] {
      NotDrainedBy(reg, requested, q, 1, m);
    }
  }

  // "a" depends on "b" and "c", which follow each other by order-only edges: asking for "a"
  // alone never ends, although nothing that is requested closes a circle.
  lemma OrderOnlyCircle(a: Task)
    requires a.name == "a"
    ensures Closed(SAMPLE) && ValidRequest(SAMPLE, [a])
    ensures !ReachesCycle(SAMPLE, [a]) && !Drains(SAMPLE, [a])
  {
    SampleRequest(a);
    NoBindingCycle([a]);
    SampleIsCircular(a);
    CircularTurnNeverDrains(SAMPLE, [a]);
  }

  lemma SampleRequest(a: Task)
    requires a.name == "a"
    ensures Closed(SAMPLE) && Names([a]) == {"a"} && ValidRequest(SAMPLE, [a]) && "a" in SAMPLE
  {
    assert a in [a];
  }
}

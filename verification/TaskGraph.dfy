/** Facts about the command graph that the resolver's guarantees rest on: being
    layered is the same as having no cycle, a queue in dependency order cannot
    exist over a cycle, and which duplicate of a requested command gets run. */
module TaskGraph {
  import opened TaskResolver

  // ----- layered means free of cycles -----

  ghost predicate IsWalk(reg: Registry, p: seq<Name>) {
    forall i, j :: 0 <= i < |p| && 0 <= j < |p| && j == i + 1 ==> Edge(reg, p[i], p[j])
  }

  ghost predicate HasCycle(reg: Registry) {
    exists p :: |p| > 1 && IsWalk(reg, p) && p[0] == p[|p| - 1]
  }

  lemma {:induction false} RankFallsAlongWalk(reg: Registry, rank: map<Name, nat>, p: seq<Name>)
    requires Ranks(reg, rank) && |p| > 1 && IsWalk(reg, p)
    ensures p[0] in rank && p[|p| - 1] in rank && rank[p[|p| - 1]] < rank[p[0]]
    decreases |p|
  {
    var q := p[..|p| - 1];
    assert Edge(reg, p[|p| - 2], p[|p| - 1]);
    if |q| > 1 {
      RankFallsAlongWalk(reg, rank, q);
    }
  }

  // A sequence longer than the set it is drawn from repeats an element.
  lemma {:induction false} Repeats(s: set<Name>, p: seq<Name>) returns (i: nat, j: nat)
    requires |p| > |s| && forall k :: 0 <= k < |p| ==> p[k] in s
    ensures i < j < |p| && p[i] == p[j]
    decreases |p|
  {
    var last := p[|p| - 1];
    var q := p[..|p| - 1];
    if last in q {
      i :| 0 <= i < |q| && q[i] == last;
      j := |p| - 1;
    } else {
      i, j := Repeats(s - {last}, q);
    }
  }

  // `next` picks, inside its own domain, a target of every name.
  ghost predicate Successors(reg: Registry, next: map<Name, Name>) {
    forall n {:trigger next[n]} :: n in next ==> next[n] in next && Edge(reg, n, next[n])
  }

  lemma ExtendWalk(reg: Registry, p: seq<Name>, d: Name)
    requires p != [] && IsWalk(reg, p) && Edge(reg, p[|p| - 1], d)
    ensures IsWalk(reg, p + [d])
  {
  }

  lemma {:induction false} LongWalk(reg: Registry, next: map<Name, Name>, len: nat) returns (p: seq<Name>)
    requires next != map[] && Successors(reg, next)
    ensures |p| == len + 1 && IsWalk(reg, p) && forall k :: 0 <= k < |p| ==> p[k] in next
  {
    if len == 0 {
      var n :| n in next;
      p := [n];
    } else {
      var q := LongWalk(reg, next, len - 1);
      var d := next[q[|q| - 1]];
      ExtendWalk(reg, q, d);
      p := q + [d];
    }
  }

  lemma SubWalk(reg: Registry, p: seq<Name>, i: nat, j: nat)
    requires IsWalk(reg, p) && i < j < |p|
    ensures IsWalk(reg, p[i..j + 1])
  {
  }

  lemma SuccessorsGiveCycle(reg: Registry, next: map<Name, Name>)
    requires next != map[] && Successors(reg, next)
    ensures HasCycle(reg)
  {
    var p := LongWalk(reg, next, |next.Keys|);
    LongWalkCycles(reg, next.Keys, p);
  }

  lemma LongWalkCycles(reg: Registry, s: set<Name>, p: seq<Name>)
    requires IsWalk(reg, p) && |p| > |s| && forall k :: 0 <= k < |p| ==> p[k] in s
    ensures HasCycle(reg)
  {
    var i, j := Repeats(s, p);
    SubWalk(reg, p, i, j);
    CycleOf(reg, p[i..j + 1]);
  }

  lemma CycleOf(reg: Registry, c: seq<Name>)
    requires |c| > 1 && IsWalk(reg, c) && c[0] == c[|c| - 1]
    ensures HasCycle(reg)
  {
  }

  ghost predicate Sink(reg: Registry, s: set<Name>, n: Name) {
    n in s && forall d :: d in s ==> !Edge(reg, n, d)
  }

  ghost function Target(reg: Registry, s: set<Name>, n: Name): (d: Name)
    requires n in s && !Sink(reg, s, n)
    ensures d in s && Edge(reg, n, d)
  {
    var d :| d in s && Edge(reg, n, d);
    d
  }

  lemma SinkExists(reg: Registry, s: set<Name>)
    requires !HasCycle(reg) && s != {}
    ensures exists n :: Sink(reg, s, n)
  {
    if !(exists n :: Sink(reg, s, n)) {
      var next := map n | n in s :: Target(reg, s, n);
      assert next.Keys == s;
      SuccessorsGiveCycle(reg, next);
      assert false;
    }
  }

  lemma {:induction false} Layer(reg: Registry, s: set<Name>) returns (rank: map<Name, nat>)
    requires !HasCycle(reg)
    ensures rank.Keys == s
    ensures forall n, d :: n in s && d in s && Edge(reg, n, d) ==> rank[d] < rank[n]
    decreases |s|
  {
    if s == {} {
      rank := map[];
    } else {
      SinkExists(reg, s);
      var sink :| Sink(reg, s, sink);
      var rest := Layer(reg, s - {sink});
      rank := map n | n in s :: if n == sink then 0 else rest[n] + 1;
    }
  }

  // The resolver's precondition is exactly the absence of cycles.
  lemma AcyclicIffNoCycle(reg: Registry)
    ensures Acyclic(reg) <==> !HasCycle(reg)
  {
    if Acyclic(reg) && HasCycle(reg) {
      var p :| |p| > 1 && IsWalk(reg, p) && p[0] == p[|p| - 1];
      RankFallsAlongWalk(reg, Rank(reg), p);
      assert false;
    }
    if !HasCycle(reg) {
      var rank := Layer(reg, reg.Keys);
      assert Ranks(reg, rank);
    }
  }

  // ----- a queue in dependency order rules cycles out -----

  ghost function Position(run: seq<Task>, n: Name): (i: nat)
    requires n in Names(run)
    ensures i < |run| && run[i].name == n
  {
    var t :| t in run && t.name == n;
    var i :| 0 <= i < |run| && run[i] == t;
    i
  }

  // Whatever order is chosen, a dependency chain that starts in a good queue never
  // comes back to where it started: no resolver can serve a cyclic request.
  lemma {:induction false} QueueForbidsCycles(reg: Registry, run: seq<Task>, p: seq<Name>)
    requires Distinct(run) && AfterDependencies(reg, run)
    requires IsChain(reg, p) && |p| > 1 && p[0] in Names(run)
    ensures p[|p| - 1] in Names(run) && Position(run, p[|p| - 1]) < Position(run, p[0])
    decreases |p|
  {
    var q := p[..|p| - 1];
    assert IsChain(reg, q);
    if |q| > 1 {
      QueueForbidsCycles(reg, run, q);
    }
    var i := Position(run, q[|q| - 1]);
    var d := p[|p| - 1];
    assert d in reg[q[|q| - 1]].dependencies;
    assert d in Names(run[..i]);
    var t :| t in run[..i] && t.name == d;
    assert t in run;
    var k :| 0 <= k < i && run[k] == t;
  }

  // ----- which duplicate is run -----

  ghost predicate ValidRequest(reg: Registry, requested: seq<Task>) {
    Names(requested) <= reg.Keys
  }

  // The queue the resolver yields for a request.
  ghost function Outcome(reg: Registry, requested: seq<Task>): (run: seq<Task>)
    requires Closed(reg) && Acyclic(reg) && ValidRequest(reg, requested)
    ensures GoodQueue(reg, requested, run) && InOrder(reg, requested, run)
  {
    ResolveIsGood(reg, requested);
    Resolve(reg, requested, Queue(requested, [], 0))
  }

  // What the warning about repeated commands promises: the first occurrence is executed.
  ghost predicate FirstOccurrenceRuns(reg: Registry, requested: seq<Task>, n: Name)
    requires Closed(reg) && Acyclic(reg) && ValidRequest(reg, requested)
  {
    n in Names(requested) ==> FirstNamed(requested, n) in Outcome(reg, requested)
  }

  // The list ends with a request for `m` and the first copy of `n`, and the second copy
  // of `n` waits in front of them together with commands of lower rank.
  ghost predicate SecondAhead(reg: Registry, q: Queue, m: Task, n1: Task, n2: Task)
    requires Acyclic(reg)
  {
    && |q.tasks| > 2
    && q.tasks[|q.tasks| - 2..] == [m, n1]
    && n2 in q.tasks[..|q.tasks| - 2]
    && m.name in reg
    && n1.name == n2.name
    && (forall t :: t in q.tasks[..|q.tasks| - 2] ==>
          && t.name in reg && Rank(reg)[t.name] < Rank(reg)[m.name]
          && (t.name == n2.name ==> t == n2))
  }

  // The same before the second copy has been pulled.
  ghost predicate SecondBehind(reg: Registry, q: Queue, m: Task, n1: Task, n2: Task)
    requires Acyclic(reg)
  {
    && |q.tasks| > 2
    && q.tasks[|q.tasks| - 3..] == [m, n1, n2]
    && m.name in reg
    && n1 != n2 && n1.name == n2.name
    && (forall t :: t in q.tasks[..|q.tasks| - 3] ==>
          t.name in reg && Rank(reg)[t.name] < Rank(reg)[m.name] && t.name != n2.name)
  }

  lemma {:induction false} FirstIndex(ts: seq<Task>, t: Task, i: nat)
    requires i < |ts| && ts[i] == t && t !in ts[..i]
    ensures IndexOf(ts, t) == i
    decreases i
  {
  }

  lemma MoveWithinPrefix(a: seq<Task>, b: seq<Task>, t: Task)
    requires t in a
    ensures MoveToFront(a + b, t) == MoveToFront(a, t) + b
  {
    var i := IndexOf(a, t);
    assert (a + b)[..i] == a[..i];
    FirstIndex(a + b, t, i);
    assert (a + b)[i + 1..] == a[i + 1..] + b;
    assert a[..i] + (a[i + 1..] + b) == (a[..i] + a[i + 1..]) + b;
  }

  lemma MoveLast(a: seq<Task>, t: Task)
    requires t !in a
    ensures MoveToFront(a + [t], t) == [t] + a
  {
  }

  lemma PullKeepsSecondAhead(reg: Registry, q: Queue, snapshot: seq<Task>, d: Name, m: Task, n1: Task, n2: Task)
    requires Acyclic(reg) && SecondAhead(reg, q, m, n1, n2)
    requires forall t :: t in snapshot ==> t in q.tasks
    requires d in reg && Rank(reg)[d] < Rank(reg)[m.name]
    requires d == n2.name ==> d in Names(snapshot) && LastNamed(snapshot, d) == n2
    ensures SecondAhead(reg, PullDependency(q, snapshot, d), m, n1, n2)
    ensures SecondAhead(reg, PullOrderDependency(q, snapshot, d), m, n1, n2)
  {
    var x := q.tasks[..|q.tasks| - 2];
    assert q.tasks == x + [m, n1];
    if d !in Names(q.run) && d in Names(snapshot) {
      var t := LastNamed(snapshot, d);
      assert t in x;
      MoveWithinPrefix(x, [m, n1], t);
      MoveToFrontKeeps(x, t);
      var r := MoveToFront(q.tasks, t);
      assert r[..|r| - 2] == MoveToFront(x, t);
    } else {
      var r := [Task(d, Invoked(q.serial))] + q.tasks;
      assert r[..|r| - 2] == [Task(d, Invoked(q.serial))] + x;
    }
  }

  lemma LastOfWitness(m: Task, n1: Task, n2: Task)
    requires n1.name == n2.name
    ensures var s := [m, n1, n2];
            n2.name in Names(s) && LastNamed(s, n2.name) == n2 && Names(s) == {m.name, n2.name}
  {
  }

  lemma PullBringsSecondAhead(reg: Registry, q: Queue, m: Task, n1: Task, n2: Task)
    requires Acyclic(reg) && SecondBehind(reg, q, m, n1, n2) && n2.name !in Names(q.run) && m != n2
    requires n2.name in reg && Rank(reg)[n2.name] < Rank(reg)[m.name]
    ensures var snapshot := [m, n1, n2];
            && (forall t :: t in snapshot ==> t in q.tasks)
            && SecondAhead(reg, PullDependency(q, snapshot, n2.name), m, n1, n2)
            && SecondAhead(reg, PullOrderDependency(q, snapshot, n2.name), m, n1, n2)
  {
    var snapshot := [m, n1, n2];
    var x := q.tasks[..|q.tasks| - 3];
    assert q.tasks == x + [m, n1] + [n2];
    LastOfWitness(m, n1, n2);
    MoveLast(x + [m, n1], n2);
    var r := MoveToFront(q.tasks, n2);
    assert r == [n2] + x + [m, n1];
    assert r[..|r| - 2] == [n2] + x;
  }

  lemma PullKeepsSecondBehind(reg: Registry, q: Queue, d: Name, m: Task, n1: Task, n2: Task)
    requires Acyclic(reg) && SecondBehind(reg, q, m, n1, n2)
    requires d in reg && Rank(reg)[d] < Rank(reg)[m.name] && d != n2.name
    ensures var snapshot := [m, n1, n2];
            && (forall t :: t in snapshot ==> t in q.tasks)
            && SecondBehind(reg, PullDependency(q, snapshot, d), m, n1, n2)
            && SecondBehind(reg, PullOrderDependency(q, snapshot, d), m, n1, n2)
  {
  }

  // The copies of `n` the witness request holds, and the command that targets `n`.
  ghost predicate Witness(reg: Registry, m: Task, n1: Task, n2: Task)
    requires Acyclic(reg)
  {
    && m.name in reg && n2.name in reg
    && n1 != n2 && n1.name == n2.name && m.name != n2.name
    && Rank(reg)[n2.name] < Rank(reg)[m.name]
  }

  lemma {:induction false} DependenciesBringSecond(
    reg: Registry, q: Queue, deps: seq<Name>, m: Task, n1: Task, n2: Task)
    requires Acyclic(reg) && Witness(reg, m, n1, n2) && n2.name !in Names(q.run)
    requires SecondBehind(reg, q, m, n1, n2) || SecondAhead(reg, q, m, n1, n2)
    requires forall t :: t in [m, n1, n2] ==> t in q.tasks
    requires forall d :: d in deps ==> d in reg && Rank(reg)[d] < Rank(reg)[m.name]
    ensures var r := PullDependencies(q, [m, n1, n2], deps);
            && r.run == q.run
            && (SecondBehind(reg, r, m, n1, n2) || SecondAhead(reg, r, m, n1, n2))
            && (SecondAhead(reg, q, m, n1, n2) || n2.name in deps ==> SecondAhead(reg, r, m, n1, n2))
    decreases |deps|
  {
    var s := [m, n1, n2];
    if deps != [] {
      var d := deps[0];
      var q' := PullDependency(q, s, d);
      LastOfWitness(m, n1, n2);
      PullDependencyPulls(q, s, d);
      if SecondAhead(reg, q, m, n1, n2) {
        PullKeepsSecondAhead(reg, q, s, d, m, n1, n2);
      } else if d == n2.name {
        PullBringsSecondAhead(reg, q, m, n1, n2);
      } else {
        PullKeepsSecondBehind(reg, q, d, m, n1, n2);
      }
      DependenciesBringSecond(reg, q', deps[1..], m, n1, n2);
      assert forall e :: e in deps ==> e == d || e in deps[1..];
    }
  }

  lemma {:induction false} OrderBringsSecond(
    reg: Registry, q: Queue, deps: seq<Name>, m: Task, n1: Task, n2: Task)
    requires Acyclic(reg) && Witness(reg, m, n1, n2) && n2.name !in Names(q.run)
    requires SecondBehind(reg, q, m, n1, n2) || SecondAhead(reg, q, m, n1, n2)
    requires forall t :: t in [m, n1, n2] ==> t in q.tasks
    requires forall d :: d in deps && d in reg ==> Rank(reg)[d] < Rank(reg)[m.name]
    ensures var r := PullOrderDependencies(q, [m, n1, n2], deps);
            && r.run == q.run
            && (SecondAhead(reg, q, m, n1, n2) || n2.name in deps ==> SecondAhead(reg, r, m, n1, n2))
    decreases |deps|
  {
    var s := [m, n1, n2];
    if deps != [] {
      var d := deps[0];
      var q' := PullOrderDependency(q, s, d);
      LastOfWitness(m, n1, n2);
      PullOrderDependencyPulls(q, s, d);
      if d !in reg {
        assert q' == q;
      } else if SecondAhead(reg, q, m, n1, n2) {
        PullKeepsSecondAhead(reg, q, s, d, m, n1, n2);
      } else if d == n2.name {
        PullBringsSecondAhead(reg, q, m, n1, n2);
      } else {
        PullKeepsSecondBehind(reg, q, d, m, n1, n2);
      }
      OrderBringsSecond(reg, q', deps[1..], m, n1, n2);
      assert forall e :: e in deps ==> e == d || e in deps[1..];
    }
  }

  lemma {:induction false} DependenciesKeepSecond(
    reg: Registry, q: Queue, snapshot: seq<Task>, deps: seq<Name>, m: Task, n1: Task, n2: Task)
    requires Acyclic(reg) && SecondAhead(reg, q, m, n1, n2)
    requires forall t :: t in snapshot ==> t in q.tasks
    requires forall d :: d in deps ==> d in reg && Rank(reg)[d] < Rank(reg)[m.name] && d != n2.name
    ensures SecondAhead(reg, PullDependencies(q, snapshot, deps), m, n1, n2)
    decreases |deps|
  {
    if deps != [] {
      PullKeepsSecondAhead(reg, q, snapshot, deps[0], m, n1, n2);
      PullDependencyPulls(q, snapshot, deps[0]);
      DependenciesKeepSecond(reg, PullDependency(q, snapshot, deps[0]), snapshot, deps[1..], m, n1, n2);
    }
  }

  lemma {:induction false} OrderKeepsSecond(
    reg: Registry, q: Queue, snapshot: seq<Task>, deps: seq<Name>, m: Task, n1: Task, n2: Task)
    requires Acyclic(reg) && SecondAhead(reg, q, m, n1, n2)
    requires Names(snapshot) <= reg.Keys && forall t :: t in snapshot ==> t in q.tasks
    requires forall d :: d in deps && d in reg ==> Rank(reg)[d] < Rank(reg)[m.name] && d != n2.name
    ensures SecondAhead(reg, PullOrderDependencies(q, snapshot, deps), m, n1, n2)
    decreases |deps|
  {
    if deps != [] {
      if deps[0] in reg {
        PullKeepsSecondAhead(reg, q, snapshot, deps[0], m, n1, n2);
      }
      PullOrderDependencyPulls(q, snapshot, deps[0]);
      OrderKeepsSecond(reg, PullOrderDependency(q, snapshot, deps[0]), snapshot, deps[1..], m, n1, n2);
    }
  }

  // No command of lower rank than `m` targets `n`.
  ghost predicate Lowest(reg: Registry, m: Name, n: Name)
    requires Acyclic(reg)
  {
    forall x :: x in reg && m in reg && Rank(reg)[x] < Rank(reg)[m] ==>
      n !in reg[x].dependencies && n !in reg[x].orderDependencies
  }

  lemma PullKeepsAhead(reg: Registry, requested: seq<Task>, q: Queue, m: Task, n1: Task, n2: Task)
    requires Closed(reg) && Acyclic(reg) && Inv(reg, requested, q)
    requires SecondAhead(reg, q, m, n1, n2) && Lowest(reg, m.name, n2.name)
    requires !Ready(q, reg[q.tasks[0].name])
    ensures SecondAhead(reg, Iterate(reg, q), m, n1, n2)
  {
    var h := q.tasks[0];
    assert h in q.tasks[..|q.tasks| - 2];
    var cmd := reg[h.name];
    assert forall d :: d in cmd.dependencies || d in cmd.orderDependencies ==> d in reg ==> Edge(reg, h.name, d);
    var r := PullDependencies(q, q.tasks, cmd.dependencies);
    DependenciesKeepSecond(reg, q, q.tasks, cmd.dependencies, m, n1, n2);
    PullDependenciesPulls(q, q.tasks, cmd.dependencies);
    OrderKeepsSecond(reg, r, q.tasks, cmd.orderDependencies, m, n1, n2);
  }

  lemma EmitKeepsAhead(reg: Registry, q: Queue, m: Task, n1: Task, n2: Task)
    requires Acyclic(reg) && SecondAhead(reg, q, m, n1, n2) && n2.name !in Names(q.run)
    ensures n2 in Emit(q).run || (SecondAhead(reg, Emit(q), m, n1, n2) && n2.name !in Names(Emit(q).run))
  {
  }

  // One turn either queues the second copy or leaves it ahead of the first.
  lemma SecondStaysAhead(reg: Registry, requested: seq<Task>, q: Queue, m: Task, n1: Task, n2: Task)
    requires Closed(reg) && Acyclic(reg) && Inv(reg, requested, q)
    requires SecondAhead(reg, q, m, n1, n2) && Lowest(reg, m.name, n2.name)
    requires n2.name !in Names(q.run)
    ensures var r := Iterate(reg, q);
            n2 in r.run || (SecondAhead(reg, r, m, n1, n2) && n2.name !in Names(r.run))
  {
    if Ready(q, reg[q.tasks[0].name]) {
      EmitKeepsAhead(reg, q, m, n1, n2);
    } else {
      PullKeepsAhead(reg, requested, q, m, n1, n2);
      PullPulls(q, reg[q.tasks[0].name]);
    }
  }

  lemma {:induction false} SecondRuns(reg: Registry, requested: seq<Task>, q: Queue, m: Task, n1: Task, n2: Task)
    requires Closed(reg) && Acyclic(reg) && Inv(reg, requested, q)
    requires SecondAhead(reg, q, m, n1, n2) && Lowest(reg, m.name, n2.name)
    requires n2.name !in Names(q.run)
    ensures n2 in Resolve(reg, requested, q)
    decreases |reg.Keys - Names(q.run)|, Backlog(q.tasks, Names(q.run)), HeadRank(reg, q.tasks)
  {
    var r := Iterate(reg, q);
    IterateKeepsInv(reg, requested, q);
    IterateDecreases(reg, requested, q);
    SecondStaysAhead(reg, requested, q, m, n1, n2);
    if n2 in r.run {
      ResolveExtends(reg, requested, r);
    } else {
      SecondRuns(reg, requested, r, m, n1, n2);
    }
  }

  ghost predicate Targets(reg: Registry, m: Name, n: Name) {
    m in reg && (n in reg[m].dependencies || n in reg[m].orderDependencies)
  }

  lemma {:induction false} LowestTargeting(reg: Registry, m: Name, n: Name) returns (low: Name)
    requires Acyclic(reg) && Targets(reg, m, n)
    ensures Targets(reg, low, n) && Lowest(reg, low, n)
    decreases Rank(reg)[m]
  {
    if Lowest(reg, m, n) {
      low := m;
    } else {
      var x :| x in reg && Rank(reg)[x] < Rank(reg)[m] && Targets(reg, x, n);
      low := LowestTargeting(reg, x, n);
    }
  }

  // The first turn of the witness request pulls the second copy to the front.
  lemma FirstTurnPullsSecond(reg: Registry, m: Task, n1: Task, n2: Task)
    requires Closed(reg) && Acyclic(reg) && Witness(reg, m, n1, n2) && Targets(reg, m.name, n2.name)
    ensures var r := Iterate(reg, Queue([m, n1, n2], [], 0));
            SecondAhead(reg, r, m, n1, n2) && r.run == []
  {
    var q := Queue([m, n1, n2], [], 0);
    var cmd := reg[m.name];
    LastOfWitness(m, n1, n2);
    assert Names(q.run) == {};
    assert !Ready(q, cmd);
    assert q.tasks[..0] == [] && q.tasks[0..] == [m, n1, n2];
    assert SecondBehind(reg, q, m, n1, n2);
    assert forall d :: d in cmd.dependencies || d in cmd.orderDependencies ==> d in reg ==> Edge(reg, m.name, d);
    DependenciesBringSecond(reg, q, cmd.dependencies, m, n1, n2);
    PullDependenciesPulls(q, q.tasks, cmd.dependencies);
    OrderBringsSecond(reg, PullDependencies(q, q.tasks, cmd.dependencies), cmd.orderDependencies, m, n1, n2);
  }

  lemma WitnessRunsSecond(reg: Registry, m: Task, n1: Task, n2: Task)
    requires Closed(reg) && Acyclic(reg) && Witness(reg, m, n1, n2)
    requires Targets(reg, m.name, n2.name) && Lowest(reg, m.name, n2.name)
    ensures ValidRequest(reg, [m, n1, n2]) && n2 in Outcome(reg, [m, n1, n2])
  {
    var requested := [m, n1, n2];
    var q := Queue(requested, [], 0);
    LastOfWitness(m, n1, n2);
    InvInit(reg, requested);
    FirstTurnPullsSecond(reg, m, n1, n2);
    IterateKeepsInv(reg, requested, q);
    IterateDecreases(reg, requested, q);
    SecondRuns(reg, requested, Iterate(reg, q), m, n1, n2);
  }

  lemma DistinctHoldsOne(run: seq<Task>, t: Task, u: Task)
    requires Distinct(run) && t.name == u.name && t in run && u in run
    ensures t == u
  {
  }

  // A command that something targets has a request whose first copy of it is not run.
  lemma TargetedLosesFirst(reg: Registry, n: Name, m: Name) returns (requested: seq<Task>)
    requires Closed(reg) && Acyclic(reg) && n in reg && Targets(reg, m, n)
    ensures ValidRequest(reg, requested) && !FirstOccurrenceRuns(reg, requested, n)
  {
    var low := LowestTargeting(reg, m, n);
    assert Edge(reg, low, n);
    var t, n1, n2 := Task(low, Requested(0)), Task(n, Requested(1)), Task(n, Requested(2));
    requested := [t, n1, n2];
    WitnessRunsSecond(reg, t, n1, n2);
    LastOfWitness(t, n1, n2);
    assert FirstNamed(requested, n) == n1;
    if n1 in Outcome(reg, requested) {
      DistinctHoldsOne(Outcome(reg, requested), n1, n2);
      assert false;
    }
  }

  lemma UntargetedKeepsFirst(reg: Registry, requested: seq<Task>, n: Name)
    requires Closed(reg) && Acyclic(reg) && ValidRequest(reg, requested) && Untargeted(reg, n)
    ensures FirstOccurrenceRuns(reg, requested, n)
  {
  }

  // "Only first occurence will be executed" holds of a command on every request if
  // and only if no command names it as a dependency or order-only dependency.
  lemma FirstOccurrenceRunsIff(reg: Registry, n: Name)
    requires Closed(reg) && Acyclic(reg) && n in reg
    ensures (forall requested :: ValidRequest(reg, requested) ==> FirstOccurrenceRuns(reg, requested, n))
            <==> Untargeted(reg, n)
  {
    if Untargeted(reg, n) {
      forall requested | ValidRequest(reg, requested) ensures FirstOccurrenceRuns(reg, requested, n) {
        UntargetedKeepsFirst(reg, requested, n);
      }
    } else {
      var m :| m in reg && (n in reg[m].dependencies || n in reg[m].orderDependencies);
      var requested := TargetedLosesFirst(reg, n, m);
    }
  }
}

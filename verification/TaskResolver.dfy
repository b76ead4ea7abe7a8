/** The command resolver of idf.py: `CLI.execute_tasks` turns the list of requested
    commands into the queue of tasks to run, pulling dependencies to the front,
    inventing the ones that were not requested, honouring order-only edges and
    dropping duplicates. */
module TaskResolver {

  type Name = string

  datatype Command = Command(dependencies: seq<Name>, orderDependencies: seq<Name>)

  // The commands the command line knows, under their canonical names.
  type Registry = map<Name, Command>

  // A task is an object: two tasks of the same name are told apart by where they come from.
  datatype Origin = Requested(position: nat) | Invoked(serial: nat)
  datatype Task = Task(name: Name, origin: Origin)

  // `tasks` is the list of unprocessed tasks, `run` the ordered dictionary `tasks_to_run`.
  datatype Queue = Queue(tasks: seq<Task>, run: seq<Task>, serial: nat)

  function Names(ts: seq<Task>): set<Name> {
    set t | t in ts :: t.name
  }

  // ----- the graph -----

  ghost predicate Closed(reg: Registry) {
    forall n, d :: n in reg && d in reg[n].dependencies ==> d in reg
  }

  ghost predicate Edge(reg: Registry, n: Name, d: Name) {
    n in reg && d in reg && (d in reg[n].dependencies || d in reg[n].orderDependencies)
  }

  ghost predicate Ranks(reg: Registry, rank: map<Name, nat>) {
    && rank.Keys == reg.Keys
    && forall n, d :: Edge(reg, n, d) ==> rank[d] < rank[n]
  }

  // The combined dependency and order-dependency graph can be layered.
  ghost predicate Acyclic(reg: Registry) {
    exists rank :: Ranks(reg, rank)
  }

  ghost function Rank(reg: Registry): (rank: map<Name, nat>)
    requires Acyclic(reg)
    ensures Ranks(reg, rank)
  {
    var rank :| Ranks(reg, rank);
    rank
  }

  ghost predicate IsChain(reg: Registry, p: seq<Name>) {
    && p != []
    && (forall i :: 0 <= i < |p| ==> p[i] in reg)
    && (forall i, j :: 0 <= i < |p| && 0 <= j < |p| && j == i + 1 ==> p[j] in reg[p[i]].dependencies)
  }

  // `n` is reached from a root along `dependencies` edges alone.
  ghost predicate Reachable(reg: Registry, roots: set<Name>, n: Name) {
    exists p :: IsChain(reg, p) && p[0] in roots && p[|p| - 1] == n
  }

  // No command at all names `n` as a dependency or order-only dependency.
  ghost predicate Untargeted(reg: Registry, n: Name) {
    forall m :: m in reg ==> n !in reg[m].dependencies && n !in reg[m].orderDependencies
  }

  // ----- one iteration of the loop, as functions -----

  function IndexOf(ts: seq<Task>, t: Task): (i: nat)
    requires t in ts
    ensures i < |ts| && ts[i] == t && t !in ts[..i]
  {
    if ts[0] == t then 0 else 1 + IndexOf(ts[1..], t)
  }

  function FirstNamed(ts: seq<Task>, n: Name): (t: Task)
    requires n in Names(ts)
    ensures t in ts && t.name == n
  {
    if ts[0].name == n then ts[0] else
      assert n in Names(ts[1..]) by {
        var t :| t in ts && t.name == n;
        assert t in ts[1..];
      }
      FirstNamed(ts[1..], n)
  }

  // `tasks_dict[n]`: a later task of the same name overwrites an earlier one.
  function LastNamed(ts: seq<Task>, n: Name): (t: Task)
    requires n in Names(ts)
    ensures t in ts && t.name == n
  {
    if ts[|ts| - 1].name == n then ts[|ts| - 1] else
      assert n in Names(ts[..|ts| - 1]) by {
        var t :| t in ts && t.name == n;
        assert t in ts[..|ts| - 1];
      }
      LastNamed(ts[..|ts| - 1], n)
  }

  function MoveToFront(ts: seq<Task>, t: Task): seq<Task>
    requires t in ts
  {
    var i := IndexOf(ts, t);
    [t] + (ts[..i] + ts[i + 1..])
  }

  function PullDependency(q: Queue, snapshot: seq<Task>, dep: Name): Queue
    requires forall t :: t in snapshot ==> t in q.tasks
  {
    if dep in Names(q.run) then q
    else if dep in Names(snapshot) then q.(tasks := MoveToFront(q.tasks, LastNamed(snapshot, dep)))
    else q.(tasks := [Task(dep, Invoked(q.serial))] + q.tasks, serial := q.serial + 1)
  }

  function PullOrderDependency(q: Queue, snapshot: seq<Task>, dep: Name): Queue
    requires forall t :: t in snapshot ==> t in q.tasks
  {
    if dep in Names(snapshot) && dep !in Names(q.run)
    then q.(tasks := MoveToFront(q.tasks, LastNamed(snapshot, dep)))
    else q
  }

  lemma MoveToFrontKeeps(ts: seq<Task>, t: Task)
    requires t in ts
    ensures forall u :: u in MoveToFront(ts, t) <==> u in ts
  {
  }

  function PullDependencies(q: Queue, snapshot: seq<Task>, deps: seq<Name>): (r: Queue)
    requires forall t :: t in snapshot ==> t in q.tasks
    ensures forall t :: t in q.tasks ==> t in r.tasks
    decreases |deps|
  {
    if deps == [] then q else
      assert forall t :: t in q.tasks ==> t in PullDependency(q, snapshot, deps[0]).tasks by {
        if deps[0] !in Names(q.run) && deps[0] in Names(snapshot) {
          MoveToFrontKeeps(q.tasks, LastNamed(snapshot, deps[0]));
        }
      }
      PullDependencies(PullDependency(q, snapshot, deps[0]), snapshot, deps[1..])
  }

  function PullOrderDependencies(q: Queue, snapshot: seq<Task>, deps: seq<Name>): (r: Queue)
    requires forall t :: t in snapshot ==> t in q.tasks
    decreases |deps|
  {
    if deps == [] then q else
      assert forall t :: t in q.tasks ==> t in PullOrderDependency(q, snapshot, deps[0]).tasks by {
        if deps[0] !in Names(q.run) && deps[0] in Names(snapshot) {
          MoveToFrontKeeps(q.tasks, LastNamed(snapshot, deps[0]));
        }
      }
      PullOrderDependencies(PullOrderDependency(q, snapshot, deps[0]), snapshot, deps[1..])
  }

  // `dependecies_processed`: nothing had to be pulled.
  predicate Ready(q: Queue, cmd: Command) {
    && (forall d :: d in cmd.dependencies ==> d in Names(q.run))
    && (forall d :: d in cmd.orderDependencies ==> d in Names(q.tasks) ==> d in Names(q.run))
  }

  function Pull(q: Queue, cmd: Command): Queue {
    PullOrderDependencies(PullDependencies(q, q.tasks, cmd.dependencies), q.tasks, cmd.orderDependencies)
  }

  function Emit(q: Queue): Queue
    requires q.tasks != []
  {
    q.(tasks := q.tasks[1..],
       run := if q.tasks[0].name in Names(q.run) then q.run else q.run + [q.tasks[0]])
  }

  function Iterate(reg: Registry, q: Queue): Queue
    requires q.tasks != [] && q.tasks[0].name in reg
  {
    var cmd := reg[q.tasks[0].name];
    if Ready(q, cmd) then Emit(q) else Pull(q, cmd)
  }

  // ----- what pulling does to the list -----

  // The number of entries whose name has already been queued to run.
  ghost function Backlog(ts: seq<Task>, done: set<Name>): nat {
    if ts == [] then 0 else (if ts[0].name in done then 1 else 0) + Backlog(ts[1..], done)
  }

  // The entries of one name, in order.
  ghost function Named(ts: seq<Task>, n: Name): seq<Task> {
    if ts == [] then [] else (if ts[0].name == n then [ts[0]] else []) + Named(ts[1..], n)
  }

  // The entries whose names are not in `s`, in order.
  ghost function Outside(ts: seq<Task>, s: set<Name>): seq<Task> {
    if ts == [] then [] else (if ts[0].name in s then [] else [ts[0]]) + Outside(ts[1..], s)
  }

  lemma {:induction false} OutsideSplits(a: seq<Task>, b: seq<Task>, s: set<Name>)
    ensures Outside(a + b, s) == Outside(a, s) + Outside(b, s)
  {
    if a == [] {
      assert a + b == b;
    } else {
      assert (a + b)[1..] == a[1..] + b;
      OutsideSplits(a[1..], b, s);
    }
  }

  lemma {:induction false} BacklogSplits(a: seq<Task>, b: seq<Task>, done: set<Name>)
    ensures Backlog(a + b, done) == Backlog(a, done) + Backlog(b, done)
  {
    if a == [] {
      assert a + b == b;
    } else {
      assert (a + b)[1..] == a[1..] + b;
      BacklogSplits(a[1..], b, done);
    }
  }

  lemma {:induction false} NamedSplits(a: seq<Task>, b: seq<Task>, n: Name)
    ensures Named(a + b, n) == Named(a, n) + Named(b, n)
  {
    if a == [] {
      assert a + b == b;
    } else {
      assert (a + b)[1..] == a[1..] + b;
      NamedSplits(a[1..], b, n);
    }
  }

  lemma {:induction false} FirstNamedIsFirst(ts: seq<Task>, n: Name)
    ensures Named(ts, n) != [] <==> n in Names(ts)
    ensures n in Names(ts) ==> Named(ts, n)[0] == FirstNamed(ts, n)
  {
    if ts != [] {
      FirstNamedIsFirst(ts[1..], n);
      assert Names(ts) == {ts[0].name} + Names(ts[1..]) by {
        assert forall t :: t in ts <==> t == ts[0] || t in ts[1..];
      }
    }
  }

  lemma MovingKeepsBacklog(ts: seq<Task>, t: Task, done: set<Name>)
    requires t in ts && t.name !in done
    ensures Backlog(MoveToFront(ts, t), done) == Backlog(ts, done)
  {
    var i := IndexOf(ts, t);
    var a, b := ts[..i], ts[i + 1..];
    assert ts == a + ([t] + b);
    BacklogSplits(a, [t] + b, done);
    BacklogSplits([t], b, done);
    BacklogSplits(a, b, done);
    BacklogSplits([t], a + b, done);
  }

  lemma MovingKeepsOthers(ts: seq<Task>, t: Task, n: Name)
    requires t in ts && t.name != n
    ensures Named(MoveToFront(ts, t), n) == Named(ts, n)
  {
    var i := IndexOf(ts, t);
    var a, b := ts[..i], ts[i + 1..];
    assert ts == a + ([t] + b);
    NamedSplits(a, [t] + b, n);
    NamedSplits([t], b, n);
    NamedSplits(a, b, n);
    NamedSplits([t], a + b, n);
  }

  lemma MovingKeepsOutside(ts: seq<Task>, t: Task, s: set<Name>)
    requires t in ts && t.name in s
    ensures Outside(MoveToFront(ts, t), s) == Outside(ts, s)
  {
    var i := IndexOf(ts, t);
    var a, b := ts[..i], ts[i + 1..];
    assert ts == a + ([t] + b);
    OutsideSplits(a, [t] + b, s);
    OutsideSplits([t], b, s);
    OutsideSplits(a, b, s);
    OutsideSplits([t], a + b, s);
  }

  // The list now starts with one of `targets`, which has not been queued yet.
  ghost predicate HeadIn(q: Queue, targets: set<Name>) {
    q.tasks != [] && q.tasks[0].name in targets && q.tasks[0].name !in Names(q.run)
  }

  ghost predicate Invented(q: Queue, snapshot: seq<Task>, t: Task) {
    t.origin.Invoked? && t.name !in Names(snapshot) && t.name !in Names(q.run)
  }

  // Nothing is lost, only missing targets are invented, and only targets move.
  ghost predicate Pulls(q: Queue, r: Queue, snapshot: seq<Task>, targets: set<Name>) {
    && r.run == q.run
    && (forall t :: t in q.tasks ==> t in r.tasks)
    && (forall t :: t in r.tasks ==>
          t in q.tasks || (t.name in targets && Invented(q, snapshot, t)))
    && Backlog(r.tasks, Names(q.run)) == Backlog(q.tasks, Names(q.run))
    && (forall n :: n !in targets ==> Named(r.tasks, n) == Named(q.tasks, n))
    && (forall s :: targets <= s ==> Outside(r.tasks, s) == Outside(q.tasks, s))
    && (r == q || HeadIn(r, targets))
  }

  lemma PullDependencyPulls(q: Queue, snapshot: seq<Task>, dep: Name)
    requires forall t :: t in snapshot ==> t in q.tasks
    ensures Pulls(q, PullDependency(q, snapshot, dep), snapshot, {dep})
    ensures dep !in Names(q.run) ==> HeadIn(PullDependency(q, snapshot, dep), {dep})
  {
    if dep !in Names(q.run) && dep in Names(snapshot) {
      var t := LastNamed(snapshot, dep);
      MoveToFrontKeeps(q.tasks, t);
      MovingKeepsBacklog(q.tasks, t, Names(q.run));
      forall n | n != dep ensures Named(MoveToFront(q.tasks, t), n) == Named(q.tasks, n) {
        MovingKeepsOthers(q.tasks, t, n);
      }
      forall s | {dep} <= s ensures Outside(MoveToFront(q.tasks, t), s) == Outside(q.tasks, s) {
        assert dep in s;
        MovingKeepsOutside(q.tasks, t, s);
      }
    }
  }

  lemma PullOrderDependencyPulls(q: Queue, snapshot: seq<Task>, dep: Name)
    requires forall t :: t in snapshot ==> t in q.tasks
    ensures Pulls(q, PullOrderDependency(q, snapshot, dep), snapshot, {dep})
    ensures dep in Names(snapshot) && dep !in Names(q.run) ==>
              HeadIn(PullOrderDependency(q, snapshot, dep), {dep})
    ensures forall t :: t in PullOrderDependency(q, snapshot, dep).tasks ==> t in q.tasks
  {
    if dep in Names(snapshot) {
      if dep !in Names(q.run) {
        PullDependencyPulls(q, snapshot, dep);
        MoveToFrontKeeps(q.tasks, LastNamed(snapshot, dep));
      }
    }
  }

  lemma PullsCompose(q: Queue, m: Queue, r: Queue, snapshot: seq<Task>, a: set<Name>, b: set<Name>)
    requires Pulls(q, m, snapshot, a) && Pulls(m, r, snapshot, b)
    ensures Pulls(q, r, snapshot, a + b)
    ensures HeadIn(m, a) ==> HeadIn(r, a + b)
  {
  }

  ghost function SetOf(ns: seq<Name>): set<Name> {
    set n | n in ns
  }

  lemma {:induction false} PullDependenciesPulls(q: Queue, snapshot: seq<Task>, deps: seq<Name>)
    requires forall t :: t in snapshot ==> t in q.tasks
    ensures Pulls(q, PullDependencies(q, snapshot, deps), snapshot, SetOf(deps))
    ensures (exists d :: d in deps && d !in Names(q.run)) ==>
              HeadIn(PullDependencies(q, snapshot, deps), SetOf(deps))
    decreases |deps|
  {
    if deps != [] {
      var m := PullDependency(q, snapshot, deps[0]);
      PullDependencyPulls(q, snapshot, deps[0]);
      PullDependenciesPulls(m, snapshot, deps[1..]);
      PullsCompose(q, m, PullDependencies(q, snapshot, deps), snapshot, {deps[0]}, SetOf(deps[1..]));
      assert {deps[0]} + SetOf(deps[1..]) == SetOf(deps);
      assert forall d :: d in deps ==> d == deps[0] || d in deps[1..];
    }
  }

  lemma {:induction false} PullOrderDependenciesPulls(q: Queue, snapshot: seq<Task>, deps: seq<Name>)
    requires forall t :: t in snapshot ==> t in q.tasks
    ensures Pulls(q, PullOrderDependencies(q, snapshot, deps), snapshot, SetOf(deps))
    ensures (exists d :: d in deps && d in Names(snapshot) && d !in Names(q.run)) ==>
              HeadIn(PullOrderDependencies(q, snapshot, deps), SetOf(deps))
    ensures forall t :: t in PullOrderDependencies(q, snapshot, deps).tasks ==> t in q.tasks
    decreases |deps|
  {
    if deps != [] {
      var m := PullOrderDependency(q, snapshot, deps[0]);
      PullOrderDependencyPulls(q, snapshot, deps[0]);
      PullOrderDependenciesPulls(m, snapshot, deps[1..]);
      PullsCompose(q, m, PullOrderDependencies(q, snapshot, deps), snapshot, {deps[0]}, SetOf(deps[1..]));
      assert {deps[0]} + SetOf(deps[1..]) == SetOf(deps);
      assert forall d :: d in deps ==> d == deps[0] || d in deps[1..];
    }
  }

  // A task that is not ready gives way to one of its targets, and only a
  // missing dependency is ever invented.
  lemma PullPulls(q: Queue, cmd: Command)
    requires !Ready(q, cmd)
    ensures Pulls(q, Pull(q, cmd), q.tasks, SetOf(cmd.dependencies) + SetOf(cmd.orderDependencies))
    ensures HeadIn(Pull(q, cmd), SetOf(cmd.dependencies) + SetOf(cmd.orderDependencies))
    ensures forall t :: t in Pull(q, cmd).tasks ==>
              t in q.tasks || (t.name in cmd.dependencies && Invented(q, q.tasks, t))
  {
    var m := PullDependencies(q, q.tasks, cmd.dependencies);
    PullDependenciesPulls(q, q.tasks, cmd.dependencies);
    PullOrderDependenciesPulls(m, q.tasks, cmd.orderDependencies);
    PullsCompose(q, m, Pull(q, cmd), q.tasks, SetOf(cmd.dependencies), SetOf(cmd.orderDependencies));
  }

  // ----- the invariant -----

  ghost predicate FromRequest(reg: Registry, requested: seq<Task>, t: Task) {
    && t.name in reg
    && Reachable(reg, Names(requested), t.name)
    && (t in requested || (t.origin.Invoked? && t.name !in Names(requested)))
  }

  ghost predicate Distinct(run: seq<Task>) {
    forall i, j :: 0 <= i < j < |run| ==> run[i].name != run[j].name
  }

  // Every task comes strictly after its dependencies.
  ghost predicate AfterDependencies(reg: Registry, run: seq<Task>) {
    forall i, d :: 0 <= i < |run| && run[i].name in reg && d in reg[run[i].name].dependencies ==>
      d in Names(run[..i])
  }

  // Every task comes strictly after those of its order-only dependencies that were requested.
  ghost predicate AfterRequestedOrder(reg: Registry, roots: set<Name>, run: seq<Task>) {
    forall i, d :: 0 <= i < |run| && run[i].name in reg && d in reg[run[i].name].orderDependencies && d in roots ==>
      d in Names(run[..i])
  }

  // Of several requested tasks that nothing depends on, the first one is run.
  ghost predicate FirstWins(reg: Registry, requested: seq<Task>, run: seq<Task>) {
    forall t :: t in run && t.name in Names(requested) && Untargeted(reg, t.name) ==>
      t == FirstNamed(requested, t.name)
  }

  ghost predicate Pending(reg: Registry, requested: seq<Task>, q: Queue) {
    forall n :: Untargeted(reg, n) && n !in Names(q.run) ==> Named(q.tasks, n) == Named(requested, n)
  }

  ghost predicate Inv(reg: Registry, requested: seq<Task>, q: Queue) {
    && (q.tasks != [] ==> q.tasks[0].name in reg)
    && (forall t :: t in q.tasks ==> FromRequest(reg, requested, t))
    && (forall t :: t in q.run ==> FromRequest(reg, requested, t))
    && Names(requested) <= Names(q.tasks) + Names(q.run)
    && Distinct(q.run)
    && AfterDependencies(reg, q.run)
    && AfterRequestedOrder(reg, Names(requested), q.run)
    && FirstWins(reg, requested, q.run)
    && Pending(reg, requested, q)
  }

  lemma RequestedIsReachable(reg: Registry, requested: seq<Task>, n: Name)
    requires n in reg && n in Names(requested)
    ensures Reachable(reg, Names(requested), n)
  {
    assert IsChain(reg, [n]);
  }

  lemma DependencyIsReachable(reg: Registry, roots: set<Name>, n: Name, d: Name)
    requires Reachable(reg, roots, n) && n in reg && d in reg && d in reg[n].dependencies
    ensures Reachable(reg, roots, d)
  {
    var p :| IsChain(reg, p) && p[0] in roots && p[|p| - 1] == n;
    var p' := p + [d];
    assert IsChain(reg, p') && p'[0] in roots && p'[|p'| - 1] == d;
  }

  lemma InvInit(reg: Registry, requested: seq<Task>)
    requires Names(requested) <= reg.Keys
    ensures Inv(reg, requested, Queue(requested, [], 0))
  {
    forall t | t in requested ensures FromRequest(reg, requested, t) {
      assert t.name in Names(requested);
      RequestedIsReachable(reg, requested, t.name);
    }
  }

  lemma PullKeepsPending(reg: Registry, requested: seq<Task>, q: Queue)
    requires Inv(reg, requested, q)
    requires q.tasks != [] && !Ready(q, reg[q.tasks[0].name])
    ensures Pending(reg, requested, Iterate(reg, q))
  {
    var cmd := reg[q.tasks[0].name];
    PullPulls(q, cmd);
    forall n | Untargeted(reg, n) && n !in Names(q.run)
      ensures Named(Pull(q, cmd).tasks, n) == Named(requested, n)
    {
      assert n !in SetOf(cmd.dependencies) + SetOf(cmd.orderDependencies);
    }
  }

  lemma PullKeepsOrigins(reg: Registry, requested: seq<Task>, q: Queue)
    requires Closed(reg) && Inv(reg, requested, q)
    requires q.tasks != [] && !Ready(q, reg[q.tasks[0].name])
    ensures forall t :: t in Iterate(reg, q).tasks ==> FromRequest(reg, requested, t)
    ensures Names(q.tasks) <= Names(Iterate(reg, q).tasks)
  {
    var task := q.tasks[0];
    var cmd := reg[task.name];
    PullPulls(q, cmd);
    forall t | t in Pull(q, cmd).tasks ensures FromRequest(reg, requested, t) {
      if t !in q.tasks {
        assert FromRequest(reg, requested, task);
        DependencyIsReachable(reg, Names(requested), task.name, t.name);
      }
    }
  }

  lemma PullKeepsInv(reg: Registry, requested: seq<Task>, q: Queue)
    requires Closed(reg) && Inv(reg, requested, q)
    requires q.tasks != [] && !Ready(q, reg[q.tasks[0].name])
    ensures Inv(reg, requested, Iterate(reg, q))
  {
    var r := Iterate(reg, q);
    PullPulls(q, reg[q.tasks[0].name]);
    PullKeepsPending(reg, requested, q);
    PullKeepsOrigins(reg, requested, q);
    assert r.tasks[0] in r.tasks;
  }

  lemma EmitKeepsNames(q: Queue)
    requires q.tasks != []
    ensures Names(Emit(q).run) == Names(q.run) + {q.tasks[0].name}
    ensures Names(Emit(q).tasks) + Names(Emit(q).run) == Names(q.tasks) + Names(q.run)
  {
  }

  lemma AppendKeepsPrefixes(run: seq<Task>, t: Task, i: nat)
    requires i <= |run|
    ensures (run + [t])[..i] == run[..i]
  {
  }

  // Appending a ready task keeps the queue free of duplicates and in order.
  lemma EmitKeepsDistinct(q: Queue)
    requires q.tasks != [] && Distinct(q.run)
    ensures Distinct(Emit(q).run)
  {
    assert forall i :: 0 <= i < |q.run| ==> q.run[i].name in Names(q.run);
  }

  lemma EmitKeepsDependencies(reg: Registry, q: Queue)
    requires q.tasks != [] && q.tasks[0].name in reg && Ready(q, reg[q.tasks[0].name]) && AfterDependencies(reg, q.run)
    ensures AfterDependencies(reg, Emit(q).run)
  {
    var run, t := q.run, q.tasks[0];
    if t.name !in Names(run) {
      forall i, d | 0 <= i <= |run| && (run + [t])[i].name in reg && d in reg[(run + [t])[i].name].dependencies
        ensures d in Names((run + [t])[..i])
      {
        AppendKeepsPrefixes(run, t, i);
        assert run[..|run|] == run;
      }
    }
  }

  lemma EmitKeepsOrder(reg: Registry, requested: seq<Task>, q: Queue)
    requires Inv(reg, requested, q)
    requires q.tasks != [] && Ready(q, reg[q.tasks[0].name])
    ensures AfterRequestedOrder(reg, Names(requested), Emit(q).run)
  {
    var run, t := q.run, q.tasks[0];
    if t.name !in Names(run) {
      forall i, d | 0 <= i <= |run| && (run + [t])[i].name in reg
                    && d in reg[(run + [t])[i].name].orderDependencies && d in Names(requested)
        ensures d in Names((run + [t])[..i])
      {
        AppendKeepsPrefixes(run, t, i);
        assert run[..|run|] == run;
      }
    }
  }

  lemma EmitKeepsFirst(reg: Registry, requested: seq<Task>, q: Queue)
    requires Inv(reg, requested, q)
    requires q.tasks != [] && Ready(q, reg[q.tasks[0].name])
    ensures FirstWins(reg, requested, Emit(q).run)
    ensures Pending(reg, requested, Emit(q))
  {
    var task := q.tasks[0];
    EmitKeepsNames(q);
    if task.name !in Names(q.run) && task.name in Names(requested) && Untargeted(reg, task.name) {
      assert Named(q.tasks, task.name)[0] == task;
      FirstNamedIsFirst(requested, task.name);
    }
    forall n | Untargeted(reg, n) && n !in Names(Emit(q).run)
      ensures Named(Emit(q).tasks, n) == Named(requested, n)
    {
      assert Named(q.tasks, n) == Named(q.tasks[1..], n);
    }
  }

  lemma EmitKeepsInv(reg: Registry, requested: seq<Task>, q: Queue)
    requires Inv(reg, requested, q)
    requires q.tasks != [] && Ready(q, reg[q.tasks[0].name])
    ensures Inv(reg, requested, Iterate(reg, q))
  {
    var r := Emit(q);
    EmitKeepsNames(q);
    EmitKeepsDistinct(q);
    EmitKeepsDependencies(reg, q);
    EmitKeepsOrder(reg, requested, q);
    EmitKeepsFirst(reg, requested, q);
    assert forall t :: t in r.tasks ==> t in q.tasks;
    assert forall t :: t in r.run ==> t in q.run || t == q.tasks[0];
    if r.tasks != [] {
      assert r.tasks[0] in q.tasks;
    }
  }

  // ----- termination -----

  ghost function HeadRank(reg: Registry, ts: seq<Task>): nat
    requires Acyclic(reg)
  {
    if ts != [] && ts[0].name in reg then Rank(reg)[ts[0].name] else 0
  }

  // Every iteration decreases (names still to queue, stale entries, rank of the head).
  ghost predicate Decreases(reg: Registry, q: Queue, r: Queue)
    requires Acyclic(reg)
  {
    var d, d' := |reg.Keys - Names(q.run)|, |reg.Keys - Names(r.run)|;
    var b, b' := Backlog(q.tasks, Names(q.run)), Backlog(r.tasks, Names(r.run));
    || d' < d
    || (d' == d && b' < b)
    || (d' == d && b' == b && HeadRank(reg, r.tasks) < HeadRank(reg, q.tasks))
  }

  lemma IterateDecreases(reg: Registry, requested: seq<Task>, q: Queue)
    requires Closed(reg) && Acyclic(reg) && Inv(reg, requested, q) && q.tasks != []
    ensures Decreases(reg, q, Iterate(reg, q))
  {
    var task, r := q.tasks[0], Iterate(reg, q);
    var cmd := reg[task.name];
    if !Ready(q, cmd) {
      PullPulls(q, cmd);
      PullKeepsInv(reg, requested, q);
      assert Edge(reg, task.name, r.tasks[0].name);
    } else {
      EmitKeepsNames(q);
      if task.name in Names(q.run) {
        assert Names(r.run) == Names(q.run);
      } else {
        assert reg.Keys - Names(r.run) == (reg.Keys - Names(q.run)) - {task.name};
        assert task.name in reg.Keys - Names(q.run);
      }
    }
  }

  lemma IterateKeepsInv(reg: Registry, requested: seq<Task>, q: Queue)
    requires Closed(reg) && Inv(reg, requested, q) && q.tasks != []
    ensures Inv(reg, requested, Iterate(reg, q))
  {
    if Ready(q, reg[q.tasks[0].name]) {
      EmitKeepsInv(reg, requested, q);
    } else {
      PullKeepsInv(reg, requested, q);
    }
  }

  // ----- the whole loop -----

  ghost function Resolve(reg: Registry, requested: seq<Task>, q: Queue): (run: seq<Task>)
    requires Closed(reg) && Acyclic(reg) && Inv(reg, requested, q)
    ensures Inv(reg, requested, Queue([], run, 0))
    decreases |reg.Keys - Names(q.run)|, Backlog(q.tasks, Names(q.run)), HeadRank(reg, q.tasks)
  {
    if q.tasks == [] then q.run else
      IterateKeepsInv(reg, requested, q);
      IterateDecreases(reg, requested, q);
      Resolve(reg, requested, Iterate(reg, q))
  }

  // ----- the order in which the list is served -----

  lemma IterateExtends(reg: Registry, q: Queue)
    requires q.tasks != [] && q.tasks[0].name in reg
    ensures q.run <= Iterate(reg, q).run
  {
    if !Ready(q, reg[q.tasks[0].name]) {
      PullPulls(q, reg[q.tasks[0].name]);
    }
  }

  lemma {:induction false} ResolveExtends(reg: Registry, requested: seq<Task>, q: Queue)
    requires Closed(reg) && Acyclic(reg) && Inv(reg, requested, q)
    ensures q.run <= Resolve(reg, requested, q)
    decreases |reg.Keys - Names(q.run)|, Backlog(q.tasks, Names(q.run)), HeadRank(reg, q.tasks)
  {
    if q.tasks != [] {
      var r := Iterate(reg, q);
      IterateKeepsInv(reg, requested, q);
      IterateDecreases(reg, requested, q);
      IterateExtends(reg, q);
      ResolveExtends(reg, requested, r);
      assert q.run <= r.run <= Resolve(reg, requested, r);
    }
  }

  // A set of commands that holds all targets of its members.
  ghost predicate SelfContained(reg: Registry, s: set<Name>) {
    forall n, d :: n in s && Edge(reg, n, d) ==> d in s
  }

  // The names of the entries before the first one outside `s`.
  ghost function Lead(ts: seq<Task>, s: set<Name>): set<Name> {
    if ts == [] || ts[0].name !in s then {} else {ts[0].name} + Lead(ts[1..], s)
  }

  lemma {:induction false} LeadWithout(a: seq<Task>, t: Task, b: seq<Task>, s: set<Name>)
    ensures Lead(a + [t] + b, s) <= Lead(a + b, s) + {t.name}
    decreases |a|
  {
    if a == [] {
      assert a + [t] + b == [t] + b && a + b == b;
      assert ([t] + b)[1..] == b;
    } else {
      assert (a + [t] + b)[1..] == a[1..] + [t] + b && (a + b)[1..] == a[1..] + b;
      LeadWithout(a[1..], t, b, s);
    }
  }

  lemma LeadInFront(t: Task, ts: seq<Task>, s: set<Name>)
    requires t.name in s
    ensures Lead([t] + ts, s) == Lead(ts, s) + {t.name}
  {
    assert ([t] + ts)[1..] == ts;
  }

  lemma MovingKeepsLead(ts: seq<Task>, t: Task, s: set<Name>)
    requires t in ts && t.name in s
    ensures Lead(ts, s) <= Lead(MoveToFront(ts, t), s)
  {
    var i := IndexOf(ts, t);
    var a, b := ts[..i], ts[i + 1..];
    assert ts == a + [t] + b;
    LeadWithout(a, t, b, s);
    LeadInFront(t, a + b, s);
  }

  lemma {:induction false} DependenciesKeepLead(q: Queue, snapshot: seq<Task>, deps: seq<Name>, s: set<Name>)
    requires (forall t :: t in snapshot ==> t in q.tasks) && SetOf(deps) <= s
    ensures Lead(q.tasks, s) <= Lead(PullDependencies(q, snapshot, deps).tasks, s)
    decreases |deps|
  {
    if deps != [] {
      var d := deps[0];
      var m := PullDependency(q, snapshot, d);
      assert d in SetOf(deps);
      if d !in Names(q.run) && d in Names(snapshot) {
        MovingKeepsLead(q.tasks, LastNamed(snapshot, d), s);
      } else if d !in Names(q.run) {
        LeadInFront(Task(d, Invoked(q.serial)), q.tasks, s);
      }
      PullDependencyPulls(q, snapshot, d);
      assert SetOf(deps[1..]) <= SetOf(deps);
      DependenciesKeepLead(m, snapshot, deps[1..], s);
    }
  }

  lemma {:induction false} OrderKeepsLead(q: Queue, snapshot: seq<Task>, deps: seq<Name>, s: set<Name>)
    requires (forall t :: t in snapshot ==> t in q.tasks) && SetOf(deps) * Names(snapshot) <= s
    ensures Lead(q.tasks, s) <= Lead(PullOrderDependencies(q, snapshot, deps).tasks, s)
    decreases |deps|
  {
    if deps != [] {
      var d := deps[0];
      var m := PullOrderDependency(q, snapshot, d);
      if d in Names(snapshot) && d !in Names(q.run) {
        assert d in SetOf(deps) * Names(snapshot);
        MovingKeepsLead(q.tasks, LastNamed(snapshot, d), s);
      }
      PullOrderDependencyPulls(q, snapshot, d);
      assert SetOf(deps[1..]) <= SetOf(deps);
      OrderKeepsLead(m, snapshot, deps[1..], s);
    }
  }

  // A turn whose head is in `s` keeps the leading names of `s` in the lead or queues
  // them, and queues nothing outside `s`.
  lemma TurnServesLead(reg: Registry, requested: seq<Task>, q: Queue, s: set<Name>)
    requires Closed(reg) && Inv(reg, requested, q) && SelfContained(reg, s)
    requires q.tasks != [] && q.tasks[0].name in s
    ensures Lead(q.tasks, s) <= Lead(Iterate(reg, q).tasks, s) + Names(Iterate(reg, q).run)
    ensures Names(Iterate(reg, q).run) <= Names(q.run) + s
  {
    var n := q.tasks[0].name;
    var cmd := reg[n];
    if Ready(q, cmd) {
      EmitKeepsNames(q);
    } else {
      PullPulls(q, cmd);
      assert SetOf(cmd.dependencies) <= s by {
        assert forall d :: d in cmd.dependencies ==> Edge(reg, n, d);
      }
      assert SetOf(cmd.orderDependencies) * Names(q.tasks) <= s by {
        forall d | d in cmd.orderDependencies && d in Names(q.tasks) ensures d in s {
          assert Edge(reg, n, d);
        }
      }
      var m := PullDependencies(q, q.tasks, cmd.dependencies);
      PullDependenciesPulls(q, q.tasks, cmd.dependencies);
      DependenciesKeepLead(q, q.tasks, cmd.dependencies, s);
      OrderKeepsLead(m, q.tasks, cmd.orderDependencies, s);
    }
  }

  // The first k commands of `run` go on from the queue, hold the leading names of `s` and
  // add nothing outside `s`.
  ghost predicate Serves(q: Queue, s: set<Name>, run: seq<Task>, k: nat) {
    && |q.run| <= k <= |run| && q.run <= run
    && Lead(q.tasks, s) <= Names(run[..k]) <= Names(q.run) + s
  }

  lemma ServesFromNext(q: Queue, r: Queue, s: set<Name>, run: seq<Task>, k: nat)
    requires Serves(r, s, run, k) && q.run <= r.run && Names(r.run) <= Names(q.run) + s
    requires Lead(q.tasks, s) <= Lead(r.tasks, s) + Names(r.run)
    ensures Serves(q, s, run, k)
  {
    assert forall t :: t in r.run ==> t in run[..k];
    assert Names(r.run) <= Names(run[..k]);
  }

  lemma ServesNothing(q: Queue, s: set<Name>, run: seq<Task>)
    requires q.run <= run && Lead(q.tasks, s) == {}
    ensures Serves(q, s, run, |q.run|)
  {
  }

  // The leading names of `s` are all queued before the first command outside `s`.
  lemma {:induction false} LeadIsServed(reg: Registry, requested: seq<Task>, q: Queue, s: set<Name>) returns (k: nat)
    requires Closed(reg) && Acyclic(reg) && Inv(reg, requested, q) && SelfContained(reg, s)
    ensures Serves(q, s, Resolve(reg, requested, q), k)
    decreases |reg.Keys - Names(q.run)|, Backlog(q.tasks, Names(q.run)), HeadRank(reg, q.tasks)
  {
    if q.tasks == [] || q.tasks[0].name !in s {
      ResolveExtends(reg, requested, q);
      ServesNothing(q, s, Resolve(reg, requested, q));
      k := |q.run|;
    } else {
      var r := Iterate(reg, q);
      IterateKeepsInv(reg, requested, q);
      IterateDecreases(reg, requested, q);
      k := LeadIsServed(reg, requested, r, s);
      IterateExtends(reg, q);
      TurnServesLead(reg, requested, q, s);
      ServesFromNext(q, r, s, Resolve(reg, requested, r), k);
    }
  }

  // Everything in `first` is queued before anything outside `s`.
  ghost predicate QueuedFirst(first: set<Name>, s: set<Name>, run: seq<Task>) {
    exists k :: 0 <= k <= |run| && first <= Names(run[..k]) <= s
  }

  // The request is served from its beginning: whatever set of commands holds the first p
  // requests and all that these may wait for, the p requests are queued before any command
  // outside the set.
  ghost predicate InOrder(reg: Registry, requested: seq<Task>, run: seq<Task>) {
    forall s, p :: SelfContained(reg, s) && 0 <= p <= |requested| && Names(requested[..p]) <= s ==>
      QueuedFirst(Names(requested[..p]), s, run)
  }

  lemma {:induction false} LeadHolds(ts: seq<Task>, s: set<Name>, p: nat)
    requires p <= |ts| && Names(ts[..p]) <= s
    ensures Names(ts[..p]) <= Lead(ts, s)
    decreases p
  {
    if p > 0 {
      var a, b := ts[..p], ts[1..][..p - 1];
      assert a == [ts[0]] + b;
      assert Names(a) == {ts[0].name} + Names(b) by {
        assert forall t :: t in a <==> t == ts[0] || t in b;
      }
      LeadHolds(ts[1..], s, p - 1);
    }
  }

  lemma ResolveIsInOrder(reg: Registry, requested: seq<Task>)
    requires Closed(reg) && Acyclic(reg) && Inv(reg, requested, Queue(requested, [], 0))
    ensures InOrder(reg, requested, Resolve(reg, requested, Queue(requested, [], 0)))
  {
    var q := Queue(requested, [], 0);
    var run := Resolve(reg, requested, q);
    forall s, p | SelfContained(reg, s) && 0 <= p <= |requested| && Names(requested[..p]) <= s
      ensures QueuedFirst(Names(requested[..p]), s, run)
    {
      LeadHolds(requested, s, p);
      var k := LeadIsServed(reg, requested, q, s);
      assert Names(q.run) + s == s;
      assert Names(requested[..p]) <= Names(run[..k]) <= s;
    }
  }

  // The queue `run` does what the request asks for, stated without the loop.
  ghost predicate GoodQueue(reg: Registry, requested: seq<Task>, run: seq<Task>) {
    && Distinct(run)
    && (forall n :: n in Names(run) <==> Reachable(reg, Names(requested), n))
    && AfterDependencies(reg, run)
    && AfterRequestedOrder(reg, Names(requested), run)
    && (forall t :: t in run ==> if t.name in Names(requested) then t in requested else t.origin.Invoked?)
    && FirstWins(reg, requested, run)
  }

  lemma {:induction false} ChainStaysInQueue(reg: Registry, run: seq<Task>, p: seq<Name>)
    requires AfterDependencies(reg, run) && IsChain(reg, p) && p[0] in Names(run)
    ensures p[|p| - 1] in Names(run)
    decreases |p|
  {
    if |p| > 1 {
      var t :| t in run && t.name == p[0];
      var i :| 0 <= i < |run| && run[i] == t;
      assert p[1] in Names(run[..i]);
      assert IsChain(reg, p[1..]);
      ChainStaysInQueue(reg, run, p[1..]);
    }
  }

  lemma DrainedIsGood(reg: Registry, requested: seq<Task>, run: seq<Task>, serial: nat)
    requires Inv(reg, requested, Queue([], run, serial))
    ensures GoodQueue(reg, requested, run)
  {
    forall n | Reachable(reg, Names(requested), n) ensures n in Names(run) {
      var p :| IsChain(reg, p) && p[0] in Names(requested) && p[|p| - 1] == n;
      ChainStaysInQueue(reg, run, p);
    }
  }

  // The resolver terminates on every request and yields a good queue.
  lemma ResolveIsGood(reg: Registry, requested: seq<Task>)
    requires Closed(reg) && Acyclic(reg) && Names(requested) <= reg.Keys
    ensures Inv(reg, requested, Queue(requested, [], 0))
    ensures GoodQueue(reg, requested, Resolve(reg, requested, Queue(requested, [], 0)))
    ensures InOrder(reg, requested, Resolve(reg, requested, Queue(requested, [], 0)))
  {
    InvInit(reg, requested);
    ResolveIsInOrder(reg, requested);
    DrainedIsGood(reg, requested, Resolve(reg, requested, Queue(requested, [], 0)), 0);
  }

  // ----- the loop itself -----

  method PullToFront(tasks: seq<Task>, t: Task) returns (r: seq<Task>)
    requires t in tasks
    ensures r == MoveToFront(tasks, t)
  {
    var i := 0;
    while tasks[i] != t
      invariant 0 <= i < |tasks| && t !in tasks[..i]
      decreases |tasks| - i
    {
      i := i + 1;
    }
    assert i == IndexOf(tasks, t);
    r := tasks[..i] + tasks[i + 1..];
    r := [t] + r;
  }

  // The loop over `task.dependencies`.
  method PullAllDependencies(q: Queue, deps: seq<Name>) returns (r: Queue, processed: bool)
    ensures r == PullDependencies(q, q.tasks, deps)
    ensures processed <==> forall d :: d in deps ==> d in Names(q.run)
    ensures processed ==> r == q
  {
    r, processed := q, true;
    for k := 0 to |deps|
      invariant forall t :: t in q.tasks ==> t in r.tasks
      invariant PullDependencies(r, q.tasks, deps[k..]) == PullDependencies(q, q.tasks, deps)
      invariant r.run == q.run
      invariant processed <==> forall d :: d in deps[..k] ==> d in Names(q.run)
      invariant processed ==> r == q
    {
      var dep := deps[k];
      assert deps[k..][0] == dep && deps[k..][1..] == deps[k + 1..];
      assert deps[..k + 1] == deps[..k] + [dep];
      if dep !in Names(r.run) {
        if dep in Names(q.tasks) {
          MoveToFrontKeeps(r.tasks, LastNamed(q.tasks, dep));
          var tasks := PullToFront(r.tasks, LastNamed(q.tasks, dep));
          r := r.(tasks := tasks);
        } else {
          r := r.(tasks := [Task(dep, Invoked(r.serial))] + r.tasks, serial := r.serial + 1);
        }
        processed := false;
      }
    }
    assert deps[..|deps|] == deps;
  }

  // The loop over `task.order_dependencies`.
  method PullAllOrderDependencies(q: Queue, snapshot: seq<Task>, deps: seq<Name>)
    returns (r: Queue, processed: bool)
    requires forall t :: t in snapshot ==> t in q.tasks
    ensures r == PullOrderDependencies(q, snapshot, deps)
    ensures processed <==> forall d :: d in deps ==> d in Names(snapshot) ==> d in Names(q.run)
    ensures processed ==> r == q
  {
    r, processed := q, true;
    for k := 0 to |deps|
      invariant forall t :: t in snapshot ==> t in r.tasks
      invariant PullOrderDependencies(r, snapshot, deps[k..]) == PullOrderDependencies(q, snapshot, deps)
      invariant r.run == q.run
      invariant processed <==> forall d :: d in deps[..k] ==> d in Names(snapshot) ==> d in Names(q.run)
      invariant processed ==> r == q
    {
      var dep := deps[k];
      assert deps[k..][0] == dep && deps[k..][1..] == deps[k + 1..];
      assert deps[..k + 1] == deps[..k] + [dep];
      if dep in Names(snapshot) && dep !in Names(r.run) {
        MoveToFrontKeeps(r.tasks, LastNamed(snapshot, dep));
        var tasks := PullToFront(r.tasks, LastNamed(snapshot, dep));
        r := r.(tasks := tasks);
        processed := false;
      }
    }
    assert deps[..|deps|] == deps;
  }

  // One turn of the `while tasks` loop.
  method Turn(reg: Registry, q: Queue) returns (r: Queue)
    requires q.tasks != [] && q.tasks[0].name in reg
    ensures r == Iterate(reg, q)
  {
    var task := q.tasks[0];
    var cmd := reg[task.name];
    var processed, processedOrder;
    r, processed := PullAllDependencies(q, cmd.dependencies);
    r, processedOrder := PullAllOrderDependencies(r, q.tasks, cmd.orderDependencies);
    PullDependenciesPulls(q, q.tasks, cmd.dependencies);
    if processed && processedOrder {
      r := r.(tasks := r.tasks[1..]);
      if task.name !in Names(r.run) {
        r := r.(run := r.run + [task]);
      }
    }
  }

  method ExecuteTasks(reg: Registry, requested: seq<Task>) returns (run: seq<Task>)
    requires Closed(reg) && Acyclic(reg) && Names(requested) <= reg.Keys
    ensures GoodQueue(reg, requested, run) && InOrder(reg, requested, run)
    ensures Inv(reg, requested, Queue(requested, [], 0))
    ensures run == Resolve(reg, requested, Queue(requested, [], 0))
  {
    InvInit(reg, requested);
    var q := Queue(requested, [], 0);
    ghost var expected := Resolve(reg, requested, q);
    while q.tasks != []
      invariant Inv(reg, requested, q)
      invariant Resolve(reg, requested, q) == expected
      decreases |reg.Keys - Names(q.run)|, Backlog(q.tasks, Names(q.run)), HeadRank(reg, q.tasks)
    {
      IterateKeepsInv(reg, requested, q);
      IterateDecreases(reg, requested, q);
      q := Turn(reg, q);
    }
    DrainedIsGood(reg, requested, q.run, q.serial);
    ResolveIsInOrder(reg, requested);
    run := q.run;
  }
}

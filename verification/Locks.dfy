/** The locks of installers that run at the same time on one node (installer/lock.go,
    installer/run.go: run, runNone, runMerge, lockPatchConfigs). */
module Locks {
  import opened Text

  /** The node lock, or the lock of one config. */
  datatype Lock = NodeLock | ConfigLock(path: string)

  /** A pass by the mode it resolved to: the configs it may write, and in patch mode the
      chart-owned path of the config kubelet reads now. */
  datatype Pass = NonePass(own: string) | MergePass(target: string) | PatchPass(current: Option<string>, own: string)

  /** The locks a pass takes, in order, and holds until it ends. */
  function Plan(p: Pass): seq<Lock> {
    match p
    case NonePass(own) => [ConfigLock(own)]
    case MergePass(target) => [NodeLock, ConfigLock(target)]
    case PatchPass(current, own) =>
      [NodeLock] + (if current.Some? && current.value != own then [ConfigLock(current.value)] else []) + [ConfigLock(own)]
  }

  /** The configs a pass reads and may write: a patch pass that cannot move yet stays on the
      current one. */
  function Guarded(p: Pass): set<string> {
    match p
    case NonePass(own) => {own}
    case MergePass(target) => {target}
    case PatchPass(current, own) => (if current.Some? then {current.value} else {}) + {own}
  }

  datatype Proc = Idle | Working(pass: Pass, held: nat)

  /** The installers by number, and the content of every config. */
  datatype World = World(procs: map<nat, Proc>, configs: map<string, string>)

  predicate HoldsLock(w: World, p: nat, l: Lock) {
    && p in w.procs && w.procs[p].Working?
    && exists k :: 0 <= k < w.procs[p].held && k < |Plan(w.procs[p].pass)| && Plan(w.procs[p].pass)[k] == l
  }

  predicate Waits(w: World, p: nat) {
    p in w.procs && w.procs[p].Working? && w.procs[p].held < |Plan(w.procs[p].pass)|
  }

  /** Installer p waits for a lock that q holds. */
  predicate WaitsFor(w: World, p: nat, q: nat) {
    Waits(w, p) && HoldsLock(w, q, Plan(w.procs[p].pass)[w.procs[p].held])
  }

  /** Installer p has all its locks. */
  predicate Inside(w: World, p: nat) {
    p in w.procs && w.procs[p].Working? && w.procs[p].held == |Plan(w.procs[p].pass)|
  }

  // ---- Steps -----------------------------------------------------------------------------------

  /** One step of one installer: it starts a pass, takes its next lock, writes a config, or
      ends, by success, error, timeout or death. A step that is not possible does nothing. */
  datatype Action = Start(who: nat, pass: Pass) | Take(who: nat) | Change(who: nat, path: string, content: string) | End(who: nat)

  predicate Free(w: World, l: Lock) { forall q :: q in w.procs ==> !HoldsLock(w, q, l) }

  function Next(w: World, a: Action): World {
    var idle := a.who !in w.procs || w.procs[a.who].Idle?;
    match a
    case Start(p, pass) => if idle then w.(procs := w.procs[p := Working(pass, 0)]) else w
    case Take(p) =>
      if Waits(w, p) && Free(w, Plan(w.procs[p].pass)[w.procs[p].held])
      then w.(procs := w.procs[p := Working(w.procs[p].pass, w.procs[p].held + 1)]) else w
    case Change(p, path, content) =>
      if Inside(w, p) && path in Guarded(w.procs[p].pass) then w.(configs := w.configs[path := content]) else w
    case End(p) => if idle then w else w.(procs := w.procs[p := Idle])
  }

  function Run(w: World, actions: seq<Action>): World {
    if actions == [] then w else Next(Run(w, actions[..|actions| - 1]), actions[|actions| - 1])
  }

  // ---- What every step keeps -------------------------------------------------------------------

  /** No lock has two holders, and nobody holds more than its plan. */
  ghost predicate Exclusive(w: World) {
    && (forall p, q, l :: HoldsLock(w, p, l) && HoldsLock(w, q, l) ==> p == q)
    && forall p :: p in w.procs && w.procs[p].Working? ==> w.procs[p].held <= |Plan(w.procs[p].pass)|
  }

  /** A holder held the lock before, or takes it now while nobody holds it. */
  lemma HeldBefore(w: World, a: Action, p: nat, l: Lock)
    requires HoldsLock(Next(w, a), p, l)
    ensures HoldsLock(w, p, l) || (a == Take(p) && Free(w, l))
  {
    if a == Take(p) && Waits(w, p) && Free(w, Plan(w.procs[p].pass)[w.procs[p].held]) {
      var held, plan := w.procs[p].held, Plan(w.procs[p].pass);
      assert HoldsLock(w, p, l) || plan[held] == l;
    }
  }

  lemma StepKeepsExclusive(w: World, a: Action)
    requires Exclusive(w)
    ensures Exclusive(Next(w, a))
  {
    var v := Next(w, a);
    forall p, q, l | HoldsLock(v, p, l) && HoldsLock(v, q, l) ensures p == q {
      HeldBefore(w, a, p, l);
      HeldBefore(w, a, q, l);
    }
  }

  /** In every run from a node without installers, every lock has at most one holder. */
  lemma {:induction false} RunsAreExclusive(configs: map<string, string>, actions: seq<Action>)
    ensures Exclusive(Run(World(map[], configs), actions))
  {
    if actions != [] {
      RunsAreExclusive(configs, actions[..|actions| - 1]);
      StepKeepsExclusive(Run(World(map[], configs), actions[..|actions| - 1]), actions[|actions| - 1]);
    }
  }

  // ---- No cycle ----------------------------------------------------------------------------------

  lemma PlanShape(p: Pass, k: nat)
    requires k < |Plan(p)|
    ensures k > 0 ==> Plan(p)[0] == NodeLock
    ensures forall j :: 0 <= j < k ==> Plan(p)[j] != Plan(p)[k]
  {
  }

  /** Whoever waits with a lock in hand holds the node lock. */
  lemma WaitsWithNodeLock(w: World, p: nat, l: Lock)
    requires Waits(w, p) && HoldsLock(w, p, l)
    ensures HoldsLock(w, p, NodeLock)
  {
    PlanShape(w.procs[p].pass, w.procs[p].held);
    assert Plan(w.procs[p].pass)[0] == NodeLock;
  }

  lemma NobodyWaitsForItself(w: World, p: nat)
    ensures !WaitsFor(w, p, p)
  {
    if WaitsFor(w, p, p) { PlanShape(w.procs[p].pass, w.procs[p].held); }
  }

  /** Waiting goes no further than two installers: whoever is waited for by a waiting installer
      has all its locks. */
  lemma ChainsAreShort(w: World, p: nat, q: nat, r: nat)
    requires Exclusive(w) && WaitsFor(w, p, q) && WaitsFor(w, q, r)
    ensures Inside(w, r)
  {
    var lp, lq := Plan(w.procs[p].pass)[w.procs[p].held], Plan(w.procs[q].pass)[w.procs[q].held];
    WaitsWithNodeLock(w, q, lp);
    if !Inside(w, r) {
      WaitsWithNodeLock(w, r, lq);
      NobodyWaitsForItself(w, q);
    }
  }

  /** A cycle of installers, each waiting for the next. */
  ghost predicate Cycle(w: World, ps: seq<nat>) {
    ps != [] && forall i :: 0 <= i < |ps| ==> WaitsFor(w, ps[i], ps[if i + 1 < |ps| then i + 1 else 0])
  }

  /** In every run of any number of installers in any modes, no installers wait for each other
      in a cycle. */
  lemma NoCycle(configs: map<string, string>, actions: seq<Action>, ps: seq<nat>)
    ensures !Cycle(Run(World(map[], configs), actions), ps)
  {
    var w := Run(World(map[], configs), actions);
    RunsAreExclusive(configs, actions);
    if Cycle(w, ps) {
      var n := |ps|;
      var b := if 1 < n then 1 else 0;
      var c := if b + 1 < n then b + 1 else 0;
      assert WaitsFor(w, ps[0], ps[b]) && WaitsFor(w, ps[b], ps[c]);
      assert WaitsFor(w, ps[c], ps[if c + 1 < n then c + 1 else 0]);
      ChainsAreShort(w, ps[0], ps[b], ps[c]);
    }
  }

  /** So while anyone waits, someone can go on: the waiting installer can take its lock, or it
      waits for one that can or that has all its locks. */
  lemma SomeoneGoesOn(w: World, p: nat)
    requires Exclusive(w) && Waits(w, p)
    ensures exists q :: Inside(w, q) || (Waits(w, q) && Free(w, Plan(w.procs[q].pass)[w.procs[q].held]))
  {
    if !Free(w, Plan(w.procs[p].pass)[w.procs[p].held]) {
      var q :| q in w.procs && HoldsLock(w, q, Plan(w.procs[p].pass)[w.procs[p].held]);
      if !Inside(w, q) && !Free(w, Plan(w.procs[q].pass)[w.procs[q].held]) {
        var r :| r in w.procs && HoldsLock(w, r, Plan(w.procs[q].pass)[w.procs[q].held]);
        ChainsAreShort(w, p, q, r);
      }
    }
  }

  // ---- Undisturbed -------------------------------------------------------------------------------

  lemma GuardedIsLocked(p: Pass, path: string)
    requires path in Guarded(p)
    ensures exists k :: 0 <= k < |Plan(p)| && Plan(p)[k] == ConfigLock(path)
  {
    var plan := Plan(p);
    assert plan[|plan| - 1].ConfigLock?;
    if p.PatchPass? && path != p.own { assert plan[1] == ConfigLock(path); }
  }

  lemma InsideHolds(w: World, p: nat, path: string)
    requires Inside(w, p) && path in Guarded(w.procs[p].pass)
    ensures HoldsLock(w, p, ConfigLock(path))
  {
    GuardedIsLocked(w.procs[p].pass, path);
  }

  /** While a pass has all its locks, whatever the other installers do, the configs it read do
      not change: in patch mode the one kubelet reads now and its own. */
  lemma {:induction false} Undisturbed(w: World, p: nat, actions: seq<Action>, path: string)
    requires Exclusive(w) && Inside(w, p) && path in Guarded(w.procs[p].pass)
    requires forall k :: 0 <= k < |actions| ==> actions[k].who != p
    ensures var v := Run(w, actions);
            && Exclusive(v) && p in v.procs && v.procs[p] == w.procs[p]
            && (path in v.configs <==> path in w.configs) && (path in w.configs ==> v.configs[path] == w.configs[path])
  {
    if actions != [] {
      var front, a := actions[..|actions| - 1], actions[|actions| - 1];
      Undisturbed(w, p, front, path);
      var v := Run(w, front);
      StepKeepsExclusive(v, a);
      if a.Change? && a.path == path && Inside(v, a.who) && path in Guarded(v.procs[a.who].pass) {
        InsideHolds(v, p, path);
        InsideHolds(v, a.who, path);
      }
    }
  }
}

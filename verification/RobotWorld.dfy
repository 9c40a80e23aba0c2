/** One HarborAccess, its robot Secret and the robots in Harbor, as the control plane and
    everyone else change them (bridge/controlplane/reconciler.go, contract.go). */
module RobotWorld {
  import opened Clock
  import opened Text

  // ---- Time, in nanoseconds ----------------------------------------------------------------

  const INTERVAL: int := 24 * 3600 * SECOND
  const MARGIN: int := 60 * SECOND

  /** A promise is rendered in whole seconds, rounded up. */
  function Rendered(t: int): (r: int)
    ensures t <= r < t + SECOND && r % SECOND == 0
    ensures t % SECOND == 0 ==> r == t
  {
    if t % SECOND == 0 then t else t - t % SECOND + SECOND
  }

  // ---- The world ---------------------------------------------------------------------------

  /** What a robot's description says: this HarborAccess, another one of this cluster, this
      cluster without a HarborAccess, or anything else. */
  datatype Described = Mine | OtherAccess | ClusterOnly | Foreign

  /** The grants, and whether the bridge could send them back unchanged. */
  datatype Grants = Grants(value: string, writable: bool)

  /** A robot in Harbor. Passwords are numbered in the order Harbor minted them; `deadBefore`
      is the first number minted after the bridge last suspended the robot. */
  datatype Robot = Robot(id: nat, described: Described, token: bool, disabled: bool, grants: Grants,
                         password: nat, deadBefore: nat)

  /** A Secret at the HarborAccess's robot-Secret name: the bridge's, or someone else's. */
  datatype Secret = Secret(uid: nat, version: nat, mine: bool, username: string, password: nat, robotId: nat, notBefore: int)

  /** What a request can read from the bridge's Secret. */
  datatype Version = Version(username: string, password: nat, robotId: nat, notBefore: int)

  datatype Reason = Missing | OtherRobot | Recreated | Scheduled

  /** A password that was replaced, when and why. */
  datatype Rotation = Rotation(replaced: nat, at: int, why: Option<Reason>)

  /** The HarborAccess: whether the bridge serves it, the robot name its spec maps to, its
      grants, and whether its status records no robot of another cluster. */
  datatype Spec = Spec(accepted: bool, want: Option<string>, grants: Grants, statusOurs: bool)

  /** `versions` are all versions of the Secret so far and `rotations` all rotations: what
      happened, for what follows. */
  datatype World = World(
    now: int, robots: map<string, Robot>, secret: Option<Secret>,
    spec: Spec, finalizer: bool, deleting: bool, gone: bool,
    nextId: nat, nextPassword: nat, nextVersion: nat,
    versions: set<Version>, rotations: seq<Rotation>)

  predicate Due(notBefore: int, now: int) { now >= notBefore + MARGIN }

  /** Why the stored password must be replaced now. */
  function RotationReason(secret: Option<Secret>, name: string, id: nat, now: int): Option<Reason> {
    if secret.None? then Some(Missing)
    else if secret.value.username != name then Some(OtherRobot)
    else if secret.value.robotId != id then Some(Recreated)
    else if Due(secret.value.notBefore, now) then Some(Scheduled)
    else None
  }

  function View(s: Secret): Version { Version(s.username, s.password, s.robotId, s.notBefore) }

  predicate HasMine(w: World) { w.secret.Some? && w.secret.value.mine }

  // ---- What holds in every reachable state -------------------------------------------------

  /** Numbers in use were handed out, and no two robots share one. */
  ghost predicate Fresh(w: World) {
    && (forall n :: n in w.robots ==>
          w.robots[n].id < w.nextId && w.robots[n].password < w.nextPassword && w.robots[n].deadBefore <= w.nextPassword)
    && (forall m, n :: m in w.robots && n in w.robots && m != n ==>
          w.robots[m].id != w.robots[n].id && w.robots[m].password != w.robots[n].password)
    && (w.secret.Some? ==> w.secret.value.version < w.nextVersion)
    && (forall v :: v in w.versions ==> v.password < w.nextPassword && v.robotId < w.nextId)
  }

  /** The bridge's Secret holds the password of the robot it names, or rotating is due. */
  ghost predicate Current(w: World) {
    HasMine(w) ==>
      var s := w.secret.value;
      forall n :: n in w.robots && s.username == n && s.robotId == w.robots[n].id ==>
        s.password == w.robots[n].password || Due(s.notBefore, w.now)
  }

  /** A robot of this HarborAccess is never without the finalizer that revokes it. */
  ghost predicate Revocable(w: World) {
    (exists n :: n in w.robots && w.robots[n].described == Mine) ==> w.finalizer && !w.gone
  }

  /** A robot that works has a password from after its last suspension. */
  ghost predicate NoDeadPassword(w: World) {
    forall n :: n in w.robots && !w.robots[n].disabled ==> w.robots[n].password >= w.robots[n].deadBefore
  }

  /** The Secret was always what its versions say, with one promise per password, in whole
      seconds; and a password that a robot has and a version has is the Secret's. */
  ghost predicate OnePromise(w: World) {
    && (HasMine(w) ==> View(w.secret.value) in w.versions)
    && (forall v :: v in w.versions ==> v.notBefore % SECOND == 0)
    && (forall u, v :: u in w.versions && v in w.versions && u.password == v.password ==> u == v)
    && (forall v, n :: v in w.versions && n in w.robots && v.password == w.robots[n].password ==>
          v.robotId == w.robots[n].id
          && (HasMine(w) && w.secret.value.robotId == w.robots[n].id ==> w.secret.value.password == v.password))
  }

  /** A replaced password is gone for good; one replaced on schedule had its promise kept. */
  ghost predicate PromisesKept(w: World) {
    forall k :: 0 <= k < |w.rotations| ==>
      var r := w.rotations[k];
      && r.replaced < w.nextPassword
      && (forall n :: n in w.robots ==> w.robots[n].password != r.replaced)
      && (r.why == Some(Scheduled) ==> forall v :: v in w.versions && v.password == r.replaced ==> Due(v.notBefore, r.at))
  }

  ghost predicate Inv(w: World) {
    Fresh(w) && Current(w) && Revocable(w) && NoDeadPassword(w) && OnePromise(w) && PromisesKept(w)
  }

  // ---- What everyone else does --------------------------------------------------------------

  /** Time passes; the janitor or an administrator deletes, disables or re-scopes a robot;
      someone creates a robot that is not this HarborAccess's; someone deletes or touches the
      Secret, or puts another one at its name; the spec is edited; deletion is requested. */
  datatype Env =
    | Tick(d: nat)
    | RobotDeleted(name: string)
    | RobotDisabled(name: string)
    | RobotRescoped(name: string, grants: Grants)
    | RobotAppears(name: string, described: Described, token: bool, disabled: bool, grants: Grants)
    | SecretDeleted
    | SecretTouched
    | SecretTaken(username: string, password: nat, robotId: nat, notBefore: int)
    | SpecEdited(spec: Spec)
    | DeletionRequested

  function EnvStep(w: World, e: Env): World {
    match e
    case Tick(d) => w.(now := w.now + d)
    case RobotDeleted(n) => w.(robots := w.robots - {n})
    case RobotDisabled(n) => if n in w.robots then w.(robots := w.robots[n := w.robots[n].(disabled := true)]) else w
    case RobotRescoped(n, g) => if n in w.robots then w.(robots := w.robots[n := w.robots[n].(grants := g)]) else w
    case RobotAppears(n, d, token, disabled, g) =>
      if n in w.robots || d == Mine then w
      else w.(robots := w.robots[n := Robot(w.nextId, d, token, disabled, g, w.nextPassword, 0)],
              nextId := w.nextId + 1, nextPassword := w.nextPassword + 1)
    case SecretDeleted => w.(secret := None)
    case SecretTouched =>
      if w.secret.None? then w
      else w.(secret := Some(w.secret.value.(version := w.nextVersion)), nextVersion := w.nextVersion + 1)
    case SecretTaken(u, p, id, nb) =>
      if w.secret.Some? then w
      else w.(secret := Some(Secret(w.nextVersion, w.nextVersion, false, u, p, id, nb)), nextVersion := w.nextVersion + 1)
    case SpecEdited(spec) => if w.gone then w else w.(spec := spec)
    case DeletionRequested => if w.gone then w else if w.finalizer then w.(deleting := true) else w.(gone := true)
  }

  /** A robot as it was, but for what others may change. */
  predicate SameRobot(a: Robot, b: Robot) {
    a.id == b.id && a.described == b.described && a.token == b.token && a.password == b.password
    && a.deadBefore == b.deadBefore && (a.disabled ==> b.disabled)
  }

  /** What the bridge can rely on while others act. */
  ghost predicate Rely(a: World, b: World) {
    && a.now <= b.now && a.nextId <= b.nextId && a.nextPassword <= b.nextPassword && a.nextVersion <= b.nextVersion
    && a.versions == b.versions && a.rotations == b.rotations
    && a.finalizer == b.finalizer && (a.gone ==> b.gone) && (a.finalizer && !a.gone ==> !b.gone)
    && SecretRely(a, b) && RobotsRely(a, b)
  }

  /** The bridge's Secret stays as it is or goes; one with another version is a later one. */
  predicate SecretRely(a: World, b: World) {
    && (HasMine(b) ==> HasMine(a) && View(a.secret.value) == View(b.secret.value))
    && (a.secret.Some? && b.secret.Some? && b.secret.value.version < a.nextVersion ==> b.secret == a.secret)
    && (a.secret.None? && b.secret.Some? ==> b.secret.value.version >= a.nextVersion)
  }

  /** Robots stay as they are or go; new ones are not this HarborAccess's. */
  ghost predicate RobotsRely(a: World, b: World) {
    forall n :: n in b.robots ==>
      if b.robots[n].id < a.nextId then n in a.robots && SameRobot(a.robots[n], b.robots[n])
      else b.robots[n].described != Mine && b.robots[n].password >= a.nextPassword && b.robots[n].deadBefore == 0
  }

  lemma EnvRely(w: World, e: Env)
    requires Fresh(w)
    ensures Rely(w, EnvStep(w, e))
  {
    EnvRobots(w, e);
    EnvSecret(w, e);
    EnvRest(w, e);
  }

  lemma EnvFresh(w: World, e: Env)
    requires Fresh(w)
    ensures Fresh(EnvStep(w, e))
  {
    EnvRobots(w, e);
  }

  /** Everything but the robots. */
  lemma EnvRest(w: World, e: Env)
    requires Fresh(w)
    ensures var v := EnvStep(w, e);
            && w.now <= v.now && w.nextId <= v.nextId && w.nextPassword <= v.nextPassword && w.nextVersion <= v.nextVersion
            && w.versions == v.versions && w.rotations == v.rotations
            && w.finalizer == v.finalizer && (w.gone ==> v.gone) && (w.finalizer && !w.gone ==> !v.gone)
  {
  }

  lemma EnvSecret(w: World, e: Env)
    requires Fresh(w)
    ensures SecretRely(w, EnvStep(w, e))
  {
  }

  predicate TouchesRobots(e: Env) { e.RobotDeleted? || e.RobotDisabled? || e.RobotRescoped? || e.RobotAppears? }

  lemma EnvRobots(w: World, e: Env)
    requires Fresh(w)
    ensures Fresh(EnvStep(w, e)) && RobotsRely(w, EnvStep(w, e))
  {
    if TouchesRobots(e) {
      EnvOnRobots(w, e);
    } else {
      EnvElsewhere(w, e);
      SameRobots(w, EnvStep(w, e));
    }
  }

  lemma EnvElsewhere(w: World, e: Env)
    requires Fresh(w) && !TouchesRobots(e)
    ensures var v := EnvStep(w, e);
            && v.robots == w.robots && v.nextId == w.nextId && v.nextPassword == w.nextPassword && v.versions == w.versions
            && (v.secret.Some? ==> v.secret.value.version < v.nextVersion)
  {
  }

  lemma EnvOnRobots(w: World, e: Env)
    requires Fresh(w) && TouchesRobots(e)
    ensures Fresh(EnvStep(w, e)) && RobotsRely(w, EnvStep(w, e))
  {
    if e.RobotDeleted? {
      GoneRobot(w, e.name);
    } else if e.RobotAppears? {
      if e.name in w.robots || e.described == Mine {
        SameRobots(w, w);
      } else {
        NewRobot(w, e.name, e.described, e.token, e.disabled, e.grants);
      }
    } else if e.name in w.robots {
      ChangedRobot(w, e.name, EnvStep(w, e).robots[e.name]);
    } else {
      SameRobots(w, w);
    }
  }

  lemma SameRobots(w: World, v: World)
    requires Fresh(w) && v.robots == w.robots && v.nextId == w.nextId && v.nextPassword == w.nextPassword && v.versions == w.versions
    requires v.secret.Some? ==> v.secret.value.version < v.nextVersion
    ensures Fresh(v) && RobotsRely(w, v)
  {
  }

  lemma GoneRobot(w: World, n: string)
    requires Fresh(w)
    ensures var v := w.(robots := w.robots - {n}); Fresh(v) && RobotsRely(w, v)
  {
  }

  lemma ChangedRobot(w: World, n: string, r: Robot)
    requires Fresh(w) && n in w.robots && SameRobot(w.robots[n], r)
    ensures var v := w.(robots := w.robots[n := r]); Fresh(v) && RobotsRely(w, v)
  {
  }

  lemma NewRobot(w: World, n: string, d: Described, token: bool, disabled: bool, g: Grants)
    requires Fresh(w) && n !in w.robots
    ensures var v := w.(robots := w.robots[n := Robot(w.nextId, d, token, disabled, g, w.nextPassword, 0)],
                        nextId := w.nextId + 1, nextPassword := w.nextPassword + 1);
            Fresh(v) && (d != Mine ==> RobotsRely(w, v))
  {
  }

  /** What others do only takes away: robots keep their numbers, new ones get new numbers, and
      the bridge's Secret stays as it is or goes. */
  lemma RelyKeeps(w: World, v: World)
    requires Inv(w) && Rely(w, v) && Fresh(v)
    ensures Inv(v)
  {
    RelyCurrent(w, v);
    RelyPromises(w, v);
  }

  lemma RelyCurrent(w: World, v: World)
    requires Inv(w) && Rely(w, v) && Fresh(v)
    ensures Current(v) && Revocable(v) && NoDeadPassword(v)
  {
  }

  lemma RelyPromises(w: World, v: World)
    requires Inv(w) && Rely(w, v) && Fresh(v)
    ensures OnePromise(v) && PromisesKept(v)
  {
  }

  lemma EnvKeeps(w: World, e: Env)
    requires Inv(w)
    ensures Inv(EnvStep(w, e)) && Rely(w, EnvStep(w, e))
  {
    EnvRely(w, e);
    EnvFresh(w, e);
    RelyKeeps(w, EnvStep(w, e));
  }

  lemma RelyTrans(a: World, b: World, c: World)
    requires Rely(a, b) && Rely(b, c)
    ensures Rely(a, c)
  {
  }

  function EnvSteps(w: World, es: seq<Env>): World {
    if es == [] then w else EnvStep(EnvSteps(w, es[..|es| - 1]), es[|es| - 1])
  }

  lemma {:induction false} EnvStepsKeep(w: World, es: seq<Env>)
    requires Inv(w)
    ensures Inv(EnvSteps(w, es)) && Rely(w, EnvSteps(w, es))
  {
    if es != [] {
      var mid := EnvSteps(w, es[..|es| - 1]);
      EnvStepsKeep(w, es[..|es| - 1]);
      EnvKeeps(mid, es[|es| - 1]);
      RelyTrans(w, mid, EnvSteps(w, es));
    }
  }

  // ---- What the bridge does -------------------------------------------------------------------

  function AddFinalizer(w: World): World { w.(finalizer := true) }

  /** An object that is being deleted goes with its last finalizer. */
  function RemoveFinalizer(w: World): World { w.(finalizer := false, gone := w.gone || w.deleting) }

  function CreateRobot(w: World, n: string, grants: Grants): World {
    w.(robots := w.robots[n := Robot(w.nextId, Mine, false, false, grants, w.nextPassword, 0)],
       nextId := w.nextId + 1, nextPassword := w.nextPassword + 1)
  }

  function DeleteRobot(w: World, n: string): World { w.(robots := w.robots - {n}) }

  /** Harbor mints a new password for the robot. */
  function RefreshSecret(w: World, n: string, why: Option<Reason>): World
    requires n in w.robots
  {
    w.(robots := w.robots[n := w.robots[n].(password := w.nextPassword)], nextPassword := w.nextPassword + 1,
       rotations := w.rotations + [Rotation(w.robots[n].password, w.now, why)])
  }

  /** Harbor takes the description, the flag and the grants it is sent. */
  function UpdateRobot(w: World, n: string, disabled: bool, grants: Grants): World
    requires n in w.robots
  {
    w.(robots := w.robots[n := w.robots[n].(described := Mine, token := false, disabled := disabled, grants := grants)])
  }

  function SuspendRobot(w: World, n: string, grants: Grants): World
    requires n in w.robots
  {
    w.(robots := w.robots[n := w.robots[n].(described := Mine, token := true, disabled := true, grants := grants, deadBefore := w.nextPassword)])
  }

  function DeleteSecret(w: World): World { w.(secret := None) }

  function PutSecret(w: World, v: Version): World {
    var uid := if w.secret.Some? then w.secret.value.uid else w.nextVersion;
    w.(secret := Some(Secret(uid, w.nextVersion, true, v.username, v.password, v.robotId, v.notBefore)),
       nextVersion := w.nextVersion + 1, versions := w.versions + {v})
  }

  // ---- What a pass knows, whatever others do meanwhile ------------------------------------------

  /** The robot a pass works on: it is still there as the pass knows it, or gone. */
  ghost predicate Known(w: World, n: string, id: nat) {
    id < w.nextId && forall m :: m in w.robots && w.robots[m].id == id ==> m == n
  }

  predicate At(w: World, n: string, id: nat) { n in w.robots && w.robots[n].id == id }

  /** The Secret as a pass read it: the bridge's Secret is that one or gone, and its promise is
      the promise of the robot's password. */
  ghost predicate ReadSecret(w: World, snap: Option<Secret>) {
    && (HasMine(w) ==> snap.Some? && snap.value.mine && View(snap.value) == View(w.secret.value))
    && (snap.Some? ==>
          && snap.value.version < w.nextVersion
          && (w.secret.Some? && w.secret.value.version == snap.value.version ==> w.secret == snap)
          && (snap.value.mine ==>
                && View(snap.value) in w.versions
                && forall n, v :: SharesPassword(w.robots, w.versions, n, v) && w.robots[n].id == snap.value.robotId ==> v == View(snap.value)))
  }

  predicate SharesPassword(robots: map<string, Robot>, versions: set<Version>, n: string, v: Version) {
    n in robots && v in versions && v.password == robots[n].password
  }

  /** A password the pass got from Harbor and has not stored yet. */
  ghost predicate Pending(w: World, n: string, id: nat, p: nat) {
    && Known(w, n, id) && p < w.nextPassword
    && (At(w, n, id) ==> w.robots[n].password == p)
    && (forall m :: m in w.robots && w.robots[m].password == p ==> m == n && w.robots[m].id == id)
    && (forall v :: v in w.versions ==> v.password != p)
    && (forall k :: 0 <= k < |w.rotations| ==> w.rotations[k].replaced != p)
  }

  /** Its password is from after its last suspension. */
  ghost predicate Alive(w: World, n: string, id: nat) {
    At(w, n, id) ==> w.robots[n].password >= w.robots[n].deadBefore
  }

  /** The robot, if it is still there, is disabled. */
  predicate Off(w: World, n: string, id: nat) { At(w, n, id) ==> w.robots[n].disabled }

  lemma KnownStays(a: World, b: World, n: string, id: nat)
    requires Rely(a, b) && Known(a, n, id)
    ensures Known(b, n, id) && (Alive(a, n, id) ==> Alive(b, n, id)) && (Off(a, n, id) ==> Off(b, n, id))
  {
  }

  lemma PendingStays(a: World, b: World, n: string, id: nat, p: nat)
    requires Rely(a, b) && Pending(a, n, id, p)
    ensures Pending(b, n, id, p)
  {
  }

  lemma ReadStays(a: World, b: World, snap: Option<Secret>)
    requires Rely(a, b) && ReadSecret(a, snap) && Fresh(a)
    ensures ReadSecret(b, snap)
  {
    if snap.Some? && snap.value.mine {
      forall n, v | SharesPassword(b.robots, b.versions, n, v) && b.robots[n].id == snap.value.robotId ensures v == View(snap.value) {
        assert View(snap.value) in a.versions;
        assert SharesPassword(a.robots, a.versions, n, v);
      }
    }
  }

  // ---- Every call of the bridge keeps the invariant ----------------------------------------------

  lemma AddFinalizerKeeps(w: World)
    requires Inv(w) && !w.gone
    ensures Inv(AddFinalizer(w))
  {
  }

  /** The finalizer may go once no robot of this HarborAccess is left. */
  lemma RemoveFinalizerKeeps(w: World)
    requires Inv(w) && forall n :: n in w.robots ==> w.robots[n].described != Mine
    ensures Inv(RemoveFinalizer(w))
  {
  }

  lemma DeleteRobotKeeps(a: World, w: World, n: string)
    requires Inv(w) && Rely(a, w)
    ensures Inv(DeleteRobot(w, n)) && Rely(a, DeleteRobot(w, n))
  {
    EnvKeeps(w, RobotDeleted(n));
    RelyTrans(a, w, DeleteRobot(w, n));
  }

  lemma DeleteSecretKeeps(a: World, w: World)
    requires Inv(w) && Rely(a, w)
    ensures Inv(DeleteSecret(w)) && Rely(a, DeleteSecret(w))
  {
    EnvKeeps(w, SecretDeleted);
    RelyTrans(a, w, DeleteSecret(w));
  }

  /** A robot may be created once the finalizer is there. */
  lemma CreateKeeps(w: World, n: string, grants: Grants)
    requires Inv(w) && w.finalizer && !w.gone && n !in w.robots
    ensures var v := CreateRobot(w, n, grants);
            Inv(v) && Pending(v, n, w.nextId, w.nextPassword) && Alive(v, n, w.nextId)
  {
    var v := CreateRobot(w, n, grants);
    assert Fresh(v) by { NewRobot(w, n, Mine, false, false, grants); }
    assert Current(v) && Revocable(v) && NoDeadPassword(v);
    CreatePromises(w, n, grants);
  }

  lemma CreatePromises(w: World, n: string, grants: Grants)
    requires Inv(w) && n !in w.robots
    ensures var v := CreateRobot(w, n, grants);
            OnePromise(v) && PromisesKept(v) && Pending(v, n, w.nextId, w.nextPassword) && Alive(v, n, w.nextId)
  {
  }

  /** A password may be replaced when the bridge's Secret does not hold it as a current one: it
      is gone, or another robot's, or due. */
  lemma RefreshKeeps(w: World, n: string, why: Option<Reason>)
    requires Inv(w) && n in w.robots
    requires HasMine(w) && w.secret.value.username == n && w.secret.value.robotId == w.robots[n].id ==> Due(w.secret.value.notBefore, w.now)
    requires why == Some(Scheduled) ==> forall v :: v in w.versions && v.password == w.robots[n].password ==> Due(v.notBefore, w.now)
    ensures var v := RefreshSecret(w, n, why);
            Inv(v) && Pending(v, n, w.robots[n].id, w.nextPassword) && Alive(v, n, w.robots[n].id)
  {
    RefreshFresh(w, n, why);
    RefreshPromises(w, n, why);
  }

  lemma RefreshFresh(w: World, n: string, why: Option<Reason>)
    requires Inv(w) && n in w.robots
    requires HasMine(w) && w.secret.value.username == n && w.secret.value.robotId == w.robots[n].id ==> Due(w.secret.value.notBefore, w.now)
    ensures var v := RefreshSecret(w, n, why); Fresh(v) && Current(v) && Revocable(v) && NoDeadPassword(v)
  {
  }

  lemma RefreshPromises(w: World, n: string, why: Option<Reason>)
    requires Inv(w) && n in w.robots
    requires why == Some(Scheduled) ==> forall v :: v in w.versions && v.password == w.robots[n].password ==> Due(v.notBefore, w.now)
    ensures var v := RefreshSecret(w, n, why);
            && OnePromise(v) && PromisesKept(v)
            && Pending(v, n, w.robots[n].id, w.nextPassword) && Alive(v, n, w.robots[n].id)
  {
  }

  /** A robot may be enabled when its password is from after its last suspension. */
  lemma UpdateKeeps(w: World, n: string, disabled: bool, grants: Grants)
    requires Inv(w) && w.finalizer && !w.gone && n in w.robots && (disabled || Alive(w, n, w.robots[n].id))
    ensures Inv(UpdateRobot(w, n, disabled, grants))
  {
  }

  lemma SuspendKeeps(w: World, n: string, grants: Grants)
    requires Inv(w) && n in w.robots && w.finalizer && !w.gone
    ensures Inv(SuspendRobot(w, n, grants))
  {
  }

  /** The Secret may take the password that is pending for its robot. */
  lemma PutKeeps(w: World, n: string, id: nat, p: nat, notBefore: int)
    requires Inv(w) && Pending(w, n, id, p) && notBefore % SECOND == 0
    ensures Inv(PutSecret(w, Version(n, p, id, notBefore)))
  {
    var v := PutSecret(w, Version(n, p, id, notBefore));
    assert Fresh(v);
    assert Current(v);
    assert OnePromise(v);
    assert PromisesKept(v);
  }

  // ---- Calls, after others acted -----------------------------------------------------------------

  /** Nothing a request may still rely on is lost when the robot's password is replaced now. */
  ghost predicate Replaceable(w: World, n: string, id: nat, why: Option<Reason>) {
    && (HasMine(w) && w.secret.value.username == n && w.secret.value.robotId == id ==> Due(w.secret.value.notBefore, w.now))
    && (why == Some(Scheduled) && At(w, n, id) ==>
          forall v :: SharesPassword(w.robots, w.versions, n, v) ==> Due(v.notBefore, w.now))
  }

  lemma ReplaceableStays(a: World, b: World, n: string, id: nat, why: Option<Reason>)
    requires Rely(a, b) && Known(a, n, id) && Replaceable(a, n, id, why)
    ensures Replaceable(b, n, id, why)
  {
    if why == Some(Scheduled) && At(b, n, id) {
      forall v | SharesPassword(b.robots, b.versions, n, v) ensures Due(v.notBefore, b.now) {
        assert SharesPassword(a.robots, a.versions, n, v);
      }
    }
  }

  /** A reason to rotate, found when the Secret was read, is good whenever the call arrives. */
  lemma ReasonIsGood(w: World, snap: Option<Secret>, n: string, id: nat, now: int)
    requires ReadSecret(w, snap) && (snap.Some? ==> snap.value.mine) && now <= w.now
    requires RotationReason(snap, n, id, now).Some?
    ensures Replaceable(w, n, id, RotationReason(snap, n, id, now))
  {
  }

  /** A promise that was read is rendered as it was: without a new password nothing is written. */
  lemma RenderedAgain(w: World, s: Secret)
    requires OnePromise(w) && View(s) in w.versions
    ensures Rendered(s.notBefore) == s.notBefore
  {
  }

  lemma MintKeeps(a: World, w: World, n: string, id: nat, why: Option<Reason>)
    requires Inv(w) && Rely(a, w) && At(w, n, id) && Known(a, n, id) && Replaceable(a, n, id, why)
    ensures var v := RefreshSecret(w, n, why);
            Inv(v) && Pending(v, n, id, w.nextPassword) && Alive(v, n, id)
  {
    ReplaceableStays(a, w, n, id, why);
    forall v | v in w.versions && v.password == w.robots[n].password ensures why == Some(Scheduled) ==> Due(v.notBefore, w.now) {
      assert SharesPassword(w.robots, w.versions, n, v);
    }
    RefreshKeeps(w, n, why);
  }

  lemma UpdateFacts(w: World, n: string, disabled: bool, grants: Grants, id: nat, p: nat)
    requires n in w.robots
    ensures Pending(w, n, id, p) ==> Pending(UpdateRobot(w, n, disabled, grants), n, id, p)
    ensures Known(w, n, id) ==> Known(UpdateRobot(w, n, disabled, grants), n, id)
  {
  }

  lemma UpdateReads(w: World, n: string, disabled: bool, grants: Grants, snap: Option<Secret>)
    requires n in w.robots && ReadSecret(w, snap)
    ensures ReadSecret(UpdateRobot(w, n, disabled, grants), snap)
  {
    var b := UpdateRobot(w, n, disabled, grants);
    if snap.Some? && snap.value.mine {
      forall m, v | SharesPassword(b.robots, b.versions, m, v) && b.robots[m].id == snap.value.robotId ensures v == View(snap.value) {
        assert SharesPassword(w.robots, w.versions, m, v);
      }
    }
  }

  lemma CreateReads(w: World, n: string, grants: Grants, snap: Option<Secret>)
    requires Fresh(w) && ReadSecret(w, snap) && n !in w.robots
    ensures ReadSecret(CreateRobot(w, n, grants), snap)
  {
    var b := CreateRobot(w, n, grants);
    if snap.Some? && snap.value.mine {
      forall m, v | SharesPassword(b.robots, b.versions, m, v) && b.robots[m].id == snap.value.robotId ensures v == View(snap.value) {
        assert View(snap.value) in w.versions;
        assert m != n;
        assert SharesPassword(w.robots, w.versions, m, v);
      }
    }
  }

  /** No robot of this HarborAccess is left but the one kept. */
  ghost predicate OnlyMine(w: World, keep: Option<nat>) {
    forall n :: n in w.robots && w.robots[n].described == Mine ==> keep == Some(w.robots[n].id)
  }

  lemma OnlyMineStays(a: World, b: World, keep: Option<nat>)
    requires Rely(a, b) && OnlyMine(a, keep)
    ensures OnlyMine(b, keep)
  {
  }

  lemma GoneStays(a: World, b: World, n: string, id: nat)
    requires Rely(a, b) && id < a.nextId && !At(a, n, id)
    ensures !At(b, n, id)
  {
  }

  lemma FinalizerRemoval(a: World, w: World)
    requires Inv(w) && Rely(a, w) && OnlyMine(a, None)
    ensures Inv(RemoveFinalizer(w)) && OnlyMine(RemoveFinalizer(w), None)
  {
    OnlyMineStays(a, w, None);
    RemoveFinalizerKeeps(w);
  }

  // ---- What the invariant means --------------------------------------------------------------------

  /** A world where nothing was done yet for this HarborAccess is a start. */
  lemma StartsSound(w: World)
    requires w.secret.None? && w.versions == {} && w.rotations == []
    requires forall n :: n in w.robots ==> var r := w.robots[n];
               r.described != Mine && r.id < w.nextId && r.password < w.nextPassword && r.deadBefore == 0
    requires forall m, n :: m in w.robots && n in w.robots && m != n ==>
               w.robots[m].id != w.robots[n].id && w.robots[m].password != w.robots[n].password
    ensures Inv(w)
  {
  }

  /** Where there is no reason to rotate, the Secret holds the password Harbor accepts. */
  ghost predicate NoReasonMeansCurrent(w: World) {
    forall n :: n in w.robots && HasMine(w) && RotationReason(w.secret, n, w.robots[n].id, w.now).None? ==>
      w.secret.value.password == w.robots[n].password
  }

  /** Once the finalizer is released, or the object is gone, no robot of it is left in Harbor. */
  ghost predicate ReleasedMeansRevoked(w: World) {
    !w.finalizer || w.gone ==> forall n :: n in w.robots ==> w.robots[n].described != Mine
  }

  /** The promise of a password never moves: all versions of the Secret that hold it agree. */
  ghost predicate PromiseNeverMoves(w: World) {
    forall u, v :: u in w.versions && v in w.versions && u.password == v.password ==>
      u.notBefore == v.notBefore && u.robotId == v.robotId && u.username == v.username
  }
}

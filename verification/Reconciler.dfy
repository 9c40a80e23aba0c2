/** The control plane's passes over one HarborAccess (bridge/controlplane/reconciler.go). */
module Reconciler {
  import opened Clock
  import opened Text
  import opened RobotWorld

  /** A call takes effect and says so; or fails; or takes effect and reports an error. */
  datatype Outcome = Works | Fails | WorksButFails

  /** What happens at one call: what others do before it, and its outcome. */
  datatype Turn = Turn(before: seq<Env>, outcome: Outcome)

  /** The bridge, one pass at a time. Each call to Harbor or the apiserver meets the next turn
      of the script; when the script is used up, calls go as `after` says: all of them work,
      or the process is gone and none does. */
  class Bridge {
    var w: World
    var script: seq<Turn>
    var after: Outcome

    constructor (w: World, script: seq<Turn>, after: Outcome)
      ensures this.w == w && this.script == script && this.after == after
    {
      this.w, this.script, this.after := w, script, after;
    }

    /** Nobody interferes and every call works. */
    predicate Calm()
      reads this
    {
      script == [] && after == Works
    }

    method Await() returns (o: Outcome)
      requires Inv(w)
      modifies this
      ensures Inv(w) && Rely(old(w), w) && after == old(after)
      ensures old(Calm()) ==> Calm() && w == old(w) && o == Works
    {
      if script == [] {
        return after;
      }
      EnvStepsKeep(w, script[0].before);
      w, o, script := EnvSteps(w, script[0].before), script[0].outcome, script[1..];
    }

    // ---- Single calls -------------------------------------------------------------------------

    /** Reads the Secret, not from a cache. */
    method GetSecret() returns (ok: bool, snap: Option<Secret>)
      requires Inv(w)
      modifies this
      ensures Inv(w) && Rely(old(w), w) && after == old(after)
      ensures ok ==> snap == w.secret && ReadSecret(w, snap)
      ensures old(Calm()) ==> Calm() && w == old(w) && ok
    {
      var o := Await();
      ok, snap := o == Works, w.secret;
    }

    method LookUp(n: string) returns (ok: bool, found: Option<Robot>)
      requires Inv(w)
      modifies this
      ensures Inv(w) && Rely(old(w), w) && after == old(after)
      ensures ok && found.Some? ==> n in w.robots && w.robots[n] == found.value && Known(w, n, found.value.id)
      ensures ok && found.None? ==> n !in w.robots
      ensures old(Calm()) ==> Calm() && w == old(w) && ok
    {
      var o := Await();
      ok, found := o == Works, if n in w.robots then Some(w.robots[n]) else None;
    }

    /** Removes the Secret the pass read, unless another one took its place. */
    method RemoveSecret(snap: Secret) returns (ok: bool)
      requires Inv(w)
      modifies this
      ensures Inv(w) && Rely(old(w), w) && after == old(after)
      ensures ok ==> w.secret.None?
      ensures old(Calm()) && old(w).secret == Some(snap) ==> Calm() && ok && w == DeleteSecret(old(w))
    {
      var o := Await();
      if w.secret.None? || w.secret.value.uid != snap.uid {
        return w.secret.None? && o == Works;
      }
      if o != Fails {
        DeleteSecretKeeps(old(w), w);
        w := DeleteSecret(w);
      }
      return o == Works;
    }

    method RemoveRobot(n: string, id: nat) returns (ok: bool)
      requires Inv(w)
      modifies this
      ensures Inv(w) && Rely(old(w), w) && after == old(after)
      ensures ok ==> !At(w, n, id)
      ensures old(Calm()) ==> Calm() && ok && w == if At(old(w), n, id) then DeleteRobot(old(w), n) else old(w)
    {
      var o := Await();
      if o != Fails && At(w, n, id) {
        DeleteRobotKeeps(old(w), w, n);
        w := DeleteRobot(w, n);
      }
      return o == Works;
    }

    /** Adds the finalizer, which an object being deleted does not accept. */
    method EnsureFinalizer(had: bool, ghost snap: Option<Secret>) returns (ok: bool)
      requires Inv(w) && (had ==> w.finalizer && !w.gone) && ReadSecret(w, snap)
      modifies this
      ensures Inv(w) && after == old(after)
      ensures ReadSecret(w, snap) && (ok ==> w.finalizer && !w.gone)
      ensures old(Calm()) ==> Calm() && (ok <==> had || !(w.gone || w.deleting)) && w == if ok then AddFinalizer(old(w)) else old(w)
    {
      if had {
        return true;
      }
      var o := Await();
      ReadStays(old(w), w, snap);
      if w.gone || w.deleting {
        return false;
      }
      if o != Fails {
        AddFinalizerKeeps(w);
        w := AddFinalizer(w);
      }
      return o == Works;
    }

    method MakeRobot(n: string, grants: Grants, ghost snap: Option<Secret>) returns (made: Made)
      requires Inv(w) && w.finalizer && !w.gone && ReadSecret(w, snap)
      modifies this
      ensures Inv(w) && w.finalizer && !w.gone && ReadSecret(w, snap) && after == old(after)
      ensures made.Created? ==> var r := made.robot;
                n in w.robots && w.robots[n] == r && Pending(w, n, r.id, r.password) && Alive(w, n, r.id)
      ensures old(Calm()) ==> Calm() && if n in old(w).robots then made.Exists? && w == old(w)
                                        else made.Created? && w == CreateRobot(old(w), n, grants)
    {
      var o := Await();
      ReadStays(old(w), w, snap);
      if o == Fails {
        return NotMade;
      }
      if n in w.robots {
        return if o == Works then Exists else NotMade;
      }
      CreateKeeps(w, n, grants);
      CreateReads(w, n, grants, snap);
      w := CreateRobot(w, n, grants);
      return if o == Works then Created(w.robots[n]) else NotMade;
    }

    /** Harbor mints a new password. */
    method Mint(n: string, id: nat, why: Option<Reason>) returns (ok: bool, p: nat)
      requires Inv(w) && Known(w, n, id) && Replaceable(w, n, id, why) && w.finalizer && !w.gone
      modifies this
      ensures Inv(w) && Minting(old(w), w, n, id) && after == old(after)
      ensures ok ==> Pending(w, n, id, p) && Alive(w, n, id)
      ensures old(Calm()) && At(old(w), n, id) ==> Calm() && ok && p == old(w).nextPassword && w == RefreshSecret(old(w), n, why)
    {
      var o := Await();
      MintingStays(old(w), w, n, id);
      ok, p := MintNow(n, id, why, o, old(w));
    }

    method MintNow(n: string, id: nat, why: Option<Reason>, o: Outcome, ghost a: World) returns (ok: bool, p: nat)
      requires Inv(w) && Rely(a, w) && Known(a, n, id) && Replaceable(a, n, id, why) && Minting(a, w, n, id)
      modifies this`w
      ensures Inv(w) && Minting(a, w, n, id)
      ensures ok ==> Pending(w, n, id, p) && Alive(w, n, id)
      ensures At(old(w), n, id) && o == Works ==> ok && p == old(w).nextPassword && w == RefreshSecret(old(w), n, why)
    {
      ok, p := false, w.nextPassword;
      if o != Fails && At(w, n, id) {
        Minted(a, w, n, id, why);
        w := RefreshSecret(w, n, why);
        ok := o == Works;
      }
    }

    /** Sends the robot's description, flag and grants. */
    method Send(n: string, id: nat, disabled: bool, grants: Grants, ghost p: Option<nat>, ghost snap: Option<Secret>) returns (ok: bool)
      requires Inv(w) && w.finalizer && !w.gone && WorksOn(w, n, id, disabled, p, snap)
      modifies this
      ensures Inv(w) && w.finalizer && !w.gone && after == old(after) && old(w).now <= w.now
      ensures WorksOn(w, n, id, disabled, p, snap) && (HasMine(w) ==> HasMine(old(w)))
      ensures old(Calm()) && At(old(w), n, id) ==> Calm() && ok && w == UpdateRobot(old(w), n, disabled, grants)
    {
      var o := Await();
      WorkStays(old(w), w, n, id, disabled, p, snap);
      ok := SendNow(n, id, disabled, grants, o, p, snap);
    }

    method SendNow(n: string, id: nat, disabled: bool, grants: Grants, o: Outcome, ghost p: Option<nat>, ghost snap: Option<Secret>)
      returns (ok: bool)
      requires Inv(w) && w.finalizer && !w.gone && WorksOn(w, n, id, disabled, p, snap)
      modifies this`w
      ensures Inv(w) && WorksOn(w, n, id, disabled, p, snap)
      ensures w == old(w) || (At(old(w), n, id) && w == UpdateRobot(old(w), n, disabled, grants))
      ensures At(old(w), n, id) && o == Works ==> ok && w == UpdateRobot(old(w), n, disabled, grants)
    {
      ok := false;
      if o != Fails && At(w, n, id) {
        WorkUpdated(w, n, id, disabled, grants, p, snap);
        w := UpdateRobot(w, n, disabled, grants);
        ok := o == Works;
      }
    }

    /** Writes the Secret over the version the pass read, or creates it. */
    method Put(existing: Option<Secret>, v: Version) returns (stored: Stored)
      requires Inv(w) && Pending(w, v.username, v.robotId, v.password) && v.notBefore % SECOND == 0
      modifies this
      ensures Inv(w) && after == old(after)
      ensures stored.Raced? ==> Pending(w, v.username, v.robotId, v.password)
      ensures old(Calm()) && existing == old(w).secret ==> Calm() && stored.Done? && w == PutSecret(old(w), v)
    {
      var o := Await();
      PendingStays(old(w), w, v.username, v.robotId, v.password);
      if o == Fails {
        return NotStored;
      }
      if !SameVersion(existing, w.secret) {
        return Raced;
      }
      PutKeeps(w, v.username, v.robotId, v.password, v.notBefore);
      w := PutSecret(w, v);
      return if o == Works then Done else NotStored;
    }

    /** Stores a new password, on top of whatever became of the Secret meanwhile. */
    method WriteSecret(existing: Option<Secret>, v: Version) returns (ok: bool)
      requires Inv(w) && Pending(w, v.username, v.robotId, v.password) && v.notBefore % SECOND == 0
      modifies this
      ensures Inv(w) && after == old(after)
      ensures old(Calm()) && existing == old(w).secret ==> Calm() && ok && w == PutSecret(old(w), v)
    {
      var current := existing;
      for attempt := 0 to 5
        invariant Inv(w) && Pending(w, v.username, v.robotId, v.password) && after == old(after)
        invariant old(Calm()) && existing == old(w).secret ==> Calm() && current == existing && w == old(w) && attempt == 0
      {
        var stored := Put(current, v);
        if !stored.Raced? {
          return stored.Done?;
        }
        ghost var mid := w;
        var read, again := GetSecret();
        PendingStays(mid, w, v.username, v.robotId, v.password);
        if !read || (again.Some? && !again.value.mine) {
          return false;
        }
        current := again;
      }
      return false;
    }

    /** Finds or creates the robot, and refuses one that is not this HarborAccess's. */
    method EnsureRobot(n: string, grants: Grants, ghost snap: Option<Secret>) returns (found: Option<Robot>, created: bool)
      requires Inv(w) && w.finalizer && !w.gone && ReadSecret(w, snap)
      modifies this
      ensures Inv(w) && w.finalizer && !w.gone && ReadSecret(w, snap) && after == old(after)
      ensures found.Some? ==> Known(w, n, found.value.id)
      ensures found.Some? && created ==> Pending(w, n, found.value.id, found.value.password)
      ensures found.Some? ==> if found.value.disabled then Off(w, n, found.value.id) else Alive(w, n, found.value.id)
      ensures old(Calm()) ==> Calm() && if n !in old(w).robots then created && w == CreateRobot(old(w), n, grants) && found == Some(w.robots[n])
                                        else !created && w == old(w) && found == if Adoptable(w.robots[n]) then Some(w.robots[n]) else None
    {
      var ok, existing := LookUp(n);
      ReadStays(old(w), w, snap);
      if !ok {
        return None, false;
      }
      if existing.None? {
        var made := MakeRobot(n, grants, snap);
        if made.Created? {
          return Some(made.robot), true;
        }
        if made.NotMade? {
          return None, false;
        }
        ghost var mid := w;
        ok, existing := LookUp(n);
        ReadStays(mid, w, snap);
        if !ok || existing.None? {
          return None, false;
        }
      }
      return if Adoptable(existing.value) then existing else None, false;
    }

    // ---- Serving ------------------------------------------------------------------------------

    /** Resumes a robot the bridge suspended: the Secret goes, the robot gets a new password
        while it is disabled, and only then it is enabled. */
    method Resume(n: string, robot: Robot, snap: Option<Secret>, grants: Grants) returns (ok: bool, p: nat)
      requires Inv(w) && Known(w, n, robot.id) && Off(w, n, robot.id) && ReadSecret(w, snap) && w.finalizer && !w.gone
      requires snap.Some? ==> snap.value.mine
      modifies this
      ensures HasMine(w) ==> Off(w, n, robot.id)
      ensures Inv(w) && w.finalizer && !w.gone && after == old(after)
      ensures ok ==> Known(w, n, robot.id) && Pending(w, n, robot.id, p) && !HasMine(w)
      ensures old(Calm()) && At(old(w), n, robot.id) && snap == old(w).secret ==>
                Calm() && ok && w == Resumed(old(w), n, grants) && p == old(w).nextPassword
    {
      p := 0;
      if snap.Some? {
        var removed := RemoveSecret(snap.value);
        KnownStays(old(w), w, n, robot.id);
        if !removed {
          return false, p;
        }
      }
      assert !HasMine(w) && Replaceable(w, n, robot.id, None);
      ok, p := Mint(n, robot.id, None);
      if !ok {
        return false, p;
      }
      assert ReadSecret(w, None);
      ok := Send(n, robot.id, false, grants, Some(p), None);
    }

    /** Gives an enabled or administrator-disabled robot the spec's grants and description. */
    method Converge(n: string, robot: Robot, grants: Grants, ghost snap: Option<Secret>) returns (ok: bool)
      requires Inv(w) && Known(w, n, robot.id) && w.finalizer && !w.gone && (robot.disabled || Alive(w, n, robot.id))
      requires ReadSecret(w, snap)
      modifies this
      ensures Inv(w) && Known(w, n, robot.id) && w.finalizer && !w.gone && after == old(after) && old(w).now <= w.now
      ensures ReadSecret(w, snap)
      ensures old(Calm()) && n in old(w).robots && old(w).robots[n] == robot ==>
                Calm() && ok && w == UpdateRobot(old(w), n, robot.disabled, grants)
    {
      if robot.grants == grants && robot.described == Mine && !robot.token {
        assert n in w.robots && w.robots[n] == robot ==> w.robots[n := robot] == w.robots;
        return true;
      }
      ok := Send(n, robot.id, robot.disabled, grants, None, snap);
    }

    /** Rotates when there is a reason, and stores the new password; otherwise the Secret stays
        as it is, with its promise. */
    method Rotate(n: string, id: nat, snap: Option<Secret>, now: int) returns (ok: bool)
      requires Inv(w) && Known(w, n, id) && ReadSecret(w, snap) && w.finalizer && !w.gone && now <= w.now
      requires snap.Some? ==> snap.value.mine
      modifies this
      ensures Inv(w) && after == old(after)
      ensures old(Calm()) && At(old(w), n, id) && snap == old(w).secret && now == old(w).now ==> Calm() && ok && w == Rotated(old(w), n)
    {
      var why := RotationReason(snap, n, id, now);
      if why.None? {
        RenderedAgain(w, snap.value);
        return true;
      }
      ReasonIsGood(w, snap, n, id, now);
      ok := MintAndStore(n, id, snap, why, Rendered(now + INTERVAL));
    }

    method MintAndStore(n: string, id: nat, snap: Option<Secret>, why: Option<Reason>, notBefore: int) returns (ok: bool)
      requires Inv(w) && Known(w, n, id) && Replaceable(w, n, id, why) && w.finalizer && !w.gone && notBefore % SECOND == 0
      modifies this
      ensures Inv(w) && after == old(after)
      ensures old(Calm()) && At(old(w), n, id) && snap == old(w).secret ==>
                Calm() && ok && w == PutSecret(RefreshSecret(old(w), n, why), Version(n, old(w).nextPassword, id, notBefore))
    {
      var p;
      ok, p := Mint(n, id, why);
      if !ok {
        return false;
      }
      ok := WriteSecret(snap, Version(n, p, id, notBefore));
    }

    method RemoveIfUnwanted(n: string, listed: map<string, Robot>, keep: Option<nat>, ghost start: World, ghost todo: set<string>) returns (ok: bool)
      requires Inv(w) && Fresh(start) && Removing(start, w, listed, keep, todo) && n in todo
      modifies this
      ensures Inv(w) && Removing(start, w, listed, keep, if ok then todo - {n} else todo) && after == old(after)
      ensures old(Calm()) && OnlyRemoves(start, old(w), keep) ==> Calm() && ok && OnlyRemoves(start, w, keep)
    {
      if !Unwanted(listed[n], keep) {
        NotUnwanted(start, w, listed, keep, todo, n);
        return true;
      }
      ok := RemoveRobot(n, listed[n].id);
      StillRemoving(start, old(w), w, listed, keep, todo);
      if ok { RemovedOne(start, w, listed, keep, todo, n); }
      if old(Calm()) && OnlyRemoves(start, old(w), keep) { OnlyOneMore(start, old(w), keep, n); }
    }

    method RemoveListed(listed: map<string, Robot>, keep: Option<nat>) returns (ok: bool)
      requires Inv(w) && listed == w.robots
      modifies this
      ensures Inv(w) && Rely(old(w), w) && after == old(after)
      ensures ok ==> OnlyMine(w, keep)
      ensures old(Calm()) ==> Calm() && ok && OnlyRemoves(old(w), w, keep)
    {
      var todo := listed.Keys;
      while todo != {}
        invariant Inv(w) && after == old(after) && Removing(old(w), w, listed, keep, todo)
        invariant old(Calm()) ==> Calm() && OnlyRemoves(old(w), w, keep)
      {
        var n :| n in todo;
        var removed := RemoveIfUnwanted(n, listed, keep, old(w), todo);
        if !removed {
          return false;
        }
        todo := todo - {n};
      }
      NoneLeft(old(w), w, listed, keep);
      return true;
    }

    /** Deletes every robot of this HarborAccess but the one kept. */
    method RemoveOwned(keep: Option<nat>) returns (ok: bool)
      requires Inv(w)
      modifies this
      ensures Inv(w) && Rely(old(w), w) && after == old(after)
      ensures ok ==> OnlyMine(w, keep)
      ensures old(Calm()) ==> Calm() && ok && OnlyRemoves(old(w), w, keep)
    {
      var o := Await();
      if o != Works {
        return false;
      }
      ghost var mid := w;
      ok := RemoveListed(w.robots, keep);
      RelyTrans(old(w), mid, w);
    }

    /** Deletes the Secret if it is the bridge's. */
    method RemoveOwnSecret() returns (ok: bool)
      requires Inv(w)
      modifies this
      ensures Inv(w) && Rely(old(w), w) && after == old(after)
      ensures ok ==> !HasMine(w)
      ensures old(Calm()) ==> Calm() && ok && w == if HasMine(old(w)) then DeleteSecret(old(w)) else old(w)
    {
      var read, snap := GetSecret();
      if !read {
        return false;
      }
      if snap.None? || !snap.value.mine {
        return true;
      }
      ghost var mid := w;
      ok := RemoveSecret(snap.value);
      RelyTrans(old(w), mid, w);
    }

    /** The password of the robot a pass works on: the one it came with, a new one for a
        suspended robot, or a new one when there is a reason. */
    method ServePassword(n: string, robot: Robot, created: bool, snap: Option<Secret>, grants: Grants) returns (ok: bool)
      requires Inv(w) && Known(w, n, robot.id) && ReadSecret(w, snap) && w.finalizer && !w.gone
      requires snap.Some? ==> snap.value.mine
      requires created ==> Pending(w, n, robot.id, robot.password)
      requires if robot.disabled then Off(w, n, robot.id) else Alive(w, n, robot.id)
      modifies this
      ensures Inv(w) && after == old(after)
      ensures old(Calm()) && n in old(w).robots && old(w).robots[n] == robot && snap == old(w).secret && (created ==> Fits(robot, grants)) ==>
                Calm() && ok && Served(w, n, grants) && w.finalizer && !w.gone && w.robots[n].id == robot.id
    {
      var now := w.now;
      if created {
        ok := WriteSecret(snap, Version(n, robot.password, robot.id, Rendered(now + INTERVAL)));
      } else if robot.disabled && robot.token {
        ok := ResumeAndStore(n, robot, snap, grants, Rendered(now + INTERVAL));
      } else {
        ok := ConvergeAndRotate(n, robot, snap, grants, now);
      }
    }

    method ResumeAndStore(n: string, robot: Robot, snap: Option<Secret>, grants: Grants, notBefore: int) returns (ok: bool)
      requires Inv(w) && Known(w, n, robot.id) && Off(w, n, robot.id) && ReadSecret(w, snap) && w.finalizer && !w.gone
      requires snap.Some? ==> snap.value.mine
      requires notBefore % SECOND == 0
      modifies this
      ensures Inv(w) && after == old(after)
      ensures old(Calm()) && At(old(w), n, robot.id) && snap == old(w).secret && !Due(notBefore, old(w).now) ==>
                Calm() && ok && Served(w, n, grants) && w.finalizer && !w.gone && w.robots[n].id == robot.id
    {
      var p;
      ok, p := Resume(n, robot, snap, grants);
      if ok {
        ok := WriteSecret(None, Version(n, p, robot.id, notBefore));
      }
    }

    method ConvergeAndRotate(n: string, robot: Robot, snap: Option<Secret>, grants: Grants, now: int) returns (ok: bool)
      requires Inv(w) && Known(w, n, robot.id) && ReadSecret(w, snap) && w.finalizer && !w.gone && now <= w.now
      requires snap.Some? ==> snap.value.mine
      requires robot.disabled || Alive(w, n, robot.id)
      modifies this
      ensures Inv(w) && after == old(after)
      ensures old(Calm()) && n in old(w).robots && old(w).robots[n] == robot && snap == old(w).secret && now == old(w).now ==>
                Calm() && ok && Served(w, n, grants) && w.finalizer && !w.gone && w.robots[n].id == robot.id
    {
      ok := Converge(n, robot, grants, snap);
      if ok {
        ghost var mid := w;
        ok := Rotate(n, robot.id, snap, now);
        if old(Calm()) && n in old(w).robots && old(w).robots[n] == robot && snap == old(w).secret && now == old(w).now {
          RotatedServes(mid, n, grants);
        }
      }
    }

    /** A pass over a HarborAccess that is served: the Secret is read, the finalizer added, the
        robot found or made, its password served, and other robots removed when something changed. */
    method ReconcileNormal(n: string, grants: Grants, had: bool, changed: bool) returns (ok: bool)
      requires Inv(w) && (had ==> w.finalizer && !w.gone)
      modifies this
      ensures Inv(w) && after == old(after)
      ensures old(Calm()) && Servable(old(w), n) ==>
                Served(w, n, grants) && w.finalizer && !w.gone && (changed ==> OnlyMine(w, Some(w.robots[n].id)))
    {
      var read, snap := GetSecret();
      if !read || (snap.Some? && !snap.value.mine) {
        return false;
      }
      var added := EnsureFinalizer(had, snap);
      if !added {
        return false;
      }
      var id, created, disabled;
      ok, id, created, disabled := ServeRobot(n, grants, snap);
      if !ok {
        return false;
      }
      if created || changed {
        var cleaned := CleanUp(n, id, grants);
        if !cleaned {
          return false;
        }
      }
      return !disabled;
    }

    method ServeRobot(n: string, grants: Grants, snap: Option<Secret>) returns (ok: bool, id: nat, created: bool, disabled: bool)
      requires Inv(w) && w.finalizer && !w.gone && ReadSecret(w, snap)
      requires snap.Some? ==> snap.value.mine
      modifies this
      ensures Inv(w) && after == old(after)
      ensures old(Calm()) && snap == old(w).secret && (n in old(w).robots ==> Adoptable(old(w).robots[n])) ==>
                Calm() && ok && Served(w, n, grants) && w.finalizer && !w.gone && w.robots[n].id == id
    {
      var found;
      found, created := EnsureRobot(n, grants, snap);
      if found.None? {
        return false, 0, false, false;
      }
      ok := ServePassword(n, found.value, created, snap, grants);
      id, disabled := found.value.id, found.value.disabled && !found.value.token;
    }

    method CleanUp(n: string, id: nat, ghost grants: Grants) returns (ok: bool)
      requires Inv(w)
      modifies this
      ensures Inv(w) && after == old(after)
      ensures old(Calm()) && Served(old(w), n, grants) && old(w).robots[n].id == id ==>
                Calm() && ok && Served(w, n, grants) && w.robots[n].id == id && OnlyMine(w, Some(id))
                && w.finalizer == old(w).finalizer && w.gone == old(w).gone
    {
      ok := RemoveOwned(Some(id));
      if old(Calm()) && Served(old(w), n, grants) && old(w).robots[n].id == id { StillServed(old(w), w, n, grants); }
    }

    // ---- Refusing -----------------------------------------------------------------------------

    /** Disables the robot at n if it is this HarborAccess's, or deletes it when its grants
        cannot be sent back. */
    method SuspendRobotAt(n: string) returns (ok: bool, kept: bool)
      requires Inv(w) && w.finalizer && !w.gone
      modifies this
      ensures Inv(w) && w.finalizer && !w.gone && after == old(after) && (HasMine(w) ==> HasMine(old(w)))
      ensures old(Calm()) ==> Calm() && ok && Suspended(w, n) && w.deleting == old(w).deleting
    {
      kept := false;
      var found;
      ok, found := LookUp(n);
      if !ok || found.None? || found.value.described != Mine {
        return;
      }
      var robot := found.value;
      if robot.disabled {
        return true, true;
      }
      if !robot.grants.writable {
        ok := RemoveRobot(n, robot.id);
        return;
      }
      ok, kept := DisableRobot(n, robot);
    }

    /** Sends the robot back as it is, but disabled and with the token. */
    method DisableRobot(n: string, robot: Robot) returns (ok: bool, kept: bool)
      requires Inv(w) && w.finalizer && !w.gone
      modifies this
      ensures Inv(w) && w.finalizer && !w.gone && after == old(after) && (HasMine(w) ==> HasMine(old(w)))
      ensures old(Calm()) && At(old(w), n, robot.id) ==> Calm() && ok && w == SuspendRobot(old(w), n, robot.grants)
    {
      var o := Await();
      if o == Fails || !At(w, n, robot.id) {
        return false, false;
      }
      SuspendKeeps(w, n, robot.grants);
      w := SuspendRobot(w, n, robot.grants);
      return o == Works, true;
    }

    /** Takes away what a refused HarborAccess has: the Secret first, then the robot. */
    method Suspend(want: Option<string>, had: bool) returns (ok: bool, releasable: bool)
      requires Inv(w) && (had ==> w.finalizer && !w.gone)
      modifies this
      ensures Inv(w) && after == old(after) && (releasable ==> ok && had)
      ensures had ==> w.finalizer && !w.gone
      ensures old(Calm()) ==> Calm() && ok && !HasMine(w) && w.deleting == old(w).deleting && (had && want.Some? ==> Suspended(w, want.value))
    {
      var gone := RemoveOwnSecret();
      if !had {
        return gone, false;
      }
      if want.None? {
        return gone, gone;
      }
      var kept;
      ok, kept := SuspendRobotAt(want.value);
      return ok && gone, ok && gone && !kept;
    }

    /** Drops the finalizer once Harbor lists no robot of this HarborAccess. */
    method ReleaseRefused(statusOurs: bool) returns (ok: bool)
      requires Inv(w)
      modifies this
      ensures Inv(w) && after == old(after)
      ensures old(w).finalizer && !w.finalizer ==> OnlyMine(w, None)
      ensures old(Calm()) ==> Calm() && ok && w == if statusOurs && NoneOfMine(old(w).robots) then RemoveFinalizer(old(w)) else old(w)
    {
      if !statusOurs {
        return true;
      }
      var o := Await();
      if o != Works || !NoneOfMine(w.robots) {
        return o == Works;
      }
      ok := DropFinalizer();
    }

    /** Removes the finalizer, with no robot of this HarborAccess left. */
    method DropFinalizer() returns (ok: bool)
      requires Inv(w) && OnlyMine(w, None)
      modifies this
      ensures Inv(w) && OnlyMine(w, None) && after == old(after)
      ensures HasMine(w) ==> HasMine(old(w))
      ensures old(Calm()) ==> Calm() && ok && w == RemoveFinalizer(old(w))
    {
      var o := Await();
      OnlyMineStays(old(w), w, None);
      if o != Fails {
        FinalizerRemoval(old(w), w);
        w := RemoveFinalizer(w);
      }
      return o == Works;
    }

    /** A pass over a HarborAccess that is refused. */
    method Refuse(want: Option<string>, statusOurs: bool, had: bool) returns (ok: bool)
      requires Inv(w) && (had ==> w.finalizer && !w.gone)
      modifies this
      ensures Inv(w) && after == old(after)
      ensures had && !w.finalizer ==> OnlyMine(w, None)
      ensures old(Calm()) ==> Calm() && ok && !HasMine(w) && (had && want.Some? ==> Suspended(w, want.value))
    {
      var releasable;
      ok, releasable := Suspend(want, had);
      if ok && releasable {
        ok := ReleaseRefused(statusOurs);
      }
    }

    // ---- Deleting -----------------------------------------------------------------------------

    /** A pass over a HarborAccess that is being deleted: every robot of it, then the Secret,
        then the finalizer. */
    method ReconcileDelete(had: bool) returns (ok: bool)
      requires Inv(w) && (had ==> w.finalizer)
      modifies this
      ensures Inv(w) && after == old(after)
      ensures had && !w.finalizer ==> OnlyMine(w, None)
      ensures old(Calm()) && had ==> Calm() && ok && !w.finalizer && !HasMine(w) && (old(w).deleting ==> w.gone)
    {
      if !had {
        return true;
      }
      var cleaned := RemoveOwned(None);
      if !cleaned {
        return false;
      }
      ghost var bare := w;
      var removed := RemoveOwnSecret();
      OnlyMineStays(bare, w, None);
      if !removed {
        return false;
      }
      ok := DropFinalizer();
    }

    // ---- Passes ---------------------------------------------------------------------------------

    /** One pass: what it does is decided by the object as it reads it. */
    method Reconcile(changed: bool) returns (ok: bool)
      requires Inv(w)
      modifies this
      ensures Inv(w)
      ensures old(Calm()) && !old(w).gone && old(w).deleting ==> w.finalizer ==> !old(w).finalizer
      ensures old(Calm()) && !old(w).gone && !old(w).deleting ==>
                var spec := old(w).spec;
                if !spec.accepted || spec.want.None? then !HasMine(w)
                else Servable(old(w), spec.want.value) ==> Served(w, spec.want.value, spec.grants)
    {
      var o := Await();
      if o != Works || w.gone {
        return o == Works;
      }
      var spec, had := w.spec, w.finalizer;
      if w.deleting {
        ok := ReconcileDelete(had);
      } else if spec.accepted && spec.want.Some? {
        ok := ReconcileNormal(spec.want.value, spec.grants, had, changed);
      } else {
        ok := Refuse(spec.want, spec.statusOurs, had);
      }
    }

    /** Any number of passes, each with any script: interrupted, failing or calm. */
    method Run(passes: seq<(seq<Turn>, Outcome, bool)>)
      requires Inv(w)
      modifies this
      ensures Inv(w) && NoReasonMeansCurrent(w) && ReleasedMeansRevoked(w) && PromiseNeverMoves(w)
    {
      for k := 0 to |passes|
        invariant Inv(w)
      {
        script, after := passes[k].0, passes[k].1;
        var _ := Reconcile(passes[k].2);
      }
    }
  }

  /** What stays while a robot gets a new password. */
  ghost predicate Minting(a: World, b: World, n: string, id: nat) {
    && b.finalizer && !b.gone && a.now <= b.now && (HasMine(b) ==> HasMine(a))
    && (Off(a, n, id) ==> Off(b, n, id))
  }

  lemma MintingStays(a: World, b: World, n: string, id: nat)
    requires Rely(a, b) && a.finalizer && !a.gone && Known(a, n, id)
    ensures Minting(a, b, n, id)
  {
    KnownStays(a, b, n, id);
  }

  lemma Minted(a: World, b: World, n: string, id: nat, why: Option<Reason>)
    requires Inv(b) && Rely(a, b) && Known(a, n, id) && Replaceable(a, n, id, why) && Minting(a, b, n, id) && At(b, n, id)
    ensures var v := RefreshSecret(b, n, why);
            Inv(v) && Minting(a, v, n, id) && Pending(v, n, id, b.nextPassword) && Alive(v, n, id)
  {
    MintKeeps(a, b, n, id, why);
  }

  /** What a pass knows while it sends a robot: the robot, a password that is not stored yet, if
      there is one, the Secret as it was read, and that enabling the robot is safe. */
  ghost predicate WorksOn(w: World, n: string, id: nat, disabled: bool, p: Option<nat>, snap: Option<Secret>) {
    && Known(w, n, id) && (disabled || Alive(w, n, id))
    && (p.Some? ==> Pending(w, n, id, p.value)) && ReadSecret(w, snap)
  }

  lemma WorkStays(a: World, b: World, n: string, id: nat, disabled: bool, p: Option<nat>, snap: Option<Secret>)
    requires Rely(a, b) && Fresh(a) && WorksOn(a, n, id, disabled, p, snap)
    ensures WorksOn(b, n, id, disabled, p, snap)
  {
    KnownStays(a, b, n, id);
    ReadStays(a, b, snap);
    if p.Some? { PendingStays(a, b, n, id, p.value); }
  }

  lemma WorkUpdated(w: World, n: string, id: nat, disabled: bool, grants: Grants, p: Option<nat>, snap: Option<Secret>)
    requires Inv(w) && w.finalizer && !w.gone && At(w, n, id) && WorksOn(w, n, id, disabled, p, snap)
    ensures var v := UpdateRobot(w, n, disabled, grants); Inv(v) && WorksOn(v, n, id, disabled, p, snap)
  {
    UpdateKeeps(w, n, disabled, grants);
    UpdateReads(w, n, disabled, grants, snap);
    UpdateFacts(w, n, disabled, grants, id, if p.Some? then p.value else 0);
  }

  predicate NoneOfMine(robots: map<string, Robot>) { forall n :: n in robots ==> robots[n].described != Mine }

  /** The robot at n, if it is this HarborAccess's, is disabled. */
  predicate Suspended(w: World, n: string) {
    n in w.robots && w.robots[n].described == Mine ==> w.robots[n].disabled
  }

  /** Nobody else's Secret or robot is in the way. */
  predicate Servable(w: World, n: string) {
    !w.deleting && !w.gone && (w.secret.Some? ==> w.secret.value.mine) && (n in w.robots ==> Adoptable(w.robots[n]))
  }

  predicate Fits(r: Robot, grants: Grants) { r.described == Mine && !r.token && r.grants == grants }

  /** The robot of the spec has its grants, and the Secret holds its password under a promise
      that is not over. */
  predicate Served(w: World, n: string, grants: Grants) {
    && n in w.robots && Fits(w.robots[n], grants) && HasMine(w)
    && var s := w.secret.value;
    s.username == n && s.robotId == w.robots[n].id && s.password == w.robots[n].password && !Due(s.notBefore, w.now)
  }

  lemma RotatedServes(w: World, n: string, grants: Grants)
    requires Inv(w) && n in w.robots && Fits(w.robots[n], grants) && (w.secret.Some? ==> w.secret.value.mine)
    ensures Served(Rotated(w, n), n, grants)
  {
  }

  lemma StillServed(a: World, b: World, n: string, grants: Grants)
    requires Served(a, n, grants) && OnlyRemoves(a, b, Some(a.robots[n].id))
    ensures Served(b, n, grants) && b.robots[n].id == a.robots[n].id
  {
  }

  predicate Unwanted(r: Robot, keep: Option<nat>) { r.described == Mine && keep != Some(r.id) }

  /** Only unwanted robots go. */
  ghost predicate OnlyRemoves(a: World, b: World, keep: Option<nat>) {
    b == a.(robots := b.robots) && forall n :: n in a.robots && !Unwanted(a.robots[n], keep) ==> n in b.robots && b.robots[n] == a.robots[n]
  }

  /** The unwanted robots that are no longer to do are gone. */
  ghost predicate Removing(start: World, w: World, listed: map<string, Robot>, keep: Option<nat>, todo: set<string>) {
    && Rely(start, w) && listed == start.robots && todo <= listed.Keys
    && forall n :: n in listed && n !in todo && Unwanted(listed[n], keep) ==> !At(w, n, listed[n].id)
  }

  lemma StillRemoving(start: World, mid: World, w: World, listed: map<string, Robot>, keep: Option<nat>, todo: set<string>)
    requires Fresh(start) && Removing(start, mid, listed, keep, todo) && Rely(mid, w)
    ensures Removing(start, w, listed, keep, todo)
  {
    RelyTrans(start, mid, w);
    forall n | n in listed && n !in todo && Unwanted(listed[n], keep) ensures !At(w, n, listed[n].id) {
      assert listed[n].id < start.nextId <= mid.nextId;
      GoneStays(mid, w, n, listed[n].id);
    }
  }

  lemma RemovedOne(start: World, w: World, listed: map<string, Robot>, keep: Option<nat>, todo: set<string>, n: string)
    requires Removing(start, w, listed, keep, todo) && n in todo && !At(w, n, listed[n].id)
    ensures Removing(start, w, listed, keep, todo - {n})
  {
  }

  lemma NotUnwanted(start: World, w: World, listed: map<string, Robot>, keep: Option<nat>, todo: set<string>, n: string)
    requires Removing(start, w, listed, keep, todo) && n in todo && !Unwanted(listed[n], keep)
    ensures Removing(start, w, listed, keep, todo - {n})
  {
  }

  lemma OnlyOneMore(start: World, w: World, keep: Option<nat>, n: string)
    requires OnlyRemoves(start, w, keep) && n in start.robots && Unwanted(start.robots[n], keep)
    ensures OnlyRemoves(start, if At(w, n, start.robots[n].id) then DeleteRobot(w, n) else w, keep)
  {
  }

  /** Whatever was listed is gone, and nobody else makes robots of this HarborAccess. */
  lemma NoneLeft(start: World, w: World, listed: map<string, Robot>, keep: Option<nat>)
    requires Removing(start, w, listed, keep, {})
    ensures OnlyMine(w, keep)
  {
  }

  /** What a calm rotation leaves. */
  ghost function Rotated(w: World, n: string): World
    requires n in w.robots
  {
    var id := w.robots[n].id;
    var why := RotationReason(w.secret, n, id, w.now);
    if why.None? then w
    else PutSecret(RefreshSecret(w, n, why), Version(n, w.nextPassword, id, Rendered(w.now + INTERVAL)))
  }

  /** What a calm resumption leaves: no Secret, and an enabled robot with a new password. */
  ghost function Resumed(w: World, n: string, grants: Grants): World
    requires n in w.robots
  {
    UpdateRobot(RefreshSecret(DeleteSecret(w), n, None), n, false, grants)
  }

  /** The Secret is as it was read: still absent, or the same version. */
  predicate SameVersion(a: Option<Secret>, b: Option<Secret>) {
    a.None? == b.None? && (a.Some? ==> a.value.version == b.value.version)
  }

  datatype Stored = Done | Raced | NotStored

  /** A robot of this cluster that names this HarborAccess or none. */
  predicate Adoptable(r: Robot) { r.described == Mine || r.described == ClusterOnly }

  datatype Made = Created(robot: Robot) | Exists | NotMade
}

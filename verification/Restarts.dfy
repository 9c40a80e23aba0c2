/** When a pass restarts kubelet, and what it records (installer/state.go, installer/run.go:
    finishWithRestart, rejectRestart, refuseRejected). */
module Restarts {
  import opened Text

  const PATCH := "patch"
  const DEFAULT_ENV_FILE := "/etc/default/kubelet"

  /** What a pass wants kubelet to run with. */
  datatype Target = Target(mode: string, binDir: string, configFile: string, envFile: string, entryHash: string, fileHash: string) {
    /** Hashes are never empty, and patch mode edits some environment file. */
    predicate Valid() { entryHash != "" && (mode == PATCH ==> envFile != "") }

    function Saved(): State { State(mode, binDir, configFile, envFile, fileHash, entryHash, None) }

    function Rejected(unit: string, kubelet: string): Rejection {
      Rejection(mode, binDir, configFile, envFile, unit, entryHash, fileHash, kubelet)
    }
  }

  /** Content kubelet did not come up with. */
  datatype Rejection = Rejection(mode: string, binDir: string, configFile: string, envFile: string,
                                 unit: string, entryHash: string, appliedHash: string, kubelet: string) {
    predicate TestedBy(now: string) { kubelet == "" || now == "" || kubelet == now }
  }

  /** The state file. */
  datatype State = State(mode: string, binDir: string, configFile: string, envFile: string,
                         appliedHash: string, entryHash: string, rejected: Option<Rejection>) {
    function EnvFile(): string { if envFile == "" && mode == PATCH then DEFAULT_ENV_FILE else envFile }

    predicate SamePaths(t: Target) {
      mode == t.mode && binDir == t.binDir && configFile == t.configFile && EnvFile() == t.envFile
    }

    predicate Matches(t: Target) { SamePaths(t) && entryHash != "" && entryHash == t.entryHash }

    /** A record of an installer that did not know entry hashes. */
    predicate MatchesLegacy(t: Target) { SamePaths(t) && entryHash == "" && appliedHash == t.fileHash }

    predicate Rejects(t: Target, unit: string) {
      && rejected.Some?
      && var r := rejected.value;
      && r.mode == t.mode && r.binDir == t.binDir && r.configFile == t.configFile && r.envFile == t.envFile
      && r.unit == unit && r.entryHash == t.entryHash && r.appliedHash == t.fileHash
    }
  }

  const NO_STATE := State("", "", "", "", "", "", None)

  /** The node, as far as one target is concerned: the state file, whether the files kubelet
      reads hold the target's content, and how often kubelet was restarted onto it. */
  datatype Site = Site(saved: Option<State>, onDisk: bool, restarts: nat)

  predicate MatchesNow(s: Site, t: Target) { s.saved.Some? && s.saved.value.Matches(t) }

  /** A pass that wants what kubelet already rejected, as far as anyone can tell, is refused. */
  predicate Refuses(s: Site, t: Target, unit: string, kubelet: string) {
    && s.saved.Some? && s.saved.value.Rejects(t, unit)
    && (s.saved.value.rejected.value.kubelet != "" ==> s.saved.value.rejected.value.TestedBy(kubelet))
  }

  /** What happens to a pass: it gives up before writing; it dies while writing; the state
      directory cannot be written; it dies after the restart; or kubelet comes up or does not.
      `undone` says that the rollback put back some of what the pass changed, `saves` that the
      outcome was recorded. */
  datatype Fate =
    | GivesUp
    | DiesWriting(complete: bool)
    | NoStateDir(undone: bool)
    | DiesRestarted
    | Healthy(saves: bool)
    | Unhealthy(undone: bool, saves: bool)

  /** A pass's result: the node, whether it succeeded, and whether it restarted kubelet
      without recording the outcome. */
  datatype Result = Result(site: Site, ok: bool, unrecorded: bool)

  function Keep(s: Site, ok: bool): Result { Result(s, ok, false) }

  function Finish(s: Site, t: Target, unit: string, kubelet: string, changed: bool, fate: Fate): Result {
    if !changed && MatchesNow(s, t) then Keep(s, true)
    else if !changed && s.saved.Some? && s.saved.value.MatchesLegacy(t) then
      if fate == Healthy(true) then Keep(s.(saved := Some(t.Saved())), true) else Keep(s, false)
    else
      match fate
      case NoStateDir(undone) => Keep(if changed && undone then s.(onDisk := false) else s, false)
      case DiesRestarted => Result(s.(restarts := s.restarts + 1), false, true)
      case Healthy(saves) =>
        var after := s.(restarts := s.restarts + 1);
        if saves then Keep(after.(saved := Some(t.Saved())), true) else Result(after, false, true)
      case Unhealthy(undone, saves) =>
        Reject(s.(restarts := s.restarts + 1), t, unit, kubelet, changed, undone, saves)
      case _ => Keep(s, false)
  }

  /** A restart that did not verify: what this pass changed is put back, kubelet is restarted
      onto that, and the content is recorded as rejected. */
  function Reject(s: Site, t: Target, unit: string, kubelet: string, changed: bool, undone: bool, saves: bool): Result {
    var back := if changed && undone then s.(onDisk := false)
                else if changed then s.(restarts := s.restarts + 1)
                else s;
    var record := (if s.saved.Some? then s.saved.value else NO_STATE).(rejected := Some(t.Rejected(unit, kubelet)));
    if saves then Keep(back.(saved := Some(record)), false) else Result(back, false, true)
  }

  function RunPass(s: Site, t: Target, unit: string, kubelet: string, fate: Fate): Result {
    if fate.GivesUp? || Refuses(s, t, unit, kubelet) then Keep(s, false)
    else if fate.DiesWriting? then Keep(s.(onDisk := s.onDisk || fate.complete), false)
    else Finish(s.(onDisk := true), t, unit, kubelet, !s.onDisk, fate)
  }

  // ---- What the state file tells ------------------------------------------------------------

  /** A recorded restart covers exactly the passes with its mode, paths and entry; what other
      installs changed in the shared file does not matter. */
  lemma SavedMatches(u: Target, t: Target)
    requires u.Valid() && t.Valid()
    ensures u.Saved().Matches(t) <==> u.(fileHash := t.fileHash) == t
    ensures !u.Saved().MatchesLegacy(t)
  {
  }

  /** A recorded rejection covers exactly its content, restarted through its unit; another
      kubelet may try it again, as far as both are known. */
  lemma RejectionIsExact(s: Site, u: Target, t: Target, unit: string, other: string, kubelet: string, now: string)
    requires s.saved.Some? && s.saved.value.rejected == Some(u.Rejected(unit, kubelet))
    ensures Refuses(s, t, other, now) <==> u == t && unit == other && (kubelet == "" || now == "" || kubelet == now)
  {
  }

  // ---- A pass that succeeds ------------------------------------------------------------------

  /** Success is recorded: the state file then matches the target, and the files hold it. */
  lemma SuccessMatches(s: Site, t: Target, unit: string, kubelet: string, fate: Fate)
    requires t.Valid() && RunPass(s, t, unit, kubelet, fate).ok
    ensures var after := RunPass(s, t, unit, kubelet, fate).site; MatchesNow(after, t) && after.onDisk
  {
  }

  /** Success without a restart needs a record of a verified restart for this content. */
  lemma NoRestartNeedsRecord(s: Site, t: Target, unit: string, kubelet: string, fate: Fate)
    requires var r := RunPass(s, t, unit, kubelet, fate); r.ok && r.site.restarts == s.restarts
    ensures s.onDisk && s.saved.Some? && (s.saved.value.Matches(t) || s.saved.value.MatchesLegacy(t))
  {
  }

  // ---- Runs ------------------------------------------------------------------------------------

  /** Nothing restarts kubelet onto the target any more: it runs, and that is recorded, or it
      was rejected, and that is recorded. */
  predicate Decided(s: Site, t: Target, unit: string, kubelet: string) {
    Refuses(s, t, unit, kubelet) || (s.onDisk && MatchesNow(s, t))
  }

  lemma DecidedStays(s: Site, t: Target, unit: string, kubelet: string, fate: Fate)
    requires Decided(s, t, unit, kubelet)
    ensures var r := RunPass(s, t, unit, kubelet, fate);
            Decided(r.site, t, unit, kubelet) && r.site.restarts == s.restarts && !r.unrecorded
  {
  }

  /** A pass that changes the files, whose content kubelet then rejects, and whose rollback puts
      nothing back. Whether the files hold the content and whether it is refused is known before
      the pass. */
  predicate StuckRollback(s: Site, t: Target, unit: string, kubelet: string, fate: Fate) {
    !Refuses(s, t, unit, kubelet) && !s.onDisk && fate.Unhealthy? && !fate.undone
  }

  /** A pass that restarts kubelet onto the target and records how that went. */
  predicate RecordedRestart(s: Site, t: Target, unit: string, kubelet: string, fate: Fate) {
    var r := RunPass(s, t, unit, kubelet, fate); r.site.restarts > s.restarts && !r.unrecorded
  }

  /** A pass restarts kubelet onto the target twice exactly when its rollback is stuck, and
      otherwise once or not at all. With the outcome recorded the matter is decided. Content
      that is in the files stays there. */
  lemma PassRestarts(s: Site, t: Target, unit: string, kubelet: string, fate: Fate)
    requires t.Valid()
    ensures var r := RunPass(s, t, unit, kubelet, fate);
            var stuck, recorded := StuckRollback(s, t, unit, kubelet, fate), RecordedRestart(s, t, unit, kubelet, fate);
            && (r.site.restarts == s.restarts + 2 <==> stuck)
            && r.site.restarts == s.restarts + One(r.unrecorded) + One(recorded) + One(stuck)
            && (recorded ==> Decided(r.site, t, unit, kubelet))
            && (s.onDisk || stuck ==> r.site.onDisk)
  {
  }

  function One(b: bool): nat { if b then 1 else 0 }

  function Run(s: Site, t: Target, unit: string, kubelet: string, fates: seq<Fate>): Site {
    if fates == [] then s
    else RunPass(Run(s, t, unit, kubelet, fates[..|fates| - 1]), t, unit, kubelet, fates[|fates| - 1]).site
  }

  /** What the passes of a run were: those that restarted kubelet and ended before recording the
      outcome, those that restarted it and recorded the outcome, and the stuck rollbacks. */
  datatype Tally = Tally(unrecorded: nat, recorded: nat, stuck: nat) {
    function Sum(): nat { unrecorded + recorded + stuck }
  }

  function Count(s: Site, t: Target, unit: string, kubelet: string, fates: seq<Fate>): Tally {
    if fates == [] then Tally(0, 0, 0)
    else
      var front, fate := fates[..|fates| - 1], fates[|fates| - 1];
      var mid, before := Run(s, t, unit, kubelet, front), Count(s, t, unit, kubelet, front);
      Tally(before.unrecorded + One(RunPass(mid, t, unit, kubelet, fate).unrecorded),
            before.recorded + One(RecordedRestart(mid, t, unit, kubelet, fate)),
            before.stuck + One(StuckRollback(mid, t, unit, kubelet, fate)))
  }

  /** Over any run of passes with one target, unit and kubelet, from any state file and any
      files: the restarts onto the content are those of unrecorded passes, of recorded ones and
      the second ones of stuck rollbacks. Of the last two kinds there is at most one each, and
      no stuck rollback where the files held the content to begin with. */
  lemma {:induction false} RestartsAreCounted(s: Site, t: Target, unit: string, kubelet: string, fates: seq<Fate>)
    requires t.Valid()
    ensures var after, n := Run(s, t, unit, kubelet, fates), Count(s, t, unit, kubelet, fates);
            && after.restarts == s.restarts + n.Sum()
            && n.recorded <= 1 && (n.recorded == 1 ==> Decided(after, t, unit, kubelet))
            && n.stuck <= One(!s.onDisk) && (s.onDisk || n.stuck == 1 ==> after.onDisk)
  {
    if fates != [] {
      var front, fate := fates[..|fates| - 1], fates[|fates| - 1];
      RestartsAreCounted(s, t, unit, kubelet, front);
      var mid := Run(s, t, unit, kubelet, front);
      PassRestarts(mid, t, unit, kubelet, fate);
      if Decided(mid, t, unit, kubelet) { DecidedStays(mid, t, unit, kubelet, fate); }
    }
  }

  /** Kubelet is restarted onto the content at most once, plus once for every pass that ended
      before recording its outcome, exactly in the runs that do not have both a stuck rollback
      and a recorded restart. In those it is one restart more. */
  lemma RestartsAreBounded(s: Site, t: Target, unit: string, kubelet: string, fates: seq<Fate>)
    requires t.Valid()
    ensures var after, n := Run(s, t, unit, kubelet, fates), Count(s, t, unit, kubelet, fates);
            && (after.restarts - s.restarts <= 1 + n.unrecorded <==> n.stuck == 0 || n.recorded == 0)
            && after.restarts - s.restarts <= 2 + n.unrecorded
            && (s.onDisk ==> after.restarts - s.restarts <= 1 + n.unrecorded)
  {
    RestartsAreCounted(s, t, unit, kubelet, fates);
  }

  /** A run that has both: a rollback that puts nothing back restarts kubelet a second time onto
      the content it rejected, in a pass that records it. */
  lemma StuckRollbackRestartsTwice(t: Target, unit: string, kubelet: string)
    requires t.Valid()
    ensures var s, fate := Site(None, false, 0), Unhealthy(false, true);
            && Run(s, t, unit, kubelet, [fate]).restarts == 2
            && Count(s, t, unit, kubelet, [fate]) == Tally(0, 1, 1)
  {
    var fate := Unhealthy(false, true);
    assert [fate][..0] == [];
  }

  // ---- The installer ---------------------------------------------------------------------------

  class Installer {
    var saved: Option<State>
    var onDisk: bool
    var restarts: nat

    function Now(): Site
      reads this
    {
      Site(saved, onDisk, restarts)
    }

    method RejectRestart(t: Target, unit: string, kubelet: string, changed: bool, undone: bool, saves: bool)
      requires onDisk
      modifies this
      ensures Now() == Reject(old(Now()), t, unit, kubelet, changed, undone, saves).site
    {
      var record := if saved.Some? then saved.value else NO_STATE;
      if changed {
        if undone {
          onDisk := false;
        }
        if onDisk {
          restarts := restarts + 1;
        }
      }
      if saves {
        saved := Some(record.(rejected := Some(t.Rejected(unit, kubelet))));
      }
    }

    method FinishWithRestart(t: Target, unit: string, kubelet: string, changed: bool, fate: Fate) returns (ok: bool)
      requires onDisk
      modifies this
      ensures Now() == Finish(old(Now()), t, unit, kubelet, changed, fate).site
      ensures ok == Finish(old(Now()), t, unit, kubelet, changed, fate).ok
    {
      if !changed {
        if saved.Some? && saved.value.Matches(t) {
          return true;
        }
        if saved.Some? && saved.value.MatchesLegacy(t) {
          if fate == Healthy(true) {
            saved := Some(t.Saved());
          }
          return fate == Healthy(true);
        }
      }
      if fate.GivesUp? || fate.DiesWriting? { return false; }
      if fate.NoStateDir? {
        if changed && fate.undone {
          onDisk := false;
        }
        return false;
      }
      restarts := restarts + 1;
      if fate.Unhealthy? {
        RejectRestart(t, unit, kubelet, changed, fate.undone, fate.saves);
        return false;
      }
      if fate == Healthy(true) {
        saved := Some(t.Saved());
      }
      return fate == Healthy(true);
    }

    method Pass(t: Target, unit: string, kubelet: string, fate: Fate) returns (ok: bool)
      modifies this
      ensures Now() == RunPass(old(Now()), t, unit, kubelet, fate).site
      ensures ok == RunPass(old(Now()), t, unit, kubelet, fate).ok
    {
      if fate.GivesUp? || Refuses(Now(), t, unit, kubelet) {
        return false;
      }
      if fate.DiesWriting? {
        onDisk := onDisk || fate.complete;
        return false;
      }
      var changed := !onDisk;
      onDisk := true;
      ok := FinishWithRestart(t, unit, kubelet, changed, fate);
    }
  }
}

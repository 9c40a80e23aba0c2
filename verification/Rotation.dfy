/** How old a password can get (bridge/controlplane/reconciler.go: rotationReason,
    rotationNotBefore, requeueAfter, resyncAfter). */
module Rotation {
  import opened Clock
  import opened RobotWorld

  const RESYNC: int := 3600 * SECOND

  /** The largest age: the interval, the margin, the rounding and the shortest wait. */
  const LIMIT: int := INTERVAL + MARGIN + 2 * SECOND

  /** An object's resync interval, less an offset of up to a tenth taken from a hash. */
  function ResyncAfter(hash: nat): int { RESYNC - hash % (RESYNC / 10 / SECOND) * SECOND }

  /** When the next pass is asked for. */
  function RequeueAfter(hash: nat, notBefore: int, now: int): int {
    var untilRotation := notBefore + MARGIN - now;
    var next := if untilRotation < ResyncAfter(hash) then untilRotation else ResyncAfter(hash);
    if next < SECOND then SECOND else next
  }

  /** The password in force: when it was minted, and its rendered promise. */
  datatype Held = Held(mintedAt: int, notBefore: int)

  function MintedAt(now: int): Held { Held(now, Rendered(now + INTERVAL)) }

  /** A pass at `now` whose calls succeed: it rotates when that is due, or for another reason. */
  function Pass(h: Held, now: int, forced: bool): Held {
    if forced || Due(h.notBefore, now) then MintedAt(now) else h
  }

  /** The password after the first k passes; the first one mints. */
  function After(times: seq<int>, forced: seq<bool>, k: nat): Held
    requires k < |times| == |forced|
  {
    if k == 0 then MintedAt(times[0]) else Pass(After(times, forced, k - 1), times[k], forced[k])
  }

  /** Every pass comes no later than the one before it asked for. */
  ghost predicate OnTime(hash: nat, times: seq<int>, forced: seq<bool>)
    requires |times| == |forced|
  {
    forall k :: 0 <= k < |times| - 1 ==>
      times[k] <= times[k + 1] <= times[k] + RequeueAfter(hash, After(times, forced, k).notBefore, times[k])
  }

  lemma ResyncBounds(hash: nat)
    ensures RESYNC - RESYNC / 10 < ResyncAfter(hash) <= RESYNC
  {
    var tenth := RESYNC / 10 / SECOND;
    assert tenth == 360;
    assert 0 <= hash % tenth < 360;
  }

  /** The next pass is asked for between a second and a resync interval from now, and not
      later than the rotation instant, unless that is less than a second away. */
  lemma RequeueBounds(hash: nat, notBefore: int, now: int)
    ensures var next := RequeueAfter(hash, notBefore, now);
            && SECOND <= next <= RESYNC
            && (now + next <= notBefore + MARGIN || next == SECOND)
  {
    ResyncBounds(hash);
  }

  /** Right after a pass, the promise of the password in force is the rendered one and its
      rotation is not due. */
  lemma {:induction false} PromiseStands(times: seq<int>, forced: seq<bool>, k: nat)
    requires k < |times| == |forced|
    ensures var h := After(times, forced, k);
            h.notBefore == Rendered(h.mintedAt + INTERVAL) && !Due(h.notBefore, times[k])
  {
    if k > 0 { PromiseStands(times, forced, k - 1); }
  }

  /** In every run of passes that come on time, the password in force is always younger than
      24 hours, a minute and two seconds when the next pass comes, and a pass that finds it
      due replaces it. */
  lemma PasswordsStayYoung(hash: nat, times: seq<int>, forced: seq<bool>, k: nat)
    requires |times| == |forced| && OnTime(hash, times, forced) && k + 1 < |times|
    ensures times[k + 1] - After(times, forced, k).mintedAt < LIMIT
    ensures Due(After(times, forced, k).notBefore, times[k + 1]) ==> After(times, forced, k + 1).mintedAt == times[k + 1]
  {
    var h := After(times, forced, k);
    PromiseStands(times, forced, k);
    RequeueBounds(hash, h.notBefore, times[k]);
  }

  /** The two seconds are real: a password minted just after a full second, and a pass just
      before its rotation is due, leave it in force for all but two nanoseconds of the limit. */
  lemma LimitIsReached(hash: nat)
    ensures var h := MintedAt(1);
            var last := h.notBefore + MARGIN - 1;
            && !Due(h.notBefore, last)
            && last + RequeueAfter(hash, h.notBefore, last) - h.mintedAt == LIMIT - 2
  {
    var h := MintedAt(1);
    assert h.notBefore == INTERVAL + SECOND;
    ResyncBounds(hash);
  }
}

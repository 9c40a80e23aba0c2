/** How long kubelet may keep a password (bridge/dataplane/handler.go, plugin/main.go). */
module DataPlane {
  import opened Clock
  import opened Text
  import opened RobotWorld

  const HOUR: int := 3600 * SECOND
  const MAX_CACHE: int := 24 * HOUR

  /** The cache time the data plane grants: the token's, within what is left of the promise. */
  function CacheDuration(tokenTtl: int, notBefore: Option<int>, now: int): int {
    var ttl := if tokenTtl <= 0 then HOUR else tokenTtl;
    if notBefore.None? then ttl
    else
      var remaining := notBefore.value - now;
      if remaining <= 0 then 0
      else if remaining < ttl then remaining - remaining % SECOND
      else ttl
  }

  /** On the wire it is whole seconds. */
  function WireSeconds(d: int): int
    requires d >= 0
  {
    d / SECOND
  }

  /** What the plugin tells kubelet. */
  function PluginDuration(secs: int): int {
    if secs > MAX_CACHE / SECOND then MAX_CACHE else if secs < 0 then 0 else secs * SECOND
  }

  /** The cache time ends within the promise, on the clock of the replica that answered, and is
      positive only before the promise ends. It is not needlessly short: less than a second
      below the promise, the token's time or the largest the plugin passes on. */
  lemma WithinPromise(tokenTtl: int, notBefore: int, now: int)
    ensures var c := CacheDuration(tokenTtl, Some(notBefore), now);
            && c >= 0
            && var kept := PluginDuration(WireSeconds(c));
            && 0 <= kept <= MAX_CACHE
            && (kept > 0 ==> now + kept <= notBefore)
            && (notBefore <= now ==> kept == 0)
            && (tokenTtl > 0 ==> kept <= tokenTtl)
            && (notBefore > now ==>
                  || kept == MAX_CACHE || kept + SECOND > notBefore - now
                  || kept + SECOND > (if tokenTtl > 0 then tokenTtl else HOUR))
  {
    var c := CacheDuration(tokenTtl, Some(notBefore), now);
    WholeSeconds(c);
  }

  lemma WholeSeconds(d: int)
    requires d >= 0
    ensures 0 <= PluginDuration(WireSeconds(d)) <= d && PluginDuration(WireSeconds(d)) <= MAX_CACHE
  {
    assert d / SECOND * SECOND <= d;
    if WireSeconds(d) > MAX_CACHE / SECOND { assert d >= MAX_CACHE; }
  }

  /** A request may read any version the Secret ever had. What it hands out with a positive
      cache time is not replaced by a scheduled rotation before that time ends, as long as the
      request's latency and the skew between the replicas' clocks stay within the margin.
      `served` is the real time of the answer; the answering replica's clock is ahead of real
      time by `skewServing`, the rotating one's by `skewRotating`. */
  lemma CacheEndsBeforeRotation(w: World, v: Version, k: nat, tokenTtl: int, served: int, latency: int, skewServing: int, skewRotating: int)
    requires Inv(w) && v in w.versions && k < |w.rotations|
    requires w.rotations[k].replaced == v.password && w.rotations[k].why == Some(Scheduled)
    requires latency + skewRotating - skewServing <= MARGIN
    ensures var cached := PluginDuration(WireSeconds(CacheDuration(tokenTtl, Some(v.notBefore), served + skewServing)));
            cached > 0 ==> served + latency + cached <= w.rotations[k].at - skewRotating
  {
    WithinPromise(tokenTtl, v.notBefore, served + skewServing);
  }
}

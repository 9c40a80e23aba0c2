/** The cache of the issuer's signing keys (bridge/dataplane/oidc_keyset.go). */
module KeySet {
  import opened Clock
  import opened Text

  const MIN_REFRESH: int := 30 * SECOND
  const MAX_AGE: int := 600 * SECOND

  type Keys = seq<string>

  /** A fetch that ended: when, and the keys it brought or its failure. */
  datatype Finish = Finish(at: int, result: Option<Keys>)

  /** The cache, the clock, and what happened so far: when fetches started and how they ended. */
  datatype Cache = Cache(
    keys: Keys, fetchedAt: Option<int>, doneAt: Option<int>, failed: bool, running: bool,
    now: int, starts: seq<int>, finishes: seq<Finish>)

  function Empty(now: int): Cache { Cache([], None, None, false, false, now, [], []) }

  predicate MayFetch(c: Cache) { !c.running && (c.doneAt.None? || c.now - c.doneAt.value >= MIN_REFRESH) }

  predicate Stale(c: Cache) { c.fetchedAt.None? || c.now - c.fetchedAt.value > MAX_AGE }

  function StartFetch(c: Cache): Cache { c.(running := true, starts := c.starts + [c.now]) }

  /** A step under the mutex: time passes, a verification looks at the cached keys or asks for
      fresh ones, or the running fetch ends. */
  datatype Event = Tick(d: nat) | LooksUp | Refreshes | Ends(result: Option<Keys>)

  function Next(c: Cache, e: Event): Cache {
    match e
    case Tick(d) => c.(now := c.now + d)
    case LooksUp => if Stale(c) && MayFetch(c) then StartFetch(c) else c
    case Refreshes => if MayFetch(c) then StartFetch(c) else c
    case Ends(result) =>
      if !c.running then c
      else
        var done := c.(doneAt := Some(c.now), failed := result.None?, running := false, finishes := c.finishes + [Finish(c.now, result)]);
        if result.Some? then done.(keys := result.value, fetchedAt := Some(c.now)) else done
  }

  function Run(c: Cache, events: seq<Event>): Cache {
    if events == [] then c else Next(Run(c, events[..|events| - 1]), events[|events| - 1])
  }

  // ---- What every interleaving keeps -------------------------------------------------------------

  /** The keys of the last fetch that succeeded. */
  function LastGood(finishes: seq<Finish>): Option<Keys> {
    if finishes == [] then None
    else
      var last := finishes[|finishes| - 1];
      if last.result.Some? then last.result else LastGood(finishes[..|finishes| - 1])
  }

  /** The cached keys and marks are those of the fetches that ended. */
  ghost predicate Remembers(c: Cache) {
    && c.keys == (if LastGood(c.finishes).Some? then LastGood(c.finishes).value else [])
    && (c.fetchedAt.Some? <==> LastGood(c.finishes).Some?)
    && (c.doneAt.Some? <==> c.finishes != []) && (c.finishes != [] ==> c.doneAt.value == c.finishes[|c.finishes| - 1].at)
    && (c.failed <==> c.finishes != [] && c.finishes[|c.finishes| - 1].result.None?)
  }

  ghost predicate Inv(c: Cache) {
    && Remembers(c)
    && |c.starts| == |c.finishes| + (if c.running then 1 else 0)
    && (forall i :: 0 <= i < |c.starts| ==> c.starts[i] <= c.now)
    && (forall i :: 0 <= i < |c.finishes| ==> c.starts[i] <= c.finishes[i].at <= c.now)
    && (forall i, j :: 0 <= i < |c.finishes| && 0 <= j < |c.starts| && j == i + 1 ==> c.finishes[i].at + MIN_REFRESH <= c.starts[j])
  }

  lemma EndKeeps(c: Cache, result: Option<Keys>)
    requires Inv(c) && c.running
    ensures Inv(Next(c, Ends(result)))
  {
    var finishes := c.finishes + [Finish(c.now, result)];
    assert finishes[..|finishes| - 1] == c.finishes;
    assert Remembers(Next(c, Ends(result)));
  }

  lemma StartKeeps(c: Cache)
    requires Inv(c) && MayFetch(c)
    ensures Inv(StartFetch(c))
  {
    assert Remembers(StartFetch(c));
  }

  lemma StepKeeps(c: Cache, e: Event)
    requires Inv(c)
    ensures Inv(Next(c, e))
  {
    match e
    case Tick(d) =>
    case LooksUp => if MayFetch(c) { StartKeeps(c); }
    case Refreshes => if MayFetch(c) { StartKeeps(c); }
    case Ends(result) => if c.running { EndKeeps(c, result); }
  }

  lemma {:induction false} RunKeeps(now: int, events: seq<Event>)
    ensures Inv(Run(Empty(now), events))
  {
    if events != [] {
      RunKeeps(now, events[..|events| - 1]);
      StepKeeps(Run(Empty(now), events[..|events| - 1]), events[|events| - 1]);
    }
  }

  /** In every interleaving a fetch starts only when none runs, at least 30 seconds after the
      one before it ended. */
  lemma OneFetchAtATime(now: int, events: seq<Event>, i: nat)
    requires i + 1 < |Run(Empty(now), events).starts|
    ensures var c := Run(Empty(now), events);
            && i < |c.finishes| && c.starts[i] <= c.finishes[i].at && c.finishes[i].at + MIN_REFRESH <= c.starts[i + 1]
  {
    RunKeeps(now, events);
  }

  /** In every interleaving the cached keys are those of the latest fetch that succeeded, however
      many have failed since, and none before the first. */
  lemma CachedAreLatestGood(now: int, events: seq<Event>)
    ensures var c := Run(Empty(now), events);
            c.keys == if LastGood(c.finishes).Some? then LastGood(c.finishes).value else []
  {
    RunKeeps(now, events);
  }

  /** After a look-up the keys are at most ten minutes old, or a fetch is under way, or the last
      one ended less than 30 seconds ago. */
  lemma LookUpKeepsFresh(c: Cache)
    ensures var d := Next(c, LooksUp);
            || d.running
            || (d.fetchedAt.Some? && d.now - d.fetchedAt.value <= MAX_AGE)
            || (d.doneAt.Some? && d.now - d.doneAt.value < MIN_REFRESH)
  {
  }

  // ---- How many fetches a window sees --------------------------------------------------------------

  ghost predicate Spaced(starts: seq<int>) {
    forall i :: 0 <= i < |starts| - 1 ==> starts[i] + MIN_REFRESH <= starts[i + 1]
  }

  lemma {:induction false} SpacedOut(starts: seq<int>, i: nat, j: nat)
    requires Spaced(starts) && i <= j < |starts|
    ensures (j - i) * MIN_REFRESH <= starts[j] - starts[i]
    decreases j - i
  {
    if i < j { SpacedOut(starts, i, j - 1); }
  }

  lemma WindowCount(n: nat, window: nat, span: int)
    requires n * MIN_REFRESH <= span <= window * SECOND
    ensures n <= window / 30
  {
    assert n * 30 <= window;
  }

  lemma StartsAreSpaced(now: int, events: seq<Event>)
    ensures Spaced(Run(Empty(now), events).starts)
  {
    var c := Run(Empty(now), events);
    RunKeeps(now, events);
    forall i | 0 <= i < |c.starts| - 1 ensures c.starts[i] + MIN_REFRESH <= c.starts[i + 1] {
      assert c.starts[i] <= c.finishes[i].at && c.finishes[i].at + MIN_REFRESH <= c.starts[i + 1];
    }
  }

  /** However many tokens arrive: among starts i to j that fall into `window` seconds there are
      at most window / 30 + 1. */
  lemma StartsInAWindow(now: int, events: seq<Event>, i: nat, j: nat, window: nat)
    requires i <= j < |Run(Empty(now), events).starts|
    requires Run(Empty(now), events).starts[j] - Run(Empty(now), events).starts[i] <= window * SECOND
    ensures j - i + 1 <= window / 30 + 1
  {
    var starts := Run(Empty(now), events).starts;
    StartsAreSpaced(now, events);
    SpacedOut(starts, i, j);
    WindowCount(j - i, window, starts[j] - starts[i]);
  }

  // ---- The key set -----------------------------------------------------------------------------------

  class CachedKeySet {
    var cache: Cache

    constructor (now: int)
      ensures cache == Empty(now)
    {
      cache := Empty(now);
    }

    /** The cached keys at once, with a fetch in the background when they are stale. */
    method CachedKeys() returns (keys: Keys)
      modifies this
      ensures cache == Next(old(cache), LooksUp) && keys == old(cache).keys
    {
      var stale := cache.fetchedAt.None? || cache.now - cache.fetchedAt.value > MAX_AGE;
      if stale && MayFetch(cache) {
        cache := StartFetch(cache);
      }
      return cache.keys;
    }

    /** Whether there is a fetch to wait for, starting one when the limit allows it; otherwise
        the cached keys and whether the last fetch failed. */
    method RefreshedKeys() returns (wait: bool, keys: Keys, outdated: bool)
      modifies this
      ensures cache == Next(old(cache), Refreshes)
      ensures wait <==> cache.running
      ensures !wait ==> keys == cache.keys && outdated == cache.failed
    {
      if !cache.running && MayFetch(cache) {
        cache := StartFetch(cache);
      }
      return cache.running, cache.keys, cache.failed;
    }

    /** The end of the running fetch: what those who wait for it get. */
    method RunFetch(result: Option<Keys>) returns (keys: Keys, err: bool)
      requires cache.running
      modifies this
      ensures cache == Next(old(cache), Ends(result))
      ensures keys == cache.keys && err == result.None?
      ensures result.None? ==> keys == old(cache).keys
    {
      var done := cache.(doneAt := Some(cache.now), failed := result.None?, finishes := cache.finishes + [Finish(cache.now, result)]);
      if result.Some? {
        done := done.(keys := result.value, fetchedAt := Some(cache.now));
      }
      cache := done.(running := false);
      return cache.keys, result.None?;
    }
  }
}

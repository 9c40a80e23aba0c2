/** Listing robots page by page while others change them (bridge/controlplane/harbor/client.go). */
module Paging {
  import opened Text

  const PAGE_SIZE: nat := 100
  const MAX_PAGES: nat := 1000

  /** A robot as Harbor reports it, and whether the client can convert it. */
  datatype Raw = Raw(id: int, convertible: bool)

  /** The reply to one request: an error, or a page whose elements may be missing. */
  datatype Reply = Failed | Page(items: seq<Option<Raw>>)

  /** A server, asked for page number n of the robots with an ID of at least `from`. */
  type Server = (nat, int) -> Reply

  datatype Listing = Refused | Listed(ids: seq<int>)

  /** Takes up the elements of a page: the IDs seen so far, unless one does not increase or
      cannot be converted. */
  function Take(items: seq<Option<Raw>>, cursor: int, out: seq<int>): Option<(int, seq<int>)> {
    if items == [] then Some((cursor, out))
    else if items[0].None? then Take(items[1..], cursor, out)
    else
      var r := items[0].value;
      if r.id <= cursor || !r.convertible then None else Take(items[1..], r.id, out + [r.id])
  }

  /** The walk from page n on. */
  function Walk(server: Server, n: nat, cursor: int, out: seq<int>): Listing
    decreases MAX_PAGES + 1 - n
  {
    if n > MAX_PAGES then Refused
    else
      match server(n, cursor + 1)
      case Failed => Refused
      case Page(items) =>
        var taken := Take(items, cursor, out);
        if taken.None? then Refused
        else if |items| < PAGE_SIZE then Listed(taken.value.1)
        else Walk(server, n + 1, taken.value.0, taken.value.1)
  }

  // ---- The client's loop -----------------------------------------------------------------------

  method TakePage(items: seq<Option<Raw>>, from: int, before: seq<int>) returns (ok: bool, cursor: int, out: seq<int>)
    ensures ok <==> Take(items, from, before).Some?
    ensures ok ==> Take(items, from, before) == Some((cursor, out))
  {
    cursor, out := from, before;
    for i := 0 to |items|
      invariant Take(items, from, before) == Take(items[i..], cursor, out)
    {
      assert items[i..][0] == items[i] && items[i..][1..] == items[i + 1..];
      if items[i].Some? {
        var r := items[i].value;
        if r.id <= cursor || !r.convertible {
          return false, cursor, out;
        }
        cursor, out := r.id, out + [r.id];
      }
    }
    return true, cursor, out;
  }

  method List(server: Server) returns (r: Listing)
    ensures r == Walk(server, 1, 0, [])
  {
    var out, cursor := [], 0;
    var n := 1;
    while n <= MAX_PAGES
      invariant n <= MAX_PAGES + 1 && Walk(server, 1, 0, []) == Walk(server, n, cursor, out)
    {
      var reply := server(n, cursor + 1);
      if reply.Failed? {
        return Refused;
      }
      var ok;
      ok, cursor, out := TakePage(reply.items, cursor, out);
      if !ok {
        return Refused;
      }
      if |reply.items| < PAGE_SIZE {
        return Listed(out);
      }
      n := n + 1;
    }
    return Refused;
  }

  // ---- Any server --------------------------------------------------------------------------------

  ghost predicate Increasing(ids: seq<int>, cursor: int) {
    && (forall i, j :: 0 <= i < j < |ids| ==> ids[i] < ids[j])
    && forall i :: 0 <= i < |ids| ==> ids[i] <= cursor
  }

  lemma {:induction false} TakeIncreases(items: seq<Option<Raw>>, cursor: int, out: seq<int>)
    requires Increasing(out, cursor)
    ensures var t := Take(items, cursor, out); t.Some? ==> Increasing(t.value.1, t.value.0) && cursor <= t.value.0
    decreases |items|
  {
    if items != [] {
      if items[0].None? {
        TakeIncreases(items[1..], cursor, out);
      } else if items[0].value.id > cursor {
        TakeIncreases(items[1..], items[0].value.id, out + [items[0].value.id]);
      }
    }
  }

  lemma {:induction false} WalkIncreases(server: Server, n: nat, cursor: int, out: seq<int>)
    requires Increasing(out, cursor)
    ensures var r := Walk(server, n, cursor, out); r.Listed? ==> exists c :: Increasing(r.ids, c)
    decreases MAX_PAGES + 1 - n
  {
    if n <= MAX_PAGES && server(n, cursor + 1).Page? {
      var items := server(n, cursor + 1).items;
      TakeIncreases(items, cursor, out);
      var t := Take(items, cursor, out);
      if t.Some? && |items| >= PAGE_SIZE { WalkIncreases(server, n + 1, t.value.0, t.value.1); }
    }
  }

  /** Whatever a server answers, also one that ignores the order and the range: a listing that
      succeeds has strictly increasing IDs, so no robot twice. */
  lemma ListedInOrder(server: Server, i: nat, j: nat)
    requires Walk(server, 1, 0, []).Listed? && i < j < |Walk(server, 1, 0, []).ids|
    ensures Walk(server, 1, 0, []).ids[i] < Walk(server, 1, 0, []).ids[j]
  {
    WalkIncreases(server, 1, 0, []);
  }

  // ---- A server that honours the request ---------------------------------------------------------

  /** The robots Harbor holds when page n is asked for: others delete and create in between. */
  type History = nat -> set<int>

  /** The first page, by ID, of the robots from `from` on. */
  ghost predicate FirstPage(items: seq<Option<Raw>>, robots: set<int>, from: int) {
    && |items| <= PAGE_SIZE
    && (forall i :: 0 <= i < |items| ==> items[i].Some? && items[i].value.id in robots && items[i].value.id >= from)
    && (forall i, j :: 0 <= i < j < |items| ==> items[i].value.id < items[j].value.id)
    && (forall x :: x in robots && x >= from && !InPage(items, x) ==>
          |items| == PAGE_SIZE && forall i :: 0 <= i < |items| ==> items[i].value.id < x)
  }

  predicate InPage(items: seq<Option<Raw>>, x: int) {
    exists i :: 0 <= i < |items| && items[i].Some? && items[i].value.id == x
  }

  ghost predicate Honours(server: Server, history: History) {
    forall n: nat, from: int :: server(n, from).Page? ==> FirstPage(server(n, from).items, history(n), from)
  }

  ghost predicate Throughout(history: History, x: int) { forall n: nat :: 1 <= n <= MAX_PAGES ==> x in history(n) }

  /** What a page brings: all its IDs, on top of those before, and a cursor at the last. */
  lemma {:induction false} TakeAll(items: seq<Option<Raw>>, cursor: int, out: seq<int>, x: int)
    requires Take(items, cursor, out).Some?
    ensures x in out || InPage(items, x) ==> x in Take(items, cursor, out).value.1
    ensures (forall i :: 0 <= i < |items| && items[i].Some? ==> items[i].value.id < x) && cursor < x ==> Take(items, cursor, out).value.0 < x
    decreases |items|
  {
    if items != [] {
      assert InPage(items, x) ==> (items[0].Some? && items[0].value.id == x) || InPage(items[1..], x) by {
        if i :| 0 <= i < |items| && items[i].Some? && items[i].value.id == x {
          if i > 0 { assert items[1..][i - 1] == items[i]; }
        }
      }
      if items[0].None? {
        TakeAll(items[1..], cursor, out, x);
      } else {
        TakeAll(items[1..], items[0].value.id, out + [items[0].value.id], x);
      }
    }
  }

  lemma {:induction false} WalkFinds(server: Server, history: History, n: nat, cursor: int, out: seq<int>, x: int)
    requires Honours(server, history) && Throughout(history, x) && n >= 1
    requires x in out || cursor < x
    requires Walk(server, n, cursor, out).Listed?
    ensures x in Walk(server, n, cursor, out).ids
    decreases MAX_PAGES + 1 - n
  {
    var items := server(n, cursor + 1).items;
    assert FirstPage(items, history(n), cursor + 1);
    TakeAll(items, cursor, out, x);
    var t := Take(items, cursor, out).value;
    if |items| >= PAGE_SIZE {
      WalkFinds(server, history, n + 1, t.0, t.1, x);
    }
  }

  lemma {:induction false} TakeFrom(items: seq<Option<Raw>>, cursor: int, out: seq<int>, x: int)
    requires Take(items, cursor, out).Some? && x in Take(items, cursor, out).value.1
    ensures x in out || InPage(items, x)
    decreases |items|
  {
    if items != [] {
      var rest := items[1..];
      assert InPage(rest, x) ==> InPage(items, x) by {
        if i :| 0 <= i < |rest| && rest[i].Some? && rest[i].value.id == x { assert items[i + 1] == rest[i]; }
      }
      if items[0].None? {
        TakeFrom(rest, cursor, out, x);
      } else {
        TakeFrom(rest, items[0].value.id, out + [items[0].value.id], x);
        assert x == items[0].value.id ==> InPage(items, x);
      }
    }
  }

  lemma {:induction false} WalkFrom(server: Server, history: History, n: nat, cursor: int, out: seq<int>, x: int)
    requires Honours(server, history)
    requires Walk(server, n, cursor, out).Listed? && x in Walk(server, n, cursor, out).ids
    ensures x in out || exists k: nat :: x in history(k)
    decreases MAX_PAGES + 1 - n
  {
    var items := server(n, cursor + 1).items;
    assert FirstPage(items, history(n), cursor + 1);
    var t := Take(items, cursor, out).value;
    if |items| >= PAGE_SIZE { WalkFrom(server, history, n + 1, t.0, t.1, x); }
    if x in t.1 {
      TakeFrom(items, cursor, out, x);
      if InPage(items, x) { assert x in history(n); }
    }
  }

  /** While others delete robots and create new ones between the pages, a listing that succeeds
      holds every robot that was there throughout, exactly once, and none that never was. */
  lemma ListsWhatStays(server: Server, history: History, x: int)
    requires Honours(server, history) && Walk(server, 1, 0, []).Listed?
    ensures var ids := Walk(server, 1, 0, []).ids;
            && (x > 0 && Throughout(history, x) ==> x in ids)
            && (forall i, j :: 0 <= i < |ids| && 0 <= j < |ids| && ids[i] == x && ids[j] == x ==> i == j)
            && (x in ids ==> exists k: nat :: x in history(k))
  {
    var ids := Walk(server, 1, 0, []).ids;
    if x > 0 && Throughout(history, x) { WalkFinds(server, history, 1, 0, [], x); }
    if x in ids { WalkFrom(server, history, 1, 0, [], x); }
    WalkIncreases(server, 1, 0, []);
  }
}

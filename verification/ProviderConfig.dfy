/** The credential-provider config as the installer composes it (installer/providerconfig.go). */
module ProviderConfig {

  /** A provider entry: its name, whether it sets the bridge's endpoint, and the rest of its content. */
  datatype Entry = Entry(name: string, bridge: bool, body: string)

  /** An element of the providers list: an object with a name, or anything else. */
  datatype Item = Junk(text: string) | Provider(entry: Entry)

  /** A config file: a document the installer can merge into, or anything else. */
  datatype Doc = Doc(header: string, items: seq<Item>) | Unknown(text: string)

  /** A provider name: a DNS label. */
  predicate LabelChar(c: char) { 'a' <= c <= 'z' || '0' <= c <= '9' }

  predicate ValidName(name: string) {
    && 0 < |name| <= 63
    && LabelChar(name[0]) && LabelChar(name[|name| - 1])
    && forall i :: 0 <= i < |name| ==> LabelChar(name[i]) || name[i] == '-'
  }

  function Entries(es: seq<Entry>): seq<Item> { seq(|es|, i requires 0 <= i < |es| => Provider(es[i])) }

  ghost predicate DistinctNames(es: seq<Entry>) {
    forall i, j :: 0 <= i < j < |es| ==> es[i].name != es[j].name
  }

  // ---- What stays --------------------------------------------------------------------------

  /** An element that composing looks for: this install's, or one that `sibling` accepts. */
  predicate Wanted(p: Item, own: string, sibling: Entry -> bool) {
    p.Provider? && (p.entry.name == own || sibling(p.entry))
  }

  /** Element k is the first wanted one of its name. */
  predicate Stays(items: seq<Item>, own: string, sibling: Entry -> bool, k: nat)
    requires k < |items|
  {
    && Wanted(items[k], own, sibling)
    && forall j :: 0 <= j < k && Wanted(items[j], own, sibling) ==> items[j].entry.name != items[k].entry.name
  }

  /** The positions that stay, in order. */
  function Places(items: seq<Item>, own: string, sibling: Entry -> bool, n: nat): (ps: seq<nat>)
    requires n <= |items|
    ensures forall m :: 0 <= m < |ps| ==> ps[m] < n && Stays(items, own, sibling, ps[m])
    ensures forall l, m :: 0 <= l < m < |ps| ==> ps[l] < ps[m]
    ensures forall k :: 0 <= k < n && Stays(items, own, sibling, k) ==> k in ps
  {
    if n == 0 then []
    else Places(items, own, sibling, n - 1) + if Stays(items, own, sibling, n - 1) then [n - 1] else []
  }

  /** The entry that stands at a position that stays. */
  function Standing(p: Item, entry: Entry): Entry
    requires p.Provider?
  {
    if p.entry.name == entry.name then entry else p.entry
  }

  function Kept(items: seq<Item>, entry: Entry, sibling: Entry -> bool, n: nat): seq<Entry>
    requires n <= |items|
  {
    if n == 0 then []
    else
      Kept(items, entry, sibling, n - 1)
      + if Stays(items, entry.name, sibling, n - 1) then [Standing(items[n - 1], entry)] else []
  }

  lemma {:induction false} KeptPlaces(items: seq<Item>, entry: Entry, sibling: Entry -> bool, n: nat)
    requires n <= |items|
    ensures var ps, es := Places(items, entry.name, sibling, n), Kept(items, entry, sibling, n);
            |es| == |ps| && forall m :: 0 <= m < |ps| ==> es[m] == Standing(items[ps[m]], entry)
  {
    if n > 0 { KeptPlaces(items, entry, sibling, n - 1); }
  }

  /** The elements that do not stay. */
  function Dropped(items: seq<Item>, own: string, sibling: Entry -> bool, n: nat): seq<Item>
    requires n <= |items|
  {
    if n == 0 then []
    else Dropped(items, own, sibling, n - 1) + if Stays(items, own, sibling, n - 1) then [] else [items[n - 1]]
  }

  predicate HasOwn(items: seq<Item>, own: string) {
    exists k :: 0 <= k < |items| && items[k].Provider? && items[k].entry.name == own
  }

  /** The composed list: what stays, with this install's entry in place of the first of its
      name, or last. */
  function Composed(items: seq<Item>, entry: Entry, sibling: Entry -> bool): seq<Entry> {
    Kept(items, entry, sibling, |items|) + if HasOwn(items, entry.name) then [] else [entry]
  }

  /** The content a chart-owned config must have: a document that cannot be merged into is replaced. */
  function Desired(existing: Doc, header: string, entry: Entry, sibling: Entry -> bool): Doc {
    match existing
    case Unknown(_) => Doc(header, [Provider(entry)])
    case Doc(_, items) => Doc(header, Entries(Composed(items, entry, sibling)))
  }

  // ---- The installer's loop ----------------------------------------------------------------

  method ComposeOwnConfig(items: seq<Item>, entry: Entry, sibling: Entry -> bool)
    returns (kept: seq<Entry>, dropped: seq<Item>)
    ensures kept == Composed(items, entry, sibling)
    ensures dropped == Dropped(items, entry.name, sibling, |items|)
  {
    kept, dropped := [], [];
    var seen: set<string> := {};
    var own := entry.name;
    for i := 0 to |items|
      invariant kept == Kept(items, entry, sibling, i)
      invariant forall s :: s in seen <==> exists j :: 0 <= j < i && Wanted(items[j], own, sibling) && items[j].entry.name == s
      invariant dropped == Dropped(items, own, sibling, i)
    {
      var p := items[i];
      assert Wanted(p, own, sibling) ==> (p.entry.name !in seen <==> Stays(items, own, sibling, i));
      if p.Provider? && p.entry.name == own && own !in seen {
        kept, seen := kept + [entry], seen + {own};
      } else if p.Provider? && p.entry.name != own && p.entry.name !in seen && sibling(p.entry) {
        kept, seen := kept + [p.entry], seen + {p.entry.name};
      } else {
        dropped := dropped + [p];
      }
    }
    if own !in seen {
      kept := kept + [entry];
    }
  }

  // ---- Properties --------------------------------------------------------------------------

  /** Nothing comes in from outside: every entry is this install's or an accepted one of the file. */
  lemma ComposedFrom(items: seq<Item>, entry: Entry, sibling: Entry -> bool, e: Entry)
    requires e in Composed(items, entry, sibling)
    ensures e == entry || (e.name != entry.name && Provider(e) in items && sibling(e))
  {
    var es, ps := Kept(items, entry, sibling, |items|), Places(items, entry.name, sibling, |items|);
    KeptPlaces(items, entry, sibling, |items|);
    if e in es {
      var m :| 0 <= m < |es| && es[m] == e;
      assert items[ps[m]] in items;
    }
  }

  /** Every accepted entry stays, unless an accepted one of its name comes before it. */
  lemma ComposedKeeps(items: seq<Item>, entry: Entry, sibling: Entry -> bool, k: nat)
    requires k < |items| && Stays(items, entry.name, sibling, k) && items[k].entry.name != entry.name
    ensures items[k].entry in Composed(items, entry, sibling)
  {
    var es, ps := Kept(items, entry, sibling, |items|), Places(items, entry.name, sibling, |items|);
    KeptPlaces(items, entry, sibling, |items|);
    var m :| 0 <= m < |ps| && ps[m] == k;
    assert es[m] == items[k].entry;
  }

  /** The first wanted element of a name. */
  lemma FirstStays(items: seq<Item>, own: string, sibling: Entry -> bool, k: nat) returns (i: nat)
    requires k < |items| && Wanted(items[k], own, sibling)
    ensures i <= k && Stays(items, own, sibling, i) && items[i].entry.name == items[k].entry.name
  {
    if Stays(items, own, sibling, k) {
      i := k;
    } else {
      var j :| 0 <= j < k && Wanted(items[j], own, sibling) && items[j].entry.name == items[k].entry.name;
      i := FirstStays(items, own, sibling, j);
    }
  }

  /** This install's entry is in the result. */
  lemma ComposedHasOwn(items: seq<Item>, entry: Entry, sibling: Entry -> bool)
    ensures entry in Composed(items, entry, sibling)
  {
    if HasOwn(items, entry.name) {
      var k :| 0 <= k < |items| && items[k].Provider? && items[k].entry.name == entry.name;
      var i := FirstStays(items, entry.name, sibling, k);
      var es, ps := Kept(items, entry, sibling, |items|), Places(items, entry.name, sibling, |items|);
      KeptPlaces(items, entry, sibling, |items|);
      var m :| 0 <= m < |ps| && ps[m] == i;
      assert es[m] == entry;
    }
  }

  /** No name comes twice, whatever the file held: kubelet refuses duplicate names. */
  lemma ComposedDistinct(items: seq<Item>, entry: Entry, sibling: Entry -> bool)
    ensures DistinctNames(Composed(items, entry, sibling))
  {
    var es, ps := Kept(items, entry, sibling, |items|), Places(items, entry.name, sibling, |items|);
    KeptPlaces(items, entry, sibling, |items|);
    forall i, j | 0 <= i < j < |es| ensures es[i].name != es[j].name {
      assert ps[i] < ps[j] && Stays(items, entry.name, sibling, ps[j]);
    }
  }

  /** A list in which every element is wanted and no name comes twice stays as it is, with
      this install's entry in its place or added at the end. */
  lemma ComposedClean(es: seq<Entry>, entry: Entry, sibling: Entry -> bool)
    requires DistinctNames(es) && forall k :: 0 <= k < |es| ==> es[k].name == entry.name || sibling(es[k])
    ensures var out := Composed(Entries(es), entry, sibling);
            && |out| == |es| + (if HasOwn(Entries(es), entry.name) then 0 else 1)
            && forall k :: 0 <= k < |out| ==> out[k] == if k < |es| && es[k].name != entry.name then es[k] else entry
  {
    AllStay(es, entry, sibling, |es|);
  }

  lemma {:induction false} AllStay(es: seq<Entry>, entry: Entry, sibling: Entry -> bool, n: nat)
    requires n <= |es| && DistinctNames(es)
    requires forall k :: 0 <= k < |es| ==> es[k].name == entry.name || sibling(es[k])
    ensures var kept := Kept(Entries(es), entry, sibling, n);
            |kept| == n && forall k :: 0 <= k < n ==> kept[k] == Standing(Provider(es[k]), entry)
  {
    if n > 0 {
      AllStay(es, entry, sibling, n - 1);
      assert Stays(Entries(es), entry.name, sibling, n - 1);
    }
  }

  lemma OutIsWanted(items: seq<Item>, entry: Entry, sibling: Entry -> bool, k: nat)
    requires k < |Composed(items, entry, sibling)|
    ensures var e := Composed(items, entry, sibling)[k]; e == entry || (e.name != entry.name && sibling(e))
  {
    ComposedFrom(items, entry, sibling, Composed(items, entry, sibling)[k]);
  }

  /** Composing what was composed changes nothing. */
  lemma ComposedAgain(items: seq<Item>, entry: Entry, sibling: Entry -> bool)
    ensures var out := Composed(items, entry, sibling); Composed(Entries(out), entry, sibling) == out
  {
    var out := Composed(items, entry, sibling);
    ComposedDistinct(items, entry, sibling);
    ComposedHasOwn(items, entry, sibling);
    forall k | 0 <= k < |out| ensures out[k] == entry || (out[k].name != entry.name && sibling(out[k])) {
      OutIsWanted(items, entry, sibling, k);
    }
    SettledStays(out, entry, sibling);
  }

  lemma SettledStays(es: seq<Entry>, entry: Entry, sibling: Entry -> bool)
    requires DistinctNames(es) && entry in es
    requires forall k :: 0 <= k < |es| ==> es[k] == entry || (es[k].name != entry.name && sibling(es[k]))
    ensures Composed(Entries(es), entry, sibling) == es
  {
    ComposedClean(es, entry, sibling);
    var k :| 0 <= k < |es| && es[k] == entry;
    assert Entries(es)[k].Provider? && Entries(es)[k].entry.name == entry.name;
  }

  // ---- The entries of other installs -------------------------------------------------------

  /** The bridge entries of other installs that count, by name. */
  function OtherBridges(items: seq<Item>, own: string, counts: Entry -> bool): seq<string> {
    if items == [] then []
    else (if OtherBridge(items[0], own, counts) then [items[0].entry.name] else []) + OtherBridges(items[1..], own, counts)
  }

  predicate OtherBridge(p: Item, own: string, counts: Entry -> bool) {
    p.Provider? && p.entry.name != own && p.entry.bridge && counts(p.entry)
  }

  lemma {:induction false} OtherBridgesAre(items: seq<Item>, own: string, counts: Entry -> bool, name: string)
    ensures name in OtherBridges(items, own, counts)
            <==> exists k :: 0 <= k < |items| && OtherBridge(items[k], own, counts) && items[k].entry.name == name
  {
    if items != [] {
      var rest := items[1..];
      OtherBridgesAre(rest, own, counts, name);
      assert forall k :: 0 <= k < |rest| ==> rest[k] == items[k + 1];
      if k :| 0 <= k < |items| && OtherBridge(items[k], own, counts) && items[k].entry.name == name {
        if k > 0 { assert rest[k - 1] == items[k]; }
      }
    }
  }

  method OtherBridgeProviders(items: seq<Item>, own: string, counts: Entry -> bool) returns (names: seq<string>)
    ensures names == OtherBridges(items, own, counts)
  {
    names := [];
    for i := 0 to |items|
      invariant OtherBridges(items, own, counts) == names + OtherBridges(items[i..], own, counts)
    {
      var p := items[i];
      assert items[i..][0] == p && items[i..][1..] == items[i + 1..];
      if OtherBridge(p, own, counts) {
        names := names + [p.entry.name];
      }
    }
  }
}

/** Any number of installs that share one chart-owned config and one bin dir (installer/run.go,
    installer/record.go). The config's lock lets one pass work at a time. */
module SharedNode {
  import opened ProviderConfig
  import opened NodeFiles

  // ---- The shared config -------------------------------------------------------------------

  /** The entries of a list of items, in order. */
  function Named(items: seq<Item>): seq<Entry> {
    if items == [] then []
    else (if items[0].Provider? then [items[0].entry] else []) + Named(items[1..])
  }

  lemma {:induction false} NamedEntries(es: seq<Entry>)
    ensures Named(Entries(es)) == es
  {
    if es != [] {
      assert Entries(es)[1..] == Entries(es[1..]);
      NamedEntries(es[1..]);
    }
  }

  /** The entries kubelet reads from the shared config. */
  function Live(f: Files, w: Wiring): seq<Entry> {
    if w.configFile in f.configs && f.configs[w.configFile].Doc? then Named(f.configs[w.configFile].items) else []
  }

  /** The entries of other installs, in order. */
  function OthersIn(es: seq<Entry>, own: string): seq<Entry> {
    if es == [] then []
    else OthersIn(es[..|es| - 1], own) + if es[|es| - 1].name == own then [] else [es[|es| - 1]]
  }

  ghost predicate AllVouched(f: Files, dir: string, es: seq<Entry>) {
    forall k :: 0 <= k < |es| ==> Vouched(f, dir, es[k])
  }

  /** The config holds entries only, no name twice, each held by its install's record next to
      its binary. */
  ghost predicate Sound(f: Files, w: Wiring) {
    w.configFile in f.configs ==>
      var doc, es := f.configs[w.configFile], Live(f, w);
      doc.Doc? && doc.items == Entries(es) && DistinctNames(es) && AllVouched(f, w.binDir, es)
  }

  // ---- One pass ----------------------------------------------------------------------------

  /** Nothing but this install's own record and binary differs. */
  ghost predicate OnlyOwnFiles(f: Files, g: Files, at: Place) {
    && g.records - {at} == f.records - {at}
    && g.binaries - {at} == f.binaries - {at}
  }

  lemma OthersVouched(f: Files, g: Files, dir: string, own: string, e: Entry)
    requires OnlyOwnFiles(f, g, Place(dir, own)) && e.name != own
    ensures Vouched(g, dir, e) == Vouched(f, dir, e)
  {
    var at, x := Place(dir, own), Place(dir, e.name);
    assert x in f.records - {at} <==> x in f.records;
    assert x in g.records - {at} <==> x in g.records;
    assert x in f.binaries - {at} <==> x in f.binaries;
    assert x in g.binaries - {at} <==> x in g.binaries;
    if x in f.records { assert (f.records - {at})[x] == (g.records - {at})[x]; }
    if x in f.binaries { assert (f.binaries - {at})[x] == (g.binaries - {at})[x]; }
  }

  /** The config is as it was, or as the pass wants it. */
  lemma PassConfig(f: Files, w: Wiring, inst: Install, ending: Ending)
    ensures var g := Pass(f, w, inst, ending);
            g.configs == f.configs || g.configs == f.configs[w.configFile := DesiredAt(f, w, inst)]
  {
  }

  /** The config a pass wants, when it found a sound one: the same entries in the same order,
      with its own replaced or added. */
  lemma DesiredEntries(f: Files, w: Wiring, inst: Install) returns (out: seq<Entry>)
    requires Sound(f, w) && inst.Valid()
    ensures DesiredAt(f, w, inst).Doc? && DesiredAt(f, w, inst).items == Entries(out)
    ensures DistinctNames(out) && inst.entry in out
    ensures OthersIn(out, inst.name) == OthersIn(Live(f, w), inst.name)
    ensures forall k :: 0 <= k < |out| ==> out[k] == inst.entry || (out[k].name != inst.name && out[k] in Live(f, w))
  {
    var es, entry := Live(f, w), inst.entry;
    if w.configFile !in f.configs {
      out := [entry];
      assert out[..0] == [];
    } else {
      var sibling := SiblingIn(f, w.binDir, inst.name);
      out := Composed(Entries(es), entry, sibling);
      CleanEntries(es, entry, sibling);
    }
  }

  /** What composing makes of entries that all stay. */
  lemma CleanEntries(es: seq<Entry>, entry: Entry, sibling: Entry -> bool)
    requires DistinctNames(es) && forall k :: 0 <= k < |es| ==> es[k].name == entry.name || sibling(es[k])
    ensures var out := Composed(Entries(es), entry, sibling);
            && DistinctNames(out) && entry in out && OthersIn(out, entry.name) == OthersIn(es, entry.name)
            && forall k :: 0 <= k < |out| ==> out[k] == entry || (out[k].name != entry.name && out[k] in es)
  {
    var out := Composed(Entries(es), entry, sibling);
    ComposedClean(es, entry, sibling);
    ComposedDistinct(Entries(es), entry, sibling);
    ComposedHasOwn(Entries(es), entry, sibling);
    CleanOthers(es, out, entry);
  }

  lemma CleanOthers(es: seq<Entry>, out: seq<Entry>, entry: Entry)
    requires |es| <= |out| <= |es| + 1
    requires forall k :: 0 <= k < |out| ==> out[k] == if k < |es| && es[k].name != entry.name then es[k] else entry
    ensures OthersIn(out, entry.name) == OthersIn(es, entry.name)
  {
    SameOthers(es, out, entry.name, |es|);
    assert out[..|es|] == out || out == out[..|es|] + [entry];
    assert es[..|es|] == es;
  }

  lemma {:induction false} SameOthers(es: seq<Entry>, out: seq<Entry>, own: string, n: nat)
    requires n <= |es| && n <= |out|
    requires forall k :: 0 <= k < n ==> if es[k].name == own then out[k].name == own else out[k] == es[k]
    ensures OthersIn(out[..n], own) == OthersIn(es[..n], own)
  {
    if n > 0 {
      SameOthers(es, out, own, n - 1);
      assert out[..n][..n - 1] == out[..n - 1] && es[..n][..n - 1] == es[..n - 1];
    }
  }

  lemma PassFiles(f: Files, w: Wiring, inst: Install, ending: Ending)
    ensures OnlyOwnFiles(f, Pass(f, w, inst, ending), Place(w.binDir, inst.name))
  {
  }

  /** What the others have in a config that is as it was or as a pass wants it. */
  lemma ConfigKeepsOthers(f: Files, g: Files, w: Wiring, inst: Install)
    requires Sound(f, w) && inst.Valid()
    requires g.configs == f.configs || g.configs == f.configs[w.configFile := DesiredAt(f, w, inst)]
    ensures OthersIn(Live(g, w), inst.name) == OthersIn(Live(f, w), inst.name)
  {
    if g.configs != f.configs {
      var out := DesiredEntries(f, w, inst);
      NamedEntries(out);
      assert Live(g, w) == out;
    }
  }

  /** No pass changes another install's entries, their order, records or binaries, wherever
      it stops. */
  lemma PassKeepsOthers(f: Files, w: Wiring, inst: Install, ending: Ending)
    requires Sound(f, w) && inst.Valid()
    ensures var g := Pass(f, w, inst, ending);
            && OthersIn(Live(g, w), inst.name) == OthersIn(Live(f, w), inst.name)
            && OnlyOwnFiles(f, g, Place(w.binDir, inst.name))
  {
    PassFiles(f, w, inst, ending);
    PassConfig(f, w, inst, ending);
    ConfigKeepsOthers(f, Pass(f, w, inst, ending), w, inst);
  }

  lemma SameConfigSound(f: Files, g: Files, w: Wiring, own: string)
    requires Sound(f, w) && OnlyOwnFiles(f, g, Place(w.binDir, own)) && g.configs == f.configs
    requires forall e :: e in Live(f, w) && e.name == own ==> Vouched(g, w.binDir, e)
    ensures Sound(g, w)
  {
    var es := Live(f, w);
    if w.configFile in f.configs {
      forall k | 0 <= k < |es| ensures Vouched(g, w.binDir, es[k]) {
        if es[k].name != own { OthersVouched(f, g, w.binDir, own, es[k]); }
      }
    }
  }

  lemma NewConfigSound(f: Files, g: Files, w: Wiring, inst: Install)
    requires Sound(f, w) && inst.Valid() && OnlyOwnFiles(f, g, Place(w.binDir, inst.name))
    requires g.configs == f.configs[w.configFile := DesiredAt(f, w, inst)] && Vouched(g, w.binDir, inst.entry)
    ensures Sound(g, w) && inst.entry in Live(g, w)
  {
    var out := DesiredEntries(f, w, inst);
    NamedEntries(out);
    assert Live(g, w) == out;
    forall k | 0 <= k < |out| ensures Vouched(g, w.binDir, out[k]) {
      if out[k] != inst.entry { OthersVouched(f, g, w.binDir, inst.name, out[k]); }
    }
  }

  /** The record of a pass under way holds what the config held, and the new entry. */
  lemma BegunHolds(f: Files, w: Wiring, inst: Install, e: Entry)
    requires Vouched(f, w.binDir, e) && e.name == inst.name
    ensures var at := Place(w.binDir, inst.name);
            Holds(Begun(f, at, inst.entry, w.configFile), e) && at in f.binaries && f.binaries[at].executable
  {
  }

  lemma AfterSound(f: Files, w: Wiring, inst: Install, k: nat)
    requires Sound(f, w) && inst.Valid()
    ensures Sound(After(f, w, inst, k), w)
    ensures k >= 3 ==> inst.entry in Live(After(f, w, inst, k), w)
  {
    var g := After(f, w, inst, k);
    if k >= 3 {
      NewConfigSound(f, g, w, inst);
    } else {
      forall e | e in Live(f, w) && e.name == inst.name ensures Vouched(g, w.binDir, e) {
        BegunHolds(f, w, inst, e);
      }
      SameConfigSound(f, g, w, inst.name);
    }
  }

  lemma UndoneSound(f: Files, w: Wiring, inst: Install, record: bool, config: bool)
    requires Sound(f, w) && inst.Valid() && (config ==> record)
    ensures Sound(Undone(f, w, inst, record, config), w)
  {
    var g := Undone(f, w, inst, record, config);
    if config {
      forall e | e in Live(f, w) && e.name == inst.name ensures Vouched(g, w.binDir, e) {
        BegunHolds(f, w, inst, e);
      }
      SameConfigSound(f, g, w, inst.name);
    } else {
      NewConfigSound(f, g, w, inst);
    }
  }

  /** A pass keeps the config sound, wherever it stops, and through a rollback that restores
      the config only after it restored the record. */
  lemma PassKeepsSound(f: Files, w: Wiring, inst: Install, ending: Ending)
    requires Sound(f, w) && inst.Valid() && (ending.RolledBack? && ending.config ==> ending.record)
    ensures Sound(Pass(f, w, inst, ending), w)
  {
    if !Refused(f, w.binDir, inst) {
      match ending
      case Stopped(k) => AfterSound(f, w, inst, if k < 4 then k else 4);
      case Finished => AfterSound(f, w, inst, 4);
      case RolledBack(record, config) => UndoneSound(f, w, inst, record, config);
    }
  }

  // ---- A rollback whose record write fails ---------------------------------------------------

  /** Such a rollback leaves a sound config exactly when the config it restores holds no other
      entry of this install. */
  lemma LostRecordExactly(f: Files, w: Wiring, inst: Install)
    requires Sound(f, w) && inst.Valid() && !Refused(f, w.binDir, inst)
    ensures Sound(Pass(f, w, inst, RolledBack(false, true)), w)
            <==> forall e :: e in Live(f, w) && e.name == inst.name ==> e == inst.entry
  {
    var g := Pass(f, w, inst, RolledBack(false, true));
    forall e: Entry | e.name == inst.name ensures Vouched(g, w.binDir, e) <==> e == inst.entry { LostRecordVouches(f, w, inst, e); }
    LostRecordVouches(f, w, inst, inst.entry);
    assert Live(g, w) == Live(f, w);
    if forall e :: e in Live(f, w) && e.name == inst.name ==> e == inst.entry {
      SameConfigSound(f, g, w, inst.name);
    } else {
      var e :| e in Live(f, w) && e.name == inst.name && e != inst.entry;
      var k :| 0 <= k < |Live(f, w)| && Live(f, w)[k] == e;
      assert !AllVouched(g, w.binDir, Live(g, w));
    }
  }

  /** The config is back, and the record holds the rejected entry only. */
  lemma LostRecordVouches(f: Files, w: Wiring, inst: Install, e: Entry)
    requires inst.Valid() && !Refused(f, w.binDir, inst) && e.name == inst.name
    ensures var g := Pass(f, w, inst, RolledBack(false, true));
            && g.configs == f.configs && OnlyOwnFiles(f, g, Place(w.binDir, inst.name))
            && (Vouched(g, w.binDir, e) <==> e == inst.entry)
  {
    PassFiles(f, w, inst, RolledBack(false, true));
  }

  /** An entry its record does not hold is dropped by the next pass of any other install. */
  lemma UnheldIsDropped(f: Files, w: Wiring, inst: Install, e: Entry)
    requires inst.Valid() && !Refused(f, w.binDir, inst)
    requires e in Live(f, w) && e.name != inst.name && !Vouched(f, w.binDir, e)
    ensures e !in Live(Pass(f, w, inst, Finished), w)
  {
    var doc := f.configs[w.configFile];
    var sibling := SiblingIn(f, w.binDir, inst.name);
    var out := Composed(doc.items, inst.entry, sibling);
    NamedEntries(out);
    if e in out { ComposedFrom(doc.items, inst.entry, sibling, e); }
  }

  /** It happens: install "a" updates its entry, kubelet rejects it, the record cannot be
      written back, and the next pass of install "b" removes the entry of "a". */
  lemma LostRecordExample()
    ensures exists f: Files, w: Wiring, a: Install, b: Install, e: Entry ::
              && Sound(f, w) && a.Valid() && b.Valid() && e in Live(f, w) && e.name == a.name != b.name
              && var g := Pass(f, w, a, RolledBack(false, true));
              && e in Live(g, w) && e !in Live(Pass(g, w, b, Finished), w)
  {
    var w := Wiring("/bin", "/etc/config");
    var e := Entry("a", true, "1");
    var a, b := Install("a", Entry("a", true, "2"), "", "p"), Install("b", Entry("b", true, "1"), "", "p");
    var at := Place("/bin", "a");
    var f := Files(map["/etc/config" := Doc("", [Provider(e)])], map[at := Record([e], "/etc/config")],
                   map[at := Binary("p", true)]);
    assert Entries([e]) == [Provider(e)];
    NamedEntries([e]);
    assert Live(f, w) == [e];
    assert Vouched(f, w.binDir, e);
    assert Sound(f, w);
    var g := Pass(f, w, a, RolledBack(false, true));
    assert Live(g, w) == Live(f, w) && !Vouched(g, w.binDir, e) by { LostRecordVouches(f, w, a, e); }
    assert Place("/bin", "b") !in g.binaries;
    UnheldIsDropped(g, w, b, e);
  }

  // ---- Whatever stands in the config -----------------------------------------------------------

  /** Others can write the config's directory. Whatever they put there, a pass that gets as
      far as writing the config leaves entries only, no name twice, its own among them, and
      every other one as it was and vouched for. */
  lemma WrittenIsVouched(f: Files, w: Wiring, inst: Install)
    requires inst.Valid() && !Refused(f, w.binDir, inst)
    ensures var g := Pass(f, w, inst, Finished);
            Sound(g, w) && inst.entry in Live(g, w)
            && forall e :: e in Live(g, w) && e != inst.entry ==> e.name != inst.name && e in Live(f, w) && Vouched(f, w.binDir, e)
  {
    var g := Pass(f, w, inst, Finished);
    var out := WrittenEntries(f, w, inst);
    PassFiles(f, w, inst, Finished);
    forall e | e in out ensures Vouched(g, w.binDir, e) {
      if e != inst.entry { OthersVouched(f, g, w.binDir, inst.name, e); }
    }
  }

  /** The entries of the config a pass writes. */
  lemma WrittenEntries(f: Files, w: Wiring, inst: Install) returns (out: seq<Entry>)
    requires inst.Valid() && !Refused(f, w.binDir, inst)
    ensures var g := Pass(f, w, inst, Finished);
            w.configFile in g.configs && g.configs[w.configFile].Doc? && g.configs[w.configFile].items == Entries(out) && Live(g, w) == out
    ensures DistinctNames(out) && inst.entry in out
    ensures forall e :: e in out && e != inst.entry ==> e.name != inst.name && e in Live(f, w) && Vouched(f, w.binDir, e)
  {
    var sibling := SiblingIn(f, w.binDir, inst.name);
    var items := if w.configFile in f.configs && f.configs[w.configFile].Doc? then f.configs[w.configFile].items else [];
    out := Composed(items, inst.entry, sibling);
    assert items == [] ==> Entries(out) == [Provider(inst.entry)];
    NamedEntries(out);
    ComposedDistinct(items, inst.entry, sibling);
    ComposedHasOwn(items, inst.entry, sibling);
    forall e | e in out && e != inst.entry ensures e.name != inst.name && e in Live(f, w) && Vouched(f, w.binDir, e) {
      ComposedFrom(items, inst.entry, sibling, e);
      NamedHas(items, e);
    }
  }

  lemma {:induction false} NamedHas(items: seq<Item>, e: Entry)
    requires Provider(e) in items
    ensures e in Named(items)
  {
    if items[0] != Provider(e) { NamedHas(items[1..], e); }
  }

  /** A completed pass leaves the rendered header, the plugin, and a record that claims the
      config and vouches for the new entry only: an earlier entry of this install, put back
      by someone, is no longer accepted. */
  lemma CompletedPassIsExact(f: Files, w: Wiring, inst: Install, e: Entry)
    requires inst.Valid() && !Refused(f, w.binDir, inst) && e.name == inst.name
    ensures var g, at := Pass(f, w, inst, Finished), Place(w.binDir, inst.name);
            && w.configFile in g.configs && g.configs[w.configFile].Doc? && g.configs[w.configFile].header == inst.header
            && at in g.binaries && g.binaries[at] == Binary(inst.plugin, true)
            && at in g.records && g.records[at].Record? && g.records[at].chartOwned == w.configFile
            && (Vouched(g, w.binDir, e) <==> e == inst.entry)
  {
    assert e in [inst.entry] <==> e == inst.entry;
  }

  // ---- Whole runs --------------------------------------------------------------------------

  /** One pass of a run. */
  datatype Turn = Turn(inst: Install, ending: Ending)

  /** A pass of a valid install, with no rollback that restores the config but not the record. */
  ghost predicate Proper(t: Turn) {
    t.inst.Valid() && (t.ending.RolledBack? && t.ending.config ==> t.ending.record)
  }

  function Run(f: Files, w: Wiring, turns: seq<Turn>): Files {
    if turns == [] then f
    else
      var last := turns[|turns| - 1];
      Pass(Run(f, w, turns[..|turns| - 1]), w, last.inst, last.ending)
  }

  lemma {:induction false} RunKeepsSound(f: Files, w: Wiring, turns: seq<Turn>)
    requires Sound(f, w) && forall k :: 0 <= k < |turns| ==> Proper(turns[k])
    ensures Sound(Run(f, w, turns), w)
  {
    if turns != [] {
      var before, last := turns[..|turns| - 1], turns[|turns| - 1];
      RunKeepsSound(f, w, before);
      PassKeepsSound(Run(f, w, before), w, last.inst, last.ending);
    }
  }

  /** The entry an install has in the config. */
  ghost predicate HasEntry(f: Files, w: Wiring, e: Entry) { e in Live(f, w) && Vouched(f, w.binDir, e) }

  lemma {:induction false} InOthers(es: seq<Entry>, own: string, e: Entry)
    ensures e in OthersIn(es, own) <==> e in es && e.name != own
  {
    if es != [] {
      var n := |es| - 1;
      InOthers(es[..n], own, e);
      assert es == es[..n] + [es[n]];
    }
  }

  /** In every run of any number of installs, with passes cut short after any write and rolled
      back, every entry in the config is held by its install's record next to its binary, and
      an install's entries are there after the run exactly when they were before it, unless
      the install itself made a pass. */
  lemma {:induction false} NoPassRemovesAnothers(f: Files, w: Wiring, turns: seq<Turn>, e: Entry)
    requires Sound(f, w) && forall k :: 0 <= k < |turns| ==> Proper(turns[k]) && turns[k].inst.name != e.name
    ensures Sound(Run(f, w, turns), w)
    ensures e in Live(Run(f, w, turns), w) <==> e in Live(f, w)
    ensures HasEntry(Run(f, w, turns), w, e) <==> HasEntry(f, w, e)
  {
    if turns != [] {
      var before, last := turns[..|turns| - 1], turns[|turns| - 1];
      NoPassRemovesAnothers(f, w, before, e);
      var mid, own := Run(f, w, before), last.inst.name;
      PassKeepsSound(mid, w, last.inst, last.ending);
      PassKeepsOthers(mid, w, last.inst, last.ending);
      var g := Pass(mid, w, last.inst, last.ending);
      InOthers(Live(mid, w), own, e);
      InOthers(Live(g, w), own, e);
      OthersVouched(mid, g, w.binDir, own, e);
    }
  }

  /** So an install's completed pass lasts: whatever the other installs do afterwards, kubelet
      finds its entry, and its binary next to its record. */
  lemma CompletedPassLasts(f: Files, w: Wiring, inst: Install, later: seq<Turn>)
    requires Sound(f, w) && inst.Valid() && !Refused(f, w.binDir, inst)
    requires forall k :: 0 <= k < |later| ==> Proper(later[k]) && later[k].inst.name != inst.name
    ensures HasEntry(Run(Pass(f, w, inst, Finished), w, later), w, inst.entry)
  {
    AfterSound(f, w, inst, 4);
    NoPassRemovesAnothers(Pass(f, w, inst, Finished), w, later, inst.entry);
  }
}

/** Moving kubelet to new directories while several installs share the old ones
    (installer/run.go: blockingInstalls, keptSiblings, stayAndStage, stageOwnFiles). */
module StagedMove {
  import opened Text
  import opened ProviderConfig
  import opened NodeFiles
  import opened SharedNode

  const CONFIG_NAME := "credential-provider-config.yaml"

  /** The chart's two directories on the node. */
  datatype Dirs = Dirs(binDir: string, configDir: string) {
    function Own(): Wiring { Wiring(binDir, configDir + "/" + CONFIG_NAME) }
  }

  /** The node: its files, the flags kubelet runs with, and for each install the wiring of its
      last verified patch-mode pass, from its state file. */
  datatype Node = Node(files: Files, running: Option<Wiring>, patched: map<string, Wiring>)

  predicate WithinDir(p: string, dir: string) { p == dir || HasPrefix(p, dir + "/") }

  predicate DirsOverlap(a: string, b: string) { WithinDir(a, b) || WithinDir(b, a) }

  // ---- Which installs keep kubelet where it is ---------------------------------------------

  function ItemsAt(f: Files, path: string): seq<Item> {
    if path in f.configs && f.configs[path].Doc? then f.configs[path].items else []
  }

  /** A record in dir names path as a chart-owned config. */
  predicate Claims(f: Files, dir: string, path: string) {
    exists at :: at in f.records && at.dir == dir && ValidName(at.name) && f.records[at].Record? && f.records[at].chartOwned == path
  }

  /** What counts as another install's entry in kubelet's current config. */
  function Counts(f: Files, current: Wiring, dirs: Dirs, own: string): Entry -> bool {
    var chartOwned := WithinDir(current.configFile, dirs.configDir) || Claims(f, current.binDir, current.configFile);
    (e: Entry) => chartOwned ==> e.name != own && Vouched(f, current.binDir, e)
  }

  /** The other installs whose entries this install's own config keeps, as a pass writes it. */
  function KeptSiblings(f: Files, own: Wiring, inst: Install): seq<string> {
    OtherBridges(DesiredAt(f, own, inst).items, inst.name, Everyone())
  }

  function Everyone(): Entry -> bool { (e: Entry) => true }

  function NotAmong(names: seq<string>, kept: seq<string>): seq<string> {
    if names == [] then [] else (if names[0] in kept then [] else [names[0]]) + NotAmong(names[1..], kept)
  }

  lemma {:induction false} NotAmongAre(names: seq<string>, kept: seq<string>, name: string)
    ensures name in NotAmong(names, kept) <==> name in names && name !in kept
  {
    if names != [] {
      NotAmongAre(names[1..], kept, name);
      assert name in names <==> name == names[0] || name in names[1..];
    }
  }

  function BlockingInstalls(f: Files, current: Wiring, dirs: Dirs, inst: Install): seq<string> {
    var others := OtherBridges(ItemsAt(f, current.configFile), inst.name, Counts(f, current, dirs, inst.name));
    NotAmong(others, KeptSiblings(f, dirs.Own(), inst))
  }

  // ---- One auto pass -------------------------------------------------------------------------

  /** Auto mode resolves to patch: kubelet is not wired, wired as this install wires it, or
      wired as its own last patch-mode pass did. */
  predicate ResolvesToPatch(n: Node, dirs: Dirs, inst: Install) {
    n.running.None? || n.running.value == dirs.Own()
    || (inst.name in n.patched && n.patched[inst.name] == n.running.value)
  }

  /** A patch-mode pass onto w that kubelet came up with. */
  function Patched(n: Node, w: Wiring, inst: Install): Node {
    if Refused(n.files, w.binDir, inst) then n
    else Node(Pass(n.files, w, inst, Finished), Some(w), n.patched[inst.name := w])
  }

  /** The record and the binary in a new bin dir, before the config is written. */
  function Prepared(f: Files, own: Wiring, inst: Install): Files {
    var at := Place(own.binDir, inst.name);
    Apply(Apply(f, SetRecord(at, Begun(f, at, inst.entry, own.configFile))), SetBinary(at, Binary(inst.plugin, true)))
  }

  /** This install's files in its new directories, while kubelet stays on prev. */
  function Staged(f: Files, prev: Wiring, own: Wiring, inst: Install): Files {
    var moved := own.binDir != prev.binDir;
    if moved && Refused(f, own.binDir, inst) then f
    else
      var a := if moved then Prepared(f, own, inst) else f;
      var b := if own.configFile != prev.configFile then Apply(a, SetConfig(own.configFile, DesiredAt(a, own, inst))) else a;
      if moved then Apply(b, SetRecord(Place(own.binDir, inst.name), Committed(inst.entry, own.configFile))) else b
  }

  /** Directories that may not be staged into. */
  predicate StageRefused(prev: Wiring, dirs: Dirs) {
    || DirsOverlap(prev.binDir, dirs.configDir)
    || (WithinDir(prev.configFile, dirs.configDir) && prev.configFile != dirs.Own().configFile)
  }

  function StayAndStage(n: Node, prev: Wiring, dirs: Dirs, inst: Install): Node {
    if StageRefused(prev, dirs) || Refused(n.files, prev.binDir, inst) then n
    else
      var stayed := Patched(n, prev, inst);
      stayed.(files := Staged(stayed.files, prev, dirs.Own(), inst))
  }

  /** A whole auto pass, when every call succeeds. */
  function AutoPass(n: Node, dirs: Dirs, inst: Install): Node
    requires ResolvesToPatch(n, dirs, inst)
  {
    var own := dirs.Own();
    if n.running.None? || n.running.value == own then Patched(n, own, inst)
    else
      var prev := n.running.value;
      if BlockingInstalls(n.files, prev, dirs, inst) == [] then Patched(n, own, inst)
      else StayAndStage(n, prev, dirs, inst)
  }

  // ---- Files of other installs -----------------------------------------------------------------

  /** The records and binaries of every install but one are the same. */
  ghost predicate SameBut(f: Files, g: Files, name: string) {
    forall p: Place :: p.name != name ==>
      && (p in f.records <==> p in g.records) && (p in f.records ==> f.records[p] == g.records[p])
      && (p in f.binaries <==> p in g.binaries) && (p in f.binaries ==> f.binaries[p] == g.binaries[p])
  }

  lemma SameVouched(f: Files, g: Files, name: string, dir: string, e: Entry)
    requires SameBut(f, g, name) && e.name != name
    ensures Vouched(f, dir, e) == Vouched(g, dir, e)
  {
    var p := Place(dir, e.name);
    assert p.name != name;
  }

  /** An entry of that name stands in the config at w, vouched for by w's bin dir. */
  ghost predicate KeptIn(f: Files, w: Wiring, name: string) {
    exists e :: Provider(e) in ItemsAt(f, w.configFile) && e.name == name && Vouched(f, w.binDir, e)
  }

  lemma DesiredItems(f: Files, w: Wiring, inst: Install)
    ensures var d := DesiredAt(f, w, inst);
            d.Doc? && d.items == Entries(Composed(ItemsAt(f, w.configFile), inst.entry, SiblingIn(f, w.binDir, inst.name)))
  {
    var out := Composed([], inst.entry, SiblingIn(f, w.binDir, inst.name));
    assert out == [inst.entry];
    assert Entries(out) == [Provider(inst.entry)];
  }

  /** The config a pass wants keeps exactly the installs that are vouched for. */
  lemma DesiredKeeps(f: Files, w: Wiring, inst: Install, name: string)
    requires inst.Valid() && name != inst.name
    ensures KeptIn(f, w, name) <==> exists e :: Provider(e) in DesiredAt(f, w, inst).items && e.name == name
    ensures forall e :: Provider(e) in DesiredAt(f, w, inst).items && e.name == name ==> Vouched(f, w.binDir, e) && e.bridge
  {
    var items, sibling := ItemsAt(f, w.configFile), SiblingIn(f, w.binDir, inst.name);
    var out := Composed(items, inst.entry, sibling);
    DesiredItems(f, w, inst);
    forall e | Provider(e) in Entries(out) && e.name == name
      ensures Vouched(f, w.binDir, e) && Provider(e) in items
    {
      ComposedFrom(items, inst.entry, sibling, e);
    }
    if KeptIn(f, w, name) {
      var e :| Provider(e) in items && e.name == name && Vouched(f, w.binDir, e);
      var k :| 0 <= k < |items| && items[k] == Provider(e);
      var i := FirstStays(items, inst.name, sibling, k);
      ComposedKeeps(items, inst.entry, sibling, i);
      var m :| 0 <= m < |out| && out[m] == items[i].entry;
      assert Entries(out)[m] == items[i];
    }
  }

  // ---- Installs on the way -------------------------------------------------------------------

  /** Installs with valid, different names. */
  ghost predicate Team(team: set<Install>) {
    && (forall i :: i in team ==> i.Valid())
    && forall i, j :: i in team && j in team && i.name == j.name ==> i == j
  }

  ghost predicate HasEntry(es: seq<Entry>, name: string) { exists e :: e in es && e.name == name }

  ghost predicate HasInstall(team: set<Install>, name: string) { exists i :: i in team && i.name == name }

  /** Every install of the team has an entry. */
  ghost predicate AllIn(es: seq<Entry>, team: set<Install>) { forall i :: i in team ==> HasEntry(es, i.name) }

  /** Every entry is that of an install of the team. */
  ghost predicate OnlyTeam(es: seq<Entry>, team: set<Install>) { forall e :: e in es ==> HasInstall(team, e.name) }

  /** The config at w holds an entry of every install, each next to its binary and record. */
  ghost predicate Together(f: Files, w: Wiring, team: set<Install>) { Sound(f, w) && AllIn(Live(f, w), team) }

  /** Kubelet is on prev, whose config holds the entries of these installs and no others, and
      the installs that have staged their files in the new directories are `staged`. */
  ghost predicate Waiting(n: Node, prev: Wiring, dirs: Dirs, team: set<Install>, staged: set<Install>) {
    && n.running == Some(prev)
    && Together(n.files, prev, team)
    && OnlyTeam(Live(n.files, prev), team)
    && (forall i :: i in team ==> i.name in n.patched && n.patched[i.name] == prev)
    && StagedAre(n.files, dirs.Own(), team, staged)
  }

  /** No install is refused in the new directories, and the vouched entries there are those of
      `staged`. */
  ghost predicate StagedAre(f: Files, own: Wiring, team: set<Install>, staged: set<Install>) {
    forall i :: i in team ==> StagedIf(f, own, i, i in staged)
  }

  ghost predicate StagedIf(f: Files, own: Wiring, inst: Install, staged: bool) {
    !Refused(f, own.binDir, inst) && (KeptIn(f, own, inst.name) <==> staged)
  }

  /** Kubelet is on the new directories with every install. */
  ghost predicate Moved(n: Node, dirs: Dirs, team: set<Install>) {
    n.running == Some(dirs.Own()) && Together(n.files, dirs.Own(), team)
  }

  lemma {:induction false} NamedFrom(items: seq<Item>, e: Entry)
    ensures e in Named(items) <==> Provider(e) in items
  {
    if items != [] {
      NamedFrom(items[1..], e);
      assert Provider(e) in items <==> items[0] == Provider(e) || Provider(e) in items[1..];
    }
  }

  lemma LiveItems(f: Files, w: Wiring, e: Entry)
    ensures e in Live(f, w) <==> Provider(e) in ItemsAt(f, w.configFile)
  {
    NamedFrom(ItemsAt(f, w.configFile), e);
  }

  lemma LiveVouched(f: Files, w: Wiring, e: Entry)
    requires Sound(f, w) && e in Live(f, w)
    ensures Vouched(f, w.binDir, e)
  {
    var k :| 0 <= k < |Live(f, w)| && Live(f, w)[k] == e;
  }

  /** An install with a vouched entry in a bin dir is not refused there. */
  lemma NotRefused(f: Files, w: Wiring, team: set<Install>, inst: Install)
    requires Together(f, w, team) && inst in team
    ensures !Refused(f, w.binDir, inst)
  {
    assert HasEntry(Live(f, w), inst.name);
    var e :| e in Live(f, w) && e.name == inst.name;
    LiveVouched(f, w, e);
  }

  // ---- Who blocks ------------------------------------------------------------------------------

  lemma OthersAreTheTeam(n: Node, prev: Wiring, dirs: Dirs, team: set<Install>, staged: set<Install>, inst: Install, name: string)
    requires Team(team) && Waiting(n, prev, dirs, team, staged) && inst in team
    ensures name in OtherBridges(ItemsAt(n.files, prev.configFile), inst.name, Counts(n.files, prev, dirs, inst.name))
            <==> name != inst.name && HasInstall(team, name)
  {
    var f, items, counts := n.files, ItemsAt(n.files, prev.configFile), Counts(n.files, prev, dirs, inst.name);
    OtherBridgesAre(items, inst.name, counts, name);
    if name in OtherBridges(items, inst.name, counts) {
      var k :| 0 <= k < |items| && OtherBridge(items[k], inst.name, counts) && items[k].entry.name == name;
      assert Provider(items[k].entry) in items;
      LiveItems(f, prev, items[k].entry);
    }
    if name != inst.name && HasInstall(team, name) {
      var e := TeamEntry(f, prev, team, name);
      var k :| 0 <= k < |items| && items[k] == Provider(e);
      assert OtherBridge(items[k], inst.name, counts);
    }
  }

  /** The vouched entry of an install of the team. */
  lemma TeamEntry(f: Files, w: Wiring, team: set<Install>, name: string) returns (e: Entry)
    requires Together(f, w, team) && HasInstall(team, name)
    ensures e.name == name && Vouched(f, w.binDir, e) && Provider(e) in ItemsAt(f, w.configFile)
  {
    var i :| i in team && i.name == name;
    assert HasEntry(Live(f, w), i.name);
    e :| e in Live(f, w) && e.name == name;
    LiveItems(f, w, e);
    LiveVouched(f, w, e);
  }

  lemma KeptNames(f: Files, own: Wiring, inst: Install, name: string)
    requires inst.Valid() && name != inst.name
    ensures name in KeptSiblings(f, own, inst) <==> KeptIn(f, own, name)
  {
    var items, all := DesiredAt(f, own, inst).items, Everyone();
    DesiredKeeps(f, own, inst, name);
    OtherBridgesAre(items, inst.name, all, name);
    if KeptIn(f, own, name) {
      var e :| Provider(e) in items && e.name == name;
      var k :| 0 <= k < |items| && items[k] == Provider(e);
      assert OtherBridge(items[k], inst.name, all);
    }
    if name in KeptSiblings(f, own, inst) {
      var k :| 0 <= k < |items| && OtherBridge(items[k], inst.name, all) && items[k].entry.name == name;
      assert Provider(items[k].entry) in items;
    }
  }

  /** A pass is free to move kubelet exactly when every other install has staged its files. */
  lemma BlockedUntilStaged(n: Node, prev: Wiring, dirs: Dirs, team: set<Install>, staged: set<Install>, inst: Install)
    requires Team(team) && Waiting(n, prev, dirs, team, staged) && inst in team
    ensures BlockingInstalls(n.files, prev, dirs, inst) == [] <==> team - {inst} <= staged
  {
    var blocking := BlockingInstalls(n.files, prev, dirs, inst);
    if blocking == [] {
      forall j | j in team - {inst} ensures j in staged { BlocksUnlessStaged(n, prev, dirs, team, staged, inst, j); }
    } else {
      assert blocking[0] in blocking;
      var j := BlockerIsUnstaged(n, prev, dirs, team, staged, inst, blocking[0]);
      assert j in team - {inst};
    }
  }

  lemma BlocksUnlessStaged(n: Node, prev: Wiring, dirs: Dirs, team: set<Install>, staged: set<Install>, inst: Install, j: Install)
    requires Team(team) && Waiting(n, prev, dirs, team, staged) && inst in team && j in team && j != inst
    ensures j.name in BlockingInstalls(n.files, prev, dirs, inst) <==> j !in staged
  {
    assert StagedIf(n.files, dirs.Own(), j, j in staged);
    assert HasInstall(team, j.name);
    Blocks(n, prev, dirs, team, staged, inst, j.name);
  }

  lemma BlockerIsUnstaged(n: Node, prev: Wiring, dirs: Dirs, team: set<Install>, staged: set<Install>, inst: Install, name: string)
    returns (j: Install)
    requires Team(team) && Waiting(n, prev, dirs, team, staged) && inst in team && name in BlockingInstalls(n.files, prev, dirs, inst)
    ensures j in team && j != inst && j !in staged
  {
    Blocks(n, prev, dirs, team, staged, inst, name);
    j :| j in team && j.name == name;
    assert StagedIf(n.files, dirs.Own(), j, j in staged);
  }

  lemma Blocks(n: Node, prev: Wiring, dirs: Dirs, team: set<Install>, staged: set<Install>, inst: Install, name: string)
    requires Team(team) && Waiting(n, prev, dirs, team, staged) && inst in team
    ensures name in BlockingInstalls(n.files, prev, dirs, inst)
            <==> name != inst.name && HasInstall(team, name) && !KeptIn(n.files, dirs.Own(), name)
  {
    var others := OtherBridges(ItemsAt(n.files, prev.configFile), inst.name, Counts(n.files, prev, dirs, inst.name));
    NotAmongAre(others, KeptSiblings(n.files, dirs.Own(), inst), name);
    OthersAreTheTeam(n, prev, dirs, team, staged, inst, name);
    if name != inst.name { KeptNames(n.files, dirs.Own(), inst, name); }
  }

  /** Exactly who blocks, on any node: an install with an entry in the current config that
      counts, and no vouched entry in the config the pass would move to. In a config that a
      record claims, or in this install's own directory, only vouched entries count, so what
      someone planted there does not block. */
  lemma BlocksExactly(f: Files, current: Wiring, dirs: Dirs, inst: Install, name: string)
    requires inst.Valid()
    ensures name in BlockingInstalls(f, current, dirs, inst) <==>
              && name != inst.name && !KeptIn(f, dirs.Own(), name)
              && exists e :: Provider(e) in ItemsAt(f, current.configFile) && e.name == name && e.bridge
                   && ((WithinDir(current.configFile, dirs.configDir) || Claims(f, current.binDir, current.configFile))
                       ==> Vouched(f, current.binDir, e))
  {
    var items, counts := ItemsAt(f, current.configFile), Counts(f, current, dirs, inst.name);
    var others := OtherBridges(items, inst.name, counts);
    NotAmongAre(others, KeptSiblings(f, dirs.Own(), inst), name);
    OtherBridgesAre(items, inst.name, counts, name);
    if name != inst.name { KeptNames(f, dirs.Own(), inst, name); }
    if name in others {
      var k :| 0 <= k < |items| && OtherBridge(items[k], inst.name, counts) && items[k].entry.name == name;
      assert Provider(items[k].entry) in items;
    }
    if e :| Provider(e) in items && e.name == name && name != inst.name && e.bridge && counts(e) {
      var k :| 0 <= k < |items| && items[k] == Provider(e);
      assert OtherBridge(items[k], inst.name, counts);
    }
  }

  // ---- Staying and staging ---------------------------------------------------------------------

  /** What a pass on w changes: its own record and binary, and the config. */
  lemma PatchedFiles(f: Files, w: Wiring, inst: Install)
    requires inst.Valid() && !Refused(f, w.binDir, inst)
    ensures var g := Pass(f, w, inst, Finished);
            && SameBut(f, g, inst.name) && Vouched(g, w.binDir, inst.entry)
            && g.configs == f.configs[w.configFile := DesiredAt(f, w, inst)]
            && Provider(inst.entry) in DesiredAt(f, w, inst).items
  {
    DesiredHasOwn(f, w, inst);
  }

  lemma DesiredHasOwn(f: Files, w: Wiring, inst: Install)
    ensures Provider(inst.entry) in DesiredAt(f, w, inst).items
  {
    DesiredItems(f, w, inst);
    var items, sibling := ItemsAt(f, w.configFile), SiblingIn(f, w.binDir, inst.name);
    ComposedHasOwn(items, inst.entry, sibling);
    var out := Composed(items, inst.entry, sibling);
    var k :| 0 <= k < |out| && out[k] == inst.entry;
    assert Entries(out)[k] == Provider(inst.entry);
  }

  /** What staging changes. */
  lemma StagedFiles(f: Files, prev: Wiring, own: Wiring, inst: Install)
    requires inst.Valid() && !Refused(f, own.binDir, inst) && own != prev
    requires Vouched(f, prev.binDir, inst.entry)
    ensures var g := Staged(f, prev, own, inst);
            && SameBut(f, g, inst.name)
            && Vouched(g, prev.binDir, inst.entry) && Vouched(g, own.binDir, inst.entry)
            && (own.binDir == prev.binDir ==> g.records == f.records && g.binaries == f.binaries)
  {
  }

  lemma StagedConfig(f: Files, prev: Wiring, own: Wiring, inst: Install) returns (a: Files)
    requires inst.Valid() && !Refused(f, own.binDir, inst)
    ensures SameBut(f, a, inst.name) && a.configs == f.configs
    ensures Staged(f, prev, own, inst).configs ==
            if own.configFile != prev.configFile then f.configs[own.configFile := DesiredAt(a, own, inst)] else f.configs
  {
    a := if own.binDir != prev.binDir then Prepared(f, own, inst) else f;
  }

  lemma SameKept(f: Files, g: Files, w: Wiring, own: string, name: string)
    requires SameBut(f, g, own) && name != own && ItemsAt(f, w.configFile) == ItemsAt(g, w.configFile)
    ensures KeptIn(f, w, name) <==> KeptIn(g, w, name)
  {
    forall e: Entry | e.name == name ensures Vouched(f, w.binDir, e) == Vouched(g, w.binDir, e) {
      SameVouched(f, g, own, w.binDir, e);
    }
  }

  /** A config written by a pass keeps exactly the other installs it kept before. */
  lemma WrittenKeeps(f: Files, g: Files, w: Wiring, inst: Install, name: string)
    requires inst.Valid() && name != inst.name && SameBut(f, g, inst.name)
    requires w.configFile in g.configs && g.configs[w.configFile] == DesiredAt(f, w, inst)
    ensures KeptIn(g, w, name) <==> KeptIn(f, w, name)
  {
    DesiredItems(f, w, inst);
    DesiredKeeps(f, w, inst, name);
    forall e: Entry | e.name == name ensures Vouched(f, w.binDir, e) == Vouched(g, w.binDir, e) {
      SameVouched(f, g, inst.name, w.binDir, e);
    }
  }

  /** The other installs' entries in a sound config are the same after a pass on it, also as
      another bin dir sees them. */
  lemma PassedKeeps(f: Files, w: Wiring, dir: string, inst: Install, name: string)
    requires inst.Valid() && name != inst.name && Sound(f, w) && !Refused(f, w.binDir, inst)
    ensures var g := Pass(f, w, inst, Finished);
            KeptIn(g, Wiring(dir, w.configFile), name) <==> KeptIn(f, Wiring(dir, w.configFile), name)
  {
    var g, v := Pass(f, w, inst, Finished), Wiring(dir, w.configFile);
    PatchedFiles(f, w, inst);
    PassKeepsOthers(f, w, inst, Finished);
    forall e: Entry | e.name == name
      ensures Vouched(f, dir, e) == Vouched(g, dir, e)
      ensures Provider(e) in ItemsAt(f, w.configFile) <==> Provider(e) in ItemsAt(g, w.configFile)
    {
      SameVouched(f, g, inst.name, dir, e);
      InOthers(Live(f, w), inst.name, e);
      InOthers(Live(g, w), inst.name, e);
      LiveItems(f, w, e);
      LiveItems(g, w, e);
    }
  }

  lemma SameButTrans(f: Files, g: Files, h: Files, name: string)
    requires SameBut(f, g, name) && SameBut(g, h, name)
    ensures SameBut(f, h, name) && SameBut(h, f, name)
  {
  }

  /** Staying keeps, in the new directories, exactly the other installs that were there. */
  lemma StayKeepsNew(f: Files, prev: Wiring, own: Wiring, inst: Install, name: string)
    requires inst.Valid() && Sound(f, prev) && own != prev && name != inst.name
    requires !Refused(f, prev.binDir, inst) && !Refused(Pass(f, prev, inst, Finished), own.binDir, inst)
    ensures KeptIn(Staged(Pass(f, prev, inst, Finished), prev, own, inst), own, name) <==> KeptIn(f, own, name)
  {
    var g := Pass(f, prev, inst, Finished);
    var h := Staged(g, prev, own, inst);
    PatchedFiles(f, prev, inst);
    StagedFiles(g, prev, own, inst);
    var a := StagedConfig(g, prev, own, inst);
    if own.configFile == prev.configFile {
      PassedKeeps(f, prev, own.binDir, inst, name);
      SameKept(g, h, own, inst.name, name);
    } else {
      SameKept(f, g, own, inst.name, name);
      RewrittenKeeps(g, a, h, own, inst, name);
    }
  }

  lemma RewrittenKeeps(g: Files, a: Files, h: Files, own: Wiring, inst: Install, name: string)
    requires inst.Valid() && name != inst.name && SameBut(g, a, inst.name) && SameBut(g, h, inst.name) && a.configs == g.configs
    requires own.configFile in h.configs && h.configs[own.configFile] == DesiredAt(a, own, inst)
    ensures KeptIn(h, own, name) <==> KeptIn(g, own, name)
  {
    SameKept(g, a, own, inst.name, name);
    SameButTrans(g, a, a, inst.name);
    SameButTrans(a, g, h, inst.name);
    WrittenKeeps(a, h, own, inst, name);
  }

  /** Staging leaves the config kubelet reads, and what vouches for it, alone. */
  lemma StayKeepsOld(f: Files, prev: Wiring, own: Wiring, inst: Install)
    requires inst.Valid() && Sound(f, prev) && own != prev
    requires !Refused(f, prev.binDir, inst) && !Refused(Pass(f, prev, inst, Finished), own.binDir, inst)
    ensures var h := Staged(Pass(f, prev, inst, Finished), prev, own, inst);
            && Sound(h, prev) && inst.entry in Live(h, prev)
            && OthersIn(Live(h, prev), inst.name) == OthersIn(Live(f, prev), inst.name)
  {
    var g := Pass(f, prev, inst, Finished);
    var h := Staged(g, prev, own, inst);
    AfterSound(f, prev, inst, 4);
    PassKeepsOthers(f, prev, inst, Finished);
    PatchedFiles(f, prev, inst);
    StagedFiles(g, prev, own, inst);
    var a := StagedConfig(g, prev, own, inst);
    SoundThere(g, h, prev, inst);
  }

  /** A sound config stays sound when only this install's files change and its entry stays
      vouched for. */
  lemma SoundThere(g: Files, h: Files, w: Wiring, inst: Install)
    requires Sound(g, w) && inst.entry in Live(g, w) && SameBut(g, h, inst.name) && Vouched(h, w.binDir, inst.entry)
    requires inst.entry.name == inst.name && w.configFile in g.configs && w.configFile in h.configs
    requires h.configs[w.configFile] == g.configs[w.configFile]
    ensures Sound(h, w) && Live(h, w) == Live(g, w)
  {
    forall e | e in Live(g, w) ensures Vouched(h, w.binDir, e) {
      LiveVouched(g, w, e);
      if e.name != inst.name {
        SameVouched(g, h, inst.name, w.binDir, e);
      } else {
        OnlyOneOfAName(g, w, e, inst.entry);
      }
    }
  }

  lemma OnlyOneOfAName(f: Files, w: Wiring, d: Entry, e: Entry)
    requires Sound(f, w) && d in Live(f, w) && e in Live(f, w) && d.name == e.name
    ensures d == e
  {
    var es := Live(f, w);
    var i :| 0 <= i < |es| && es[i] == d;
    var j :| 0 <= j < |es| && es[j] == e;
  }

  /** Staging puts this install's entry into the new directories. */
  lemma StayAddsOwn(f: Files, prev: Wiring, own: Wiring, inst: Install)
    requires inst.Valid() && own != prev
    requires !Refused(f, prev.binDir, inst) && !Refused(Pass(f, prev, inst, Finished), own.binDir, inst)
    ensures var h := Staged(Pass(f, prev, inst, Finished), prev, own, inst);
            KeptIn(h, own, inst.name) && !Refused(h, own.binDir, inst)
  {
    var g := Pass(f, prev, inst, Finished);
    var h := Staged(g, prev, own, inst);
    PatchedFiles(f, prev, inst);
    StagedFiles(g, prev, own, inst);
    var a := StagedConfig(g, prev, own, inst);
    DesiredHasOwn(a, own, inst);
    DesiredItems(a, own, inst);
    assert Provider(inst.entry) in ItemsAt(h, own.configFile);
  }

  lemma SameRefused(f: Files, g: Files, name: string, dir: string, inst: Install)
    requires SameBut(f, g, name) && inst.name != name
    ensures Refused(f, dir, inst) == Refused(g, dir, inst)
  {
    var p := Place(dir, inst.name);
    assert p.name != name;
  }

  lemma PassedNotRefused(f: Files, prev: Wiring, dir: string, inst: Install)
    requires inst.Valid() && !Refused(f, prev.binDir, inst) && !Refused(f, dir, inst)
    ensures !Refused(Pass(f, prev, inst, Finished), dir, inst)
  {
  }

  // ---- Every pass ------------------------------------------------------------------------------

  lemma AutoStays(n: Node, prev: Wiring, dirs: Dirs, inst: Install)
    requires n.running == Some(prev) && inst.name in n.patched && n.patched[inst.name] == prev && prev != dirs.Own()
    requires BlockingInstalls(n.files, prev, dirs, inst) != [] && !StageRefused(prev, dirs) && !Refused(n.files, prev.binDir, inst)
    ensures ResolvesToPatch(n, dirs, inst)
    ensures AutoPass(n, dirs, inst)
            == Node(Staged(Pass(n.files, prev, inst, Finished), prev, dirs.Own(), inst), Some(prev), n.patched[inst.name := prev])
  {
  }

  lemma AutoMoves(n: Node, prev: Wiring, dirs: Dirs, inst: Install)
    requires n.running == Some(prev) && inst.name in n.patched && n.patched[inst.name] == prev && prev != dirs.Own()
    requires BlockingInstalls(n.files, prev, dirs, inst) == [] && !Refused(n.files, dirs.Own().binDir, inst)
    ensures ResolvesToPatch(n, dirs, inst)
    ensures AutoPass(n, dirs, inst)
            == Node(Pass(n.files, dirs.Own(), inst, Finished), Some(dirs.Own()), n.patched[inst.name := dirs.Own()])
  {
  }

  /** The new directories after an earlier pass, for one install. */
  lemma StayNew(f: Files, prev: Wiring, own: Wiring, inst: Install, i: Install, staged: bool)
    requires inst.Valid() && Sound(f, prev) && own != prev && (i.name == inst.name ==> i == inst)
    requires !Refused(f, prev.binDir, inst) && !Refused(f, own.binDir, inst) && StagedIf(f, own, i, staged)
    ensures StagedIf(Staged(Pass(f, prev, inst, Finished), prev, own, inst), own, i, staged || i == inst)
  {
    var g := Pass(f, prev, inst, Finished);
    PassedNotRefused(f, prev, own.binDir, inst);
    if i == inst {
      StayAddsOwn(f, prev, own, inst);
    } else {
      StayKeepsNew(f, prev, own, inst, i.name);
      PatchedFiles(f, prev, inst);
      StagedFiles(g, prev, own, inst);
      SameButTrans(f, g, Staged(g, prev, own, inst), inst.name);
      SameRefused(f, Staged(g, prev, own, inst), inst.name, own.binDir, i);
    }
  }

  lemma StayNews(f: Files, prev: Wiring, own: Wiring, team: set<Install>, staged: set<Install>, inst: Install)
    requires Team(team) && Sound(f, prev) && StagedAre(f, own, team, staged) && inst in team
    requires own != prev && !Refused(f, prev.binDir, inst)
    ensures StagedAre(Staged(Pass(f, prev, inst, Finished), prev, own, inst), own, team, staged + {inst})
  {
    var h := Staged(Pass(f, prev, inst, Finished), prev, own, inst);
    assert StagedIf(f, own, inst, inst in staged);
    forall i | i in team ensures StagedIf(h, own, i, i in staged + {inst}) {
      assert StagedIf(f, own, i, i in staged);
      StayNew(f, prev, own, inst, i, i in staged);
    }
  }

  /** An earlier pass: kubelet stays, and this install has staged its files. */
  lemma StayStep(n: Node, prev: Wiring, dirs: Dirs, team: set<Install>, staged: set<Install>, inst: Install)
    requires Team(team) && Waiting(n, prev, dirs, team, staged) && inst in team
    requires dirs.Own() != prev && !StageRefused(prev, dirs) && !(team - {inst} <= staged)
    ensures ResolvesToPatch(n, dirs, inst) && Waiting(AutoPass(n, dirs, inst), prev, dirs, team, staged + {inst})
  {
    var f, own := n.files, dirs.Own();
    assert BlockingInstalls(f, prev, dirs, inst) != [] by { BlockedUntilStaged(n, prev, dirs, team, staged, inst); }
    NotRefused(f, prev, team, inst);
    AutoStays(n, prev, dirs, inst);
    var m := AutoPass(n, dirs, inst);
    StayFiles(f, prev, own, team, inst) by { PassedNotRefused(f, prev, own.binDir, inst); }
    StayNews(f, prev, own, team, staged, inst);
    StillWaiting(n, m, prev, dirs, team, staged, inst);
  }

  lemma StillWaiting(n: Node, m: Node, prev: Wiring, dirs: Dirs, team: set<Install>, staged: set<Install>, inst: Install)
    requires Team(team) && Waiting(n, prev, dirs, team, staged) && inst in team
    requires m.running == Some(prev) && m.patched == n.patched[inst.name := prev] && Together(m.files, prev, team)
    requires OnlyTeam(Live(m.files, prev), team) && StagedAre(m.files, dirs.Own(), team, staged + {inst})
    ensures Waiting(m, prev, dirs, team, staged + {inst})
  {
  }

  lemma StayFiles(f: Files, prev: Wiring, own: Wiring, team: set<Install>, inst: Install)
    requires Team(team) && Together(f, prev, team) && OnlyTeam(Live(f, prev), team) && inst in team && own != prev
    requires !Refused(f, prev.binDir, inst) && !Refused(Pass(f, prev, inst, Finished), own.binDir, inst)
    ensures var h := Staged(Pass(f, prev, inst, Finished), prev, own, inst);
            SameBut(f, h, inst.name) && Together(h, prev, team) && OnlyTeam(Live(h, prev), team)
  {
    var g := Pass(f, prev, inst, Finished);
    var h := Staged(g, prev, own, inst);
    StayKeepsOld(f, prev, own, inst);
    PatchedFiles(f, prev, inst);
    StagedFiles(g, prev, own, inst);
    SameButTrans(f, g, h, inst.name);
    SameAllIn(Live(f, prev), Live(h, prev), team, inst);
    SameOnlyTeam(Live(f, prev), Live(h, prev), team, inst);
  }

  /** A config with the same other entries and this install's has the same installs in it. */
  lemma SameAllIn(es: seq<Entry>, out: seq<Entry>, team: set<Install>, inst: Install)
    requires AllIn(es, team) && inst.Valid() && inst.entry in out && OthersIn(out, inst.name) == OthersIn(es, inst.name)
    ensures AllIn(out, team)
  {
    forall i | i in team ensures HasEntry(out, i.name) {
      assert HasEntry(es, i.name);
      if i.name == inst.name {
        assert inst.entry.name == i.name;
      } else {
        var e :| e in es && e.name == i.name;
        InOthers(es, inst.name, e);
        InOthers(out, inst.name, e);
      }
    }
  }

  lemma SameOnlyTeam(es: seq<Entry>, out: seq<Entry>, team: set<Install>, inst: Install)
    requires OnlyTeam(es, team) && inst in team && OthersIn(out, inst.name) == OthersIn(es, inst.name)
    ensures OnlyTeam(out, team)
  {
    forall e | e in out ensures HasInstall(team, e.name) {
      if e.name == inst.name {
        assert inst in team && inst.name == e.name;
      } else {
        InOthers(es, inst.name, e);
        InOthers(out, inst.name, e);
      }
    }
  }

  /** The pass of the last install: kubelet moves, with everyone. */
  lemma MoveStep(n: Node, prev: Wiring, dirs: Dirs, team: set<Install>, staged: set<Install>, inst: Install)
    requires Team(team) && Waiting(n, prev, dirs, team, staged) && inst in team
    requires dirs.Own() != prev && team - {inst} <= staged
    ensures ResolvesToPatch(n, dirs, inst) && Moved(AutoPass(n, dirs, inst), dirs, team)
  {
    var f, own := n.files, dirs.Own();
    assert BlockingInstalls(f, prev, dirs, inst) == [] by { BlockedUntilStaged(n, prev, dirs, team, staged, inst); }
    assert StagedIf(f, own, inst, inst in staged);
    AutoMoves(n, prev, dirs, inst);
    var g := Pass(f, own, inst, Finished);
    WrittenIsVouched(f, own, inst);
    forall i | i in team ensures HasEntry(Live(g, own), i.name) {
      if i == inst {
        assert inst.entry.name == i.name;
      } else {
        assert i in team - {inst} && StagedIf(f, own, i, true);
        MovesWith(f, own, inst, i.name);
      }
    }
  }

  /** A pass on the new directories takes a staged install along. */
  lemma MovesWith(f: Files, own: Wiring, inst: Install, name: string)
    requires inst.Valid() && !Refused(f, own.binDir, inst) && name != inst.name && KeptIn(f, own, name)
    ensures HasEntry(Live(Pass(f, own, inst, Finished), own), name)
  {
    var g := Pass(f, own, inst, Finished);
    DesiredKeeps(f, own, inst, name);
    DesiredItems(f, own, inst);
    var e :| Provider(e) in DesiredAt(f, own, inst).items && e.name == name;
    LiveItems(g, own, e);
  }

  /** Later passes stay there. */
  lemma MovedStep(n: Node, dirs: Dirs, team: set<Install>, inst: Install)
    requires Team(team) && Moved(n, dirs, team) && inst in team
    ensures ResolvesToPatch(n, dirs, inst) && Moved(AutoPass(n, dirs, inst), dirs, team)
  {
    var f, own := n.files, dirs.Own();
    NotRefused(f, own, team, inst);
    AfterSound(f, own, inst, 4);
    PassKeepsOthers(f, own, inst, Finished);
    SameAllIn(Live(f, own), Live(Pass(f, own, inst, Finished), own), team, inst);
  }

  // ---- Any order ---------------------------------------------------------------------------------

  ghost predicate Members(order: seq<Install>, team: set<Install>) {
    forall k :: 0 <= k < |order| ==> order[k] in team
  }

  function Passed(order: seq<Install>): set<Install> { set k | 0 <= k < |order| :: order[k] }

  /** One auto pass after another. */
  ghost function AutoPasses(n: Node, dirs: Dirs, order: seq<Install>): Option<Node> {
    if order == [] then Some(n)
    else
      var before := AutoPasses(n, dirs, order[..|order| - 1]);
      var inst := order[|order| - 1];
      if before.Some? && ResolvesToPatch(before.value, dirs, inst) then Some(AutoPass(before.value, dirs, inst)) else None
  }

  /** The state after some passes: moved once every install has had one. */
  ghost predicate OnTheWay(n: Node, prev: Wiring, dirs: Dirs, team: set<Install>, passed: set<Install>) {
    if passed == team then Moved(n, dirs, team) else Waiting(n, prev, dirs, team, passed)
  }

  lemma PassOnTheWay(n: Node, prev: Wiring, dirs: Dirs, team: set<Install>, passed: set<Install>, inst: Install)
    requires Team(team) && passed <= team && inst in team && OnTheWay(n, prev, dirs, team, passed)
    requires dirs.Own() != prev && !StageRefused(prev, dirs)
    ensures ResolvesToPatch(n, dirs, inst) && OnTheWay(AutoPass(n, dirs, inst), prev, dirs, team, passed + {inst})
  {
    if passed == team {
      assert passed + {inst} == team;
      MovedStep(n, dirs, team, inst);
    } else if team - {inst} <= passed {
      assert passed + {inst} == team;
      MoveStep(n, prev, dirs, team, passed, inst);
    } else {
      var j :| j in team - {inst} && j !in passed;
      assert j !in passed + {inst};
      StayStep(n, prev, dirs, team, passed, inst);
    }
  }

  /** Patch installs on the same directories each run auto passes with the same new ones, in
      any order and any number of times. Kubelet stays on the old config, with the entries of
      all of them, until every install has had a pass; the pass that completes them moves it,
      and from then on it is on the new config with the entries, binaries and records of all. */
  lemma LastPassMoves(n: Node, prev: Wiring, dirs: Dirs, team: set<Install>, order: seq<Install>)
    requires Team(team) && team != {} && Members(order, team)
    requires dirs.Own() != prev && !StageRefused(prev, dirs) && Waiting(n, prev, dirs, team, {})
    ensures AutoPasses(n, dirs, order).Some? && Passed(order) <= team
    ensures var after := AutoPasses(n, dirs, order).value;
            if Passed(order) == team then Moved(after, dirs, team) else Waiting(after, prev, dirs, team, Passed(order))
  {
    PassesOnTheWay(n, prev, dirs, team, order);
  }

  ghost predicate Reaches(n: Node, prev: Wiring, dirs: Dirs, team: set<Install>, order: seq<Install>) {
    var after := AutoPasses(n, dirs, order);
    after.Some? && Passed(order) <= team && OnTheWay(after.value, prev, dirs, team, Passed(order))
  }

  lemma {:induction false} PassesOnTheWay(n: Node, prev: Wiring, dirs: Dirs, team: set<Install>, order: seq<Install>)
    requires Team(team) && Members(order, team) && OnTheWay(n, prev, dirs, team, {})
    requires dirs.Own() != prev && !StageRefused(prev, dirs)
    ensures Reaches(n, prev, dirs, team, order)
  {
    if order == [] {
      assert Passed(order) == {};
    } else {
      var front, inst := order[..|order| - 1], order[|order| - 1];
      assert order == front + [inst];
      PassesOnTheWay(n, prev, dirs, team, front);
      NextOnTheWay(n, prev, dirs, team, front, inst);
    }
  }

  lemma NextOnTheWay(n: Node, prev: Wiring, dirs: Dirs, team: set<Install>, front: seq<Install>, inst: Install)
    requires Team(team) && inst in team && Reaches(n, prev, dirs, team, front)
    requires dirs.Own() != prev && !StageRefused(prev, dirs)
    ensures Reaches(n, prev, dirs, team, front + [inst])
  {
    PassOnTheWay(AutoPasses(n, dirs, front).value, prev, dirs, team, Passed(front), inst);
    PassedSnoc(front, inst);
    AutoSnoc(n, dirs, front, inst);
  }

  lemma AutoSnoc(n: Node, dirs: Dirs, front: seq<Install>, inst: Install)
    requires AutoPasses(n, dirs, front).Some? && ResolvesToPatch(AutoPasses(n, dirs, front).value, dirs, inst)
    ensures AutoPasses(n, dirs, front + [inst]) == Some(AutoPass(AutoPasses(n, dirs, front).value, dirs, inst))
  {
    assert (front + [inst])[..|front|] == front;
  }

  lemma PassedSnoc(front: seq<Install>, inst: Install)
    ensures Passed(front + [inst]) == Passed(front) + {inst}
  {
    var all := front + [inst];
    forall i ensures i in Passed(all) <==> i in Passed(front) + {inst} {
      if i in Passed(front) {
        var k :| 0 <= k < |front| && front[k] == i;
        assert all[k] == i;
      }
      assert all[|front|] == inst;
    }
  }

  // ---- The installer ---------------------------------------------------------------------------

  lemma NotAmongNext(names: seq<string>, i: nat, kept: seq<string>, rest: seq<string>)
    requires i < |names|
    ensures rest + NotAmong(names[i..], kept)
            == (if names[i] in kept then rest else rest + [names[i]]) + NotAmong(names[i + 1..], kept)
  {
    assert names[i..][0] == names[i] && names[i..][1..] == names[i + 1..];
    if names[i] !in kept { Assoc(rest, [names[i]], NotAmong(names[i + 1..], kept)); }
  }

  method DeleteKept(names: seq<string>, kept: seq<string>) returns (rest: seq<string>)
    ensures rest == NotAmong(names, kept)
  {
    rest := [];
    for i := 0 to |names|
      invariant NotAmong(names, kept) == rest + NotAmong(names[i..], kept)
    {
      NotAmongNext(names, i, kept, rest);
      if names[i] !in kept {
        rest := rest + [names[i]];
      }
    }
  }

  /** The node as passes change it. */
  class Machine {
    const host: Host
    var running: Option<Wiring>
    var patched: map<string, Wiring>

    function Now(): Node
      reads this, host
    {
      Node(host.Now(), running, patched)
    }

    constructor (host: Host)
      ensures this.host == host && running == None && patched == map[]
    {
      this.host, running, patched := host, None, map[];
    }

    method Blocking(current: Wiring, dirs: Dirs, inst: Install) returns (rest: seq<string>)
      ensures rest == BlockingInstalls(host.Now(), current, dirs, inst)
    {
      var f := host.Now();
      var others := OtherBridgeProviders(ItemsAt(f, current.configFile), inst.name, Counts(f, current, dirs, inst.name));
      var kept := OtherBridgeProviders(DesiredAt(f, dirs.Own(), inst).items, inst.name, Everyone());
      rest := DeleteKept(others, kept);
    }

    method RunPatchOn(w: Wiring, inst: Install) returns (ok: bool)
      modifies this, host
      ensures Now() == Patched(old(Now()), w, inst)
      ensures ok <==> !Refused(old(host.Now()), w.binDir, inst)
    {
      ok := host.RunPass(w, inst, Finished);
      if ok {
        running, patched := Some(w), patched[inst.name := w];
      }
    }

    method StageOwnFiles(prev: Wiring, own: Wiring, inst: Install)
      modifies host
      ensures host.Now() == Staged(old(host.Now()), prev, own, inst)
    {
      var at := Place(own.binDir, inst.name);
      var moved := own.binDir != prev.binDir;
      if moved {
        if Refused(host.Now(), own.binDir, inst) { return; }
        var _ := host.BeginRecord(at, inst.entry, own.configFile);
        host.binaries := host.binaries[at := Binary(inst.plugin, true)];
      }
      if own.configFile != prev.configFile {
        host.configs := host.configs[own.configFile := DesiredAt(host.Now(), own, inst)];
      }
      if moved {
        host.CommitRecord(at, inst.entry, own.configFile);
      }
    }

    method RunAuto(dirs: Dirs, inst: Install)
      requires ResolvesToPatch(Now(), dirs, inst)
      modifies this, host
      ensures Now() == AutoPass(old(Now()), dirs, inst)
    {
      var own := dirs.Own();
      if running.None? || running.value == own {
        var _ := RunPatchOn(own, inst);
        return;
      }
      var prev := running.value;
      var others := Blocking(prev, dirs, inst);
      if others == [] {
        var _ := RunPatchOn(own, inst);
      } else if !StageRefused(prev, dirs) {
        var ok := RunPatchOn(prev, inst);
        if ok {
          StageOwnFiles(prev, own, inst);
        }
      }
    }
  }
}

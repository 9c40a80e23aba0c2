/** The node files that installs share, and what one install pass writes to them
    (installer/record.go, installer/run.go). */
module NodeFiles {
  import opened ProviderConfig

  /** An install's record: the entries it may have in the config, and the chart-owned config
      it writes to. One that cannot be parsed vouches for nothing. */
  datatype Record = Unreadable | Record(entries: seq<Entry>, chartOwned: string)

  datatype Binary = Binary(bytes: string, executable: bool)

  /** An install's files in a bin dir. */
  datatype Place = Place(dir: string, name: string)

  /** Kubelet's two credential-provider flags. */
  datatype Wiring = Wiring(binDir: string, configFile: string)

  datatype Files = Files(configs: map<string, Doc>, records: map<Place, Record>, binaries: map<Place, Binary>)

  /** One install of the chart: its provider name, its rendered entry, the rest of the
      rendered config, and the plugin it copies. */
  datatype Install = Install(name: string, entry: Entry, header: string, plugin: string) {
    /** What a pass checks before it does anything. */
    predicate Valid() { ValidName(name) && entry.name == name && entry.bridge }
  }

  const DEFAULT_NAME := "harbor-bridge-plugin"

  predicate Holds(r: Record, e: Entry) { r.Record? && e in r.entries }

  /** An entry that another installer wrote: a bridge entry with a valid name, next to its
      binary, held by its record. */
  predicate Vouched(f: Files, dir: string, e: Entry) {
    var at := Place(dir, e.name);
    && ValidName(e.name) && e.bridge
    && at in f.binaries && f.binaries[at].executable
    && at in f.records && Holds(f.records[at], e)
  }

  /** Whether an entry is another install's and stays. */
  function SiblingIn(f: Files, dir: string, own: string): Entry -> bool {
    (e: Entry) => e.name != own && Vouched(f, dir, e)
  }

  function RecordOf(f: Files, at: Place): Record {
    if at in f.records then f.records[at] else Unreadable
  }

  /** The record before the config is written: what it held, and the new entry. */
  function Begun(f: Files, at: Place, e: Entry, claim: string): Record {
    var held := if RecordOf(f, at).Record? then RecordOf(f, at).entries else [];
    Record(if e in held then held else held + [e], claim)
  }

  function Committed(e: Entry, claim: string): Record { Record([e], claim) }

  /** The content the config must have after this install's pass. */
  function DesiredAt(f: Files, w: Wiring, inst: Install): Doc {
    if w.configFile !in f.configs then Doc(inst.header, [Provider(inst.entry)])
    else Desired(f.configs[w.configFile], inst.header, inst.entry, SiblingIn(f, w.binDir, inst.name))
  }

  /** A file of another program stands where the plugin belongs. */
  predicate Refused(f: Files, dir: string, inst: Install) {
    var at := Place(dir, inst.name);
    && inst.name != DEFAULT_NAME && at !in f.records
    && at in f.binaries && f.binaries[at].bytes != inst.plugin
  }

  // ---- Writes ------------------------------------------------------------------------------

  datatype Write =
    | SetRecord(at: Place, record: Record)
    | SetBinary(at: Place, binary: Binary)
    | SetConfig(path: string, doc: Doc)
    | RemoveConfig(path: string)

  function Apply(f: Files, w: Write): Files {
    match w
    case SetRecord(at, r) => f.(records := f.records[at := r])
    case SetBinary(at, b) => f.(binaries := f.binaries[at := b])
    case SetConfig(path, doc) => f.(configs := f.configs[path := doc])
    case RemoveConfig(path) => f.(configs := f.configs - {path})
  }

  function ApplyAll(f: Files, ws: seq<Write>): Files
    decreases |ws|
  {
    if ws == [] then f else ApplyAll(Apply(f, ws[0]), ws[1..])
  }

  /** The writes of a pass, in order: record, binary, config, record. */
  function PassWrites(f: Files, w: Wiring, inst: Install): seq<Write> {
    var at := Place(w.binDir, inst.name);
    [ SetRecord(at, Begun(f, at, inst.entry, w.configFile)),
      SetBinary(at, Binary(inst.plugin, true)),
      SetConfig(w.configFile, DesiredAt(f, w, inst)),
      SetRecord(at, Committed(inst.entry, w.configFile)) ]
  }

  /** Puts the config back as the pass found it. */
  function RestoreConfig(f: Files, path: string): Write {
    if path in f.configs then SetConfig(path, f.configs[path]) else RemoveConfig(path)
  }

  /** How a pass ends: after some number of writes, after all of them, or with a rollback,
      whose steps run in order, each whether or not the one before it failed. */
  datatype Ending = Stopped(after: nat) | Finished | RolledBack(record: bool, config: bool)

  function Writes(f: Files, w: Wiring, inst: Install, ending: Ending): seq<Write> {
    var ws, at := PassWrites(f, w, inst), Place(w.binDir, inst.name);
    if Refused(f, w.binDir, inst) then []
    else
      match ending
      case Stopped(k) => if k < |ws| then ws[..k] else ws
      case Finished => ws
      case RolledBack(record, config) =>
        ws
        + (if record then [SetRecord(at, Begun(f, at, inst.entry, w.configFile))] else [])
        + (if config then [RestoreConfig(f, w.configFile)] else [])
  }

  // ---- The files a pass leaves ---------------------------------------------------------------

  lemma {:induction false} ApplyConcat(f: Files, a: seq<Write>, b: seq<Write>)
    ensures ApplyAll(f, a + b) == ApplyAll(ApplyAll(f, a), b)
    decreases |a|
  {
    if a == [] {
      assert a + b == b;
    } else {
      assert (a + b)[1..] == a[1..] + b;
      ApplyConcat(Apply(f, a[0]), a[1..], b);
    }
  }

  lemma ApplyOne(f: Files, w: Write)
    ensures ApplyAll(f, [w]) == Apply(f, w)
  {
    assert [w][1..] == [];
  }

  /** The files after the first k writes of a pass. */
  function After(f: Files, w: Wiring, inst: Install, k: nat): Files {
    var at := Place(w.binDir, inst.name);
    Files(
      if k < 3 then f.configs else f.configs[w.configFile := DesiredAt(f, w, inst)],
      if k < 1 then f.records
      else f.records[at := if k < 4 then Begun(f, at, inst.entry, w.configFile) else Committed(inst.entry, w.configFile)],
      if k < 2 then f.binaries else f.binaries[at := Binary(inst.plugin, true)])
  }

  lemma {:induction false} PrefixFiles(f: Files, w: Wiring, inst: Install, k: nat)
    requires k <= 4
    ensures ApplyAll(f, PassWrites(f, w, inst)[..k]) == After(f, w, inst, k)
  {
    var ws := PassWrites(f, w, inst);
    if k > 0 {
      PrefixFiles(f, w, inst, k - 1);
      assert ws[..k] == ws[..k - 1] + [ws[k - 1]];
      ApplyConcat(f, ws[..k - 1], [ws[k - 1]]);
      ApplyOne(After(f, w, inst, k - 1), ws[k - 1]);
    }
  }

  /** The files after a rollback. */
  function Undone(f: Files, w: Wiring, inst: Install, record: bool, config: bool): Files {
    var at, done := Place(w.binDir, inst.name), After(f, w, inst, 4);
    Files(
      if config then f.configs else done.configs,
      if record then f.records[at := Begun(f, at, inst.entry, w.configFile)] else done.records,
      done.binaries)
  }

  lemma RestoreIsExact(f: Files, path: string, doc: Doc, g: Files)
    requires g.configs == f.configs[path := doc]
    ensures Apply(g, RestoreConfig(f, path)) == g.(configs := f.configs)
  {
    assert f.configs[path := doc] - {path} == f.configs - {path};
    if path !in f.configs { assert f.configs - {path} == f.configs; }
  }

  lemma UndoneFiles(f: Files, w: Wiring, inst: Install, record: bool, config: bool)
    requires !Refused(f, w.binDir, inst)
    ensures ApplyAll(f, Writes(f, w, inst, RolledBack(record, config))) == Undone(f, w, inst, record, config)
  {
    var at, ws := Place(w.binDir, inst.name), PassWrites(f, w, inst);
    var r := SetRecord(at, Begun(f, at, inst.entry, w.configFile));
    var a, b := if record then [r] else [], if config then [RestoreConfig(f, w.configFile)] else [];
    assert ws[..4] == ws;
    PrefixFiles(f, w, inst, 4);
    var done := After(f, w, inst, 4);
    ApplyConcat(f, ws + a, b);
    ApplyConcat(f, ws, a);
    var mid := if record then Apply(done, r) else done;
    assert ApplyAll(done, a) == mid by { ApplyOne(done, r); }
    RestoreIsExact(f, w.configFile, DesiredAt(f, w, inst), mid);
    ApplyOne(mid, RestoreConfig(f, w.configFile));
  }

  /** The files a pass leaves. */
  function Pass(f: Files, w: Wiring, inst: Install, ending: Ending): Files {
    if Refused(f, w.binDir, inst) then f
    else
      match ending
      case Stopped(k) => After(f, w, inst, if k < 4 then k else 4)
      case Finished => After(f, w, inst, 4)
      case RolledBack(record, config) => Undone(f, w, inst, record, config)
  }

  /** That is the effect of the writes up to where the pass ended. */
  lemma PassIsItsWrites(f: Files, w: Wiring, inst: Install, ending: Ending)
    ensures Pass(f, w, inst, ending) == ApplyAll(f, Writes(f, w, inst, ending))
  {
    var ws := PassWrites(f, w, inst);
    assert ws[..4] == ws;
    if !Refused(f, w.binDir, inst) {
      match ending
      case Stopped(k) => PrefixFiles(f, w, inst, if k < 4 then k else 4);
      case Finished => PrefixFiles(f, w, inst, 4);
      case RolledBack(record, config) => UndoneFiles(f, w, inst, record, config);
    }
  }

  // ---- The installer ---------------------------------------------------------------------

  /** The host's files, which passes change in place. */
  class Host {
    var configs: map<string, Doc>
    var records: map<Place, Record>
    var binaries: map<Place, Binary>

    function Now(): Files
      reads this
    {
      Files(configs, records, binaries)
    }

    method BeginRecord(at: Place, e: Entry, claim: string) returns (begun: Record)
      modifies this`records
      ensures begun == Begun(old(Now()), at, e, claim)
      ensures Now() == Apply(old(Now()), SetRecord(at, begun))
    {
      var entries := [];
      if at in records && records[at].Record? {
        entries := records[at].entries;
      }
      if e !in entries {
        entries := entries + [e];
      }
      begun := Record(entries, claim);
      records := records[at := begun];
    }

    method CommitRecord(at: Place, e: Entry, claim: string)
      modifies this`records
      ensures Now() == Apply(old(Now()), SetRecord(at, Committed(e, claim)))
    {
      records := records[at := Record([e], claim)];
    }

    /** Restores the record, then the config, each as far as its write succeeds. */
    method RollBack(at: Place, begun: Record, path: string, existed: bool, prior: Doc, record: bool, config: bool)
      modifies this`records, this`configs
      ensures records == if record then old(records)[at := begun] else old(records)
      ensures configs == if !config then old(configs)
                         else if existed then old(configs)[path := prior] else old(configs) - {path}
    {
      if record {
        records := records[at := begun];
      }
      if config {
        configs := if existed then configs[path := prior] else configs - {path};
      }
    }

    /** The writes of a pass, up to the first `stop`. */
    method WriteFiles(w: Wiring, inst: Install, desired: Doc, stop: nat) returns (begun: Record)
      requires desired == DesiredAt(Now(), w, inst)
      modifies this
      ensures begun == Begun(old(Now()), Place(w.binDir, inst.name), inst.entry, w.configFile)
      ensures Now() == After(old(Now()), w, inst, stop)
    {
      var at := Place(w.binDir, inst.name);
      ghost var start := records;
      begun := Begun(Now(), at, inst.entry, w.configFile);
      if stop == 0 { return; }
      begun := BeginRecord(at, inst.entry, w.configFile);
      if stop == 1 { return; }
      binaries := binaries[at := Binary(inst.plugin, true)];
      if stop == 2 { return; }
      configs := configs[w.configFile := desired];
      if stop == 3 { return; }
      CommitRecord(at, inst.entry, w.configFile);
      assert records == start[at := Committed(inst.entry, w.configFile)];
    }

    /** The pass of patch and none mode, and of merge mode into a chart-owned config, up to
        `ending`. */
    method RunPass(w: Wiring, inst: Install, ending: Ending) returns (ok: bool)
      modifies this
      ensures Now() == Pass(old(Now()), w, inst, ending)
      ensures ok <==> !Refused(old(Now()), w.binDir, inst) && (ending.Finished? || (ending.Stopped? && ending.after >= 4))
    {
      var at := Place(w.binDir, inst.name);
      var desired := DesiredAt(Now(), w, inst);
      if inst.name != DEFAULT_NAME && at !in records && at in binaries && binaries[at].bytes != inst.plugin {
        return false;
      }
      ghost var start := Now();
      var existed := w.configFile in configs;
      var prior := if existed then configs[w.configFile] else desired;
      var begun := WriteFiles(w, inst, desired, if ending.Stopped? then ending.after else 4);
      if ending.RolledBack? {
        RollBack(at, begun, w.configFile, existed, prior, ending.record, ending.config);
        assert ending.config ==> configs == start.configs;
        assert ending.record ==> records == start.records[at := begun];
      }
      return ending.Finished? || (ending.Stopped? && ending.after >= 4);
    }
  }
}

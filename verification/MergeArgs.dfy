/** mergeExtraArgs (installer/defaultkubelet.go): what systemd reads before and after. */
module MergeArgs {
  import opened Text
  import opened EnvFile
  import opened EnvLines
  import opened EnvValues
  import opened Flags
  import opened ExtraArgs

  // ---- The rewrite -------------------------------------------------------------------------

  /** A character of a node path. */
  predicate PathChar(c: char) {
    'a' <= c <= 'z' || 'A' <= c <= 'Z' || '0' <= c <= '9' || c == '.' || c == '_' || c == '/' || c == '-'
  }

  predicate NodePath(p: string) { p != "" && forall i :: 0 <= i < |p| ==> PathChar(p[i]) }

  function ArgsLine(args: seq<string>): string { KEY + "=" + InQuotes(Unwords(args)) }

  /** The assignments of KUBELET_EXTRA_ARGS. */
  function ExtraOf(found: seq<Assignment>): seq<Assignment> {
    if found == [] then []
    else (if found[0].key == KEY then [found[0]] else []) + ExtraOf(found[1..])
  }

  /** Go's strings.TrimSpace, as far as the front of the line matters: ASCII and Unicode
      white space in UTF-8. */
  function SpaceLength(s: string): (n: nat)
    ensures n <= |s|
  {
    if s == "" then 0
    else
      var a := s[0] as int;
      if a == 0x20 || 0x09 <= a <= 0x0D then 1
      else if |s| < 2 then 0
      else
        var b := s[1] as int;
        if a == 0xC2 && (b == 0x85 || b == 0xA0) then 2
        else if |s| < 3 then 0
        else
          var c := s[2] as int;
          if (a == 0xE1 && b == 0x9A && c == 0x80)
             || (a == 0xE2 && b == 0x80 && (0x80 <= c <= 0x8A || c == 0xA8 || c == 0xA9 || c == 0xAF))
             || (a == 0xE2 && b == 0x81 && c == 0x9F)
             || (a == 0xE3 && b == 0x80 && c == 0x80) then 3
          else 0
  }

  function TrimSpaceLeft(s: string): string
    decreases |s|
  {
    if SpaceLength(s) > 0 then TrimSpaceLeft(s[SpaceLength(s)..]) else s
  }

  function IndexOf(s: string, c: char): (i: nat)
    requires c in s
    ensures i < |s| && s[i] == c && c !in s[..i]
  {
    if s[0] == c then 0
    else
      var i := 1 + IndexOf(s[1..], c);
      assert s[..i] == [s[0]] + s[1..][..i - 1];
      i
  }

  predicate BareChar(c: char) { c != ' ' && c != '\t' && Plain(c) }

  predicate BareText(s: string) { s != "" && forall i :: 0 <= i < |s| ==> BareChar(s[i]) }

  /** A line that an earlier installer wrote: exactly the two flags, in its order and form. */
  predicate TwoFlagLine(line: string) { TwoPartLine(line, KEY + "=\"", BIN_DIR + "=", CONFIG + "=") }

  /** After a head and up to a closing quote: two parts, each with its own head. */
  predicate TwoPartLine(line: string, head: string, b: string, c: string) {
    HasPrefix(line, head) &&
    var value := line[|head|..];
    HasSuffix(value, "\"") &&
    var v := value[..|value| - 1];
    ' ' in v &&
    var i := IndexOf(v, ' ');
    HasPrefix(v[..i], b) && HasPrefix(v[i + 1..], c) &&
    BareText(v[..i][|b|..]) && BareText(v[i + 1..][|c|..])
  }

  predicate AppendedByEarlier(operator: Assignment, ours: Assignment, lines: seq<string>)
    requires operator.first < |lines| && ours.first < |lines|
  {
    && !HasPrefix(TrimSpaceLeft(lines[operator.first]), KEY + "=")
    && ours.first == ours.last && !ours.afterContinuedComment
    && TwoFlagLine(lines[ours.first])
  }

  function Without(lines: seq<string>, j: nat): seq<string>
    requires j < |lines|
  {
    lines[..j] + lines[j + 1..]
  }

  /** The words of the operator's line without the flags, or why it cannot be rewritten. */
  function LineWords(line: string, a: Assignment): Result<seq<string>> {
    if a.first != a.last then Err(Continues)
    else if a.afterContinuedComment then Err(AfterContinuedComment)
    else
      match Unquote(Trim(AfterEq(line)))
      case None => Err(Quoting)
      case Some(val) => Ok(Strip(Words(val)))
  }

  /** What to do to the file: add a line, or rewrite line `at` and perhaps drop another. */
  datatype Edit = Append | Rewrite(at: nat, words: seq<string>, drop: Option<nat>)

  predicate Fits(e: Edit, lines: seq<string>) {
    e.Rewrite? ==> e.at < |lines| && (e.drop.Some? ==> e.drop.value < |lines|)
  }

  function Plan(existing: string): (r: Result<Edit>)
    ensures r.Ok? ==> Fits(r.value, FileLines(existing))
  {
    match Parse(existing)
    case Err(why) => Err(why)
    case Ok(found) =>
      ExtraOnLines(existing);
      var lines, extra := FileLines(existing), ExtraOf(found);
      var repair := |extra| == 2 && AppendedByEarlier(extra[0], extra[1], lines);
      if |extra| > 1 && !repair then Err(Multiple)
      else if extra == [] then if OpenAtEnd(existing) then Err(Open) else Ok(Append)
      else
        match LineWords(lines[extra[0].first], extra[0])
        case Err(why) => Err(why)
        case Ok(words) =>
          if Ended(existing) != existing && OpenAtEnd(existing) then Err(Open)
          else Ok(Rewrite(extra[0].first, words, if repair then Some(extra[1].first) else None))
  }

  function Edited(lines: seq<string>, e: Edit, ours: seq<string>): seq<string>
    requires Fits(e, lines)
  {
    match e
    case Append => lines + [ArgsLine(ours)]
    case Rewrite(at, words, drop) =>
      var edited := lines[at := ArgsLine(words + ours)];
      if drop.Some? then Without(edited, drop.value) else edited
  }

  /** The whole of mergeExtraArgs: the new content, or why it is refused. */
  function Merge(existing: string, binDir: string, configFile: string): Result<string> {
    match Plan(existing)
    case Err(why) => Err(why)
    case Ok(e) =>
      Ok(Unlines(Edited(FileLines(existing), e, Ours(binDir, configFile))))
  }

  lemma {:induction false} ExtraIndex(found: seq<Assignment>, m: nat) returns (k: nat)
    requires m < |ExtraOf(found)|
    ensures k < |found| && found[k] == ExtraOf(found)[m] && found[k].key == KEY
    ensures m == |ExtraOf(found[..k])|
  {
    if found[0].key == KEY && m == 0 {
      k := 0;
    } else {
      var here := if found[0].key == KEY then 1 else 0;
      var i := ExtraIndex(found[1..], m - here);
      k := i + 1;
      assert found[..k][1..] == found[1..][..i];
    }
  }

  lemma ExtraOnLines(t: string)
    requires Parse(t).Ok?
    ensures forall m :: 0 <= m < |ExtraOf(Located(t))| ==> ExtraOf(Located(t))[m].first < |FileLines(t)|
  {
    ParseOk(t);
    forall m | 0 <= m < |ExtraOf(Located(t))| ensures ExtraOf(Located(t))[m].first < |FileLines(t)| {
      var k := ExtraIndex(Located(t), m);
      StartsOnALine(t, k);
    }
  }

  // ---- Two views of what is read -----------------------------------------------------------

  /** The assignments of other variables, in order. */
  function Others(ps: seq<Pair>): seq<Pair> {
    if ps == [] then [] else (if ps[0].key == KEY then [] else [ps[0]]) + Others(ps[1..])
  }

  /** The values KUBELET_EXTRA_ARGS is given, in order. */
  function ArgValues(ps: seq<Pair>): seq<string> {
    if ps == [] then [] else (if ps[0].key == KEY then [ps[0].value] else []) + ArgValues(ps[1..])
  }

  lemma {:induction false} ViewsConcat(a: seq<Pair>, b: seq<Pair>)
    ensures Others(a + b) == Others(a) + Others(b)
    ensures ArgValues(a + b) == ArgValues(a) + ArgValues(b)
  {
    if a == [] {
      assert a + b == b;
    } else {
      var p, rest := a[0], a[1..];
      assert (a + b)[0] == p && (a + b)[1..] == rest + b;
      ViewsConcat(rest, b);
      Assoc(if p.key == KEY then [] else [p], Others(rest), Others(b));
      Assoc(if p.key == KEY then [p.value] else [], ArgValues(rest), ArgValues(b));
    }
  }

  lemma ViewsOne(p: Pair)
    ensures Others([p]) == (if p.key == KEY then [] else [p])
    ensures ArgValues([p]) == (if p.key == KEY then [p.value] else [])
  {
    assert [p][1..] == [];
  }

  lemma {:induction false} ExtraValues(found: seq<Assignment>)
    ensures |ArgValues(PairsOf(found))| == |ExtraOf(found)|
    ensures forall m :: 0 <= m < |ExtraOf(found)| ==> ArgValues(PairsOf(found))[m] == ExtraOf(found)[m].value
  {
    if found != [] {
      assert PairsOf(found)[1..] == PairsOf(found[1..]);
      ExtraValues(found[1..]);
    }
  }

  /** Both views of a text with one line taken out of the middle. */
  lemma ReadAround(a: seq<string>, line: string, b: seq<string>, p: Pair)
    requires Run(PreKey, Unlines(a)).PreKey?
    requires Run(PreKey, line + "\n") == PreKey && Pairs(PreKey, line + "\n") == [p]
    ensures Read(Unlines(a + [line] + b)) == Read(Unlines(a)) + [p] + Read(Unlines(b))
    ensures Read(Unlines(a + b)) == Read(Unlines(a)) + Read(Unlines(b))
  {
    var ta, tl, tb := Unlines(a), line + "\n", Unlines(b);
    assert Unlines(a + [line] + b) == ta + (tl + tb) by {
      UnlinesAppend(a + [line], b);
      UnlinesAppend(a, [line]);
      UnlinesOne(line);
      assert ta + tl + tb == ta + (tl + tb);
    }
    assert Unlines(a + b) == ta + tb by { UnlinesAppend(a, b); }
    ReadParts(ta, tl, tb, p);
  }

  lemma ReadParts(ta: string, tl: string, tb: string, p: Pair)
    requires Run(PreKey, ta).PreKey? && Run(PreKey, tl) == PreKey && Pairs(PreKey, tl) == [p]
    ensures Read(ta + (tl + tb)) == Read(ta) + [p] + Read(tb) && Read(ta + tb) == Read(ta) + Read(tb)
  {
    ReadAfter(ta, tl + tb);
    assert Read(tl + tb) == [p] + Read(tb) by { ReadAfter(tl, tb); assert Read(tl) == [p]; }
    ReadAfter(ta, tb);
    Assoc(Read(ta), [p], Read(tb));
  }

  /** After a text that ends between assignments, reading starts anew. */
  lemma ReadAfter(a: string, b: string)
    requires Run(PreKey, a).PreKey?
    ensures Read(a + b) == Read(a) + Read(b)
  {
    assert Read(a) == Pairs(PreKey, a);
    ReadFromConcat(PreKey, a, b);
  }

  /** Reading is by place, so a file can be taken as its lines. */
  lemma LinesStand(t: string)
    requires Loadable(t) && (Ended(t) == t || Run(PreKey, Ended(t)).PreKey?)
    ensures var u := Unlines(FileLines(t)); Located(t) == Located(u) && Read(t) == Read(u) && Loadable(u)
  {
    FileLinesText(t);
    LoadableEnded(t);
    if Ended(t) != t { ClosedReads(t); }
  }

  /** An assignment on a single line, in a file of clean lines. */
  lemma OnItsLine(lines: seq<string>, k: nat)
    requires CleanLines(lines) && k < |Located(Unlines(lines))|
    requires Located(Unlines(lines))[k].first == Located(Unlines(lines))[k].last
    ensures k < |Found(START, Unlines(lines))| && Located(Unlines(lines))[k] == Found(START, Unlines(lines))[k]
  {
    var t := Unlines(lines);
    ManyLines(START, lines);
    var q := Walk(START, t);
    assert |Placed(q, AtEnd(q.scan))| <= 1;
  }

  /** The reader is between assignments before and after such a line, which says that
      assignment and nothing else. */
  ghost predicate Alone(lines: seq<string>, i: nat, p: Pair, continued: bool)
    requires i < |lines|
  {
    && Run(PreKey, Unlines(lines[..i])).PreKey?
    && Run(PreKey, lines[i] + "\n").PreKey?
    && Pairs(PreKey, lines[i] + "\n") == [p]
    && PlaceAt(lines, i).continued == continued
  }

  lemma StandsAlone(lines: seq<string>, k: nat)
    requires CleanLines(lines) && k < |Located(Unlines(lines))|
    requires Located(Unlines(lines))[k].first == Located(Unlines(lines))[k].last
    ensures var a := Located(Unlines(lines))[k];
            && a.first < |lines| && Alone(lines, a.first, PairOf(a), a.afterContinuedComment)
            && k == |Found(START, Unlines(lines[..a.first]))|
  {
    OnItsLine(lines, k);
    Pinned(lines, k);
    var a := Located(Unlines(lines))[k];
    var i := a.first;
    var p := PlaceAt(lines, i);
    assert START.scan == PreKey;
    WalkIsRun(START, Unlines(lines[..i]));
    WalkIsRun(p, lines[i] + "\n");
    Around(lines, i);
    assert PairsOf([a]) == [PairOf(a)];
  }

  // ---- The new line ------------------------------------------------------------------------

  predicate Calm(c: char) { Plain(c) && c != '\0' }

  /** Words that can be written between double quotes and read back. */
  ghost predicate Writable(args: seq<string>) {
    AreWords(args) && EachChar(args, Calm) && AllValid(args)
  }

  lemma {:induction false} StripTakesAway(args: seq<string>)
    ensures forall k :: 0 <= k < |Strip(args)| ==> Strip(args)[k] in args
    decreases |args|
  {
    if args == [] {
    } else if IsFlag(args[0]) {
      if |args| > 1 {
        StripTakesAway(args[2..]);
        assert forall w :: w in args[2..] ==> w in args;
      }
    } else {
      StripTakesAway(args[1..]);
      assert forall w :: w in args[1..] ==> w in args;
    }
  }

  lemma StripWritable(args: seq<string>)
    requires Writable(args)
    ensures Writable(Strip(args))
  {
    StripTakesAway(args);
  }

  predicate FlagChar(c: char) { Calm(c) && !IsSpace(c) && Ascii(c) }

  predicate FlagText(w: string) { forall i :: 0 <= i < |w| ==> FlagChar(w[i]) }

  /** The names of the flags are letters and hyphens. */
  predicate Lettered(w: string) { forall i :: 0 <= i < |w| ==> 'a' <= w[i] <= 'z' || w[i] == '-' }

  lemma LetteredText(w: string)
    requires Lettered(w)
    ensures FlagText(w)
  {
  }

  lemma BinDirText()
    ensures FlagText(BIN_DIR)
  {
    LetteredText(BIN_DIR) by { assert Lettered(BIN_DIR); }
  }

  lemma ConfigText()
    ensures FlagText(CONFIG)
  {
    LetteredText(CONFIG) by { assert Lettered(CONFIG); }
  }

  lemma FlagChars(flag: string, path: string)
    requires NodePath(path) && FlagText(flag)
    ensures FlagText(flag + "=" + path)
  {
    var w, n := flag + "=" + path, |flag|;
    forall i | 0 <= i < |w| ensures FlagChar(w[i]) {
      if i < n { assert w[i] == flag[i]; } else if i > n { assert w[i] == path[i - n - 1]; }
    }
  }

  lemma FlagTextTame(w: string)
    requires FlagText(w)
    ensures AllTame(w) && NoSpace(w)
  {
  }

  lemma FlagWritable(w: string)
    requires w != "" && FlagText(w)
    ensures Writable([w])
  {
    AsciiIsValid(w);
  }

  lemma OursWritable(binDir: string, configFile: string)
    requires NodePath(binDir) && NodePath(configFile)
    ensures Writable(Ours(binDir, configFile))
  {
    var b, c := BIN_DIR + "=" + binDir, CONFIG + "=" + configFile;
    assert FlagText(b) by { BinDirText(); FlagChars(BIN_DIR, binDir); }
    assert FlagText(c) by { ConfigText(); FlagChars(CONFIG, configFile); }
    FlagWritable(b);
    FlagWritable(c);
    assert Writable([b] + [c]);
    assert Ours(binDir, configFile) == [b] + [c];
  }

  lemma WordsWritable(val: string)
    requires AllPlain(val) && '\0' !in val && ValidUtf8(val)
    ensures Writable(Words(val))
  {
    WordsAreWords(val);
    WordsChars(val, Calm);
    WordsValid(val);
  }

  lemma TrimQuoted(v: string)
    ensures Trim(InQuotes(v)) == InQuotes(v)
  {
  }

  lemma AfterEqOfKey(k: string, raw: string)
    requires '=' !in k
    ensures AfterEq(k + "=" + raw) == raw
    decreases |k|
  {
    var t := k + "=" + raw;
    if k == "" {
      assert t[1..] == raw;
    } else {
      assert t[1..] == k[1..] + "=" + raw;
      AfterEqOfKey(k[1..], raw);
    }
  }

  predicate Tame(c: char) { Calm(c) && !IsNewline(c) }
  predicate AllTame(v: string) { forall i :: 0 <= i < |v| ==> Tame(v[i]) }

  function InQuotes(v: string): (raw: string)
    ensures |raw| == |v| + 2 && raw[0] == '"' && raw[|raw| - 1] == '"' && raw[1..|raw| - 1] == v
    ensures forall k :: 1 <= k <= |v| ==> raw[k] == v[k - 1]
  {
    "\"" + v + "\""
  }

  lemma QuotedIsClean(v: string)
    requires AllTame(v)
    ensures CleanLine(InQuotes(v))
  {
    var raw := InQuotes(v);
    forall k | 0 <= k < |raw| ensures raw[k] != '\n' && raw[k] != '\0' && raw[k] != '\r' {
      if 1 <= k <= |v| { assert Tame(v[k - 1]); }
    }
  }

  lemma UnquoteOf(q: string, v: string)
    requires |q| >= 2 && q[0] == '"' && q[|q| - 1] == '"' && q[1..|q| - 1] == v && AllPlain(v)
    ensures Unquote(q) == Some(v)
  {
  }

  lemma TameIsPlain(v: string)
    requires AllTame(v)
    ensures AllPlain(v)
  {
    forall k | 0 <= k < |v| ensures Plain(v[k]) { assert Tame(v[k]); }
  }

  lemma QuotedUnquotes(v: string)
    requires AllTame(v)
    ensures Unquote(Trim(InQuotes(v))) == Some(v)
  {
    TameIsPlain(v);
    var q := InQuotes(v);
    UnquoteOf(q, v);
    TrimQuoted(v);
  }

  lemma CleanAfterKey(key: string, raw: string)
    requires KeyName(key) && '\0' !in key && CleanLine(raw)
    ensures CleanLine(key + "=" + raw)
  {
    var t := key + "=" + raw;
    var n := |key|;
    assert t[n] == '=' && forall i :: 0 <= i < n ==> t[i] == key[i];
    assert forall i :: n < i < |t| ==> t[i] == raw[i - n - 1];
  }

  lemma QuotedLine(key: string, v: string)
    requires KeyName(key) && '\0' !in key && AllTame(v)
    ensures var line := key + "=" + InQuotes(v);
            && CleanLine(line)
            && Run(PreKey, line + "\n") == PreKey && Pairs(PreKey, line + "\n") == [Pair(key, v)]
            && Unquote(Trim(AfterEq(line))) == Some(v)
  {
    var raw := InQuotes(v);
    QuotedIsClean(v);
    QuotedUnquotes(v);
    CleanAfterKey(key, raw);
    AssignmentLine(key, raw, v);
    AfterEqOfKey(key, raw);
  }

  lemma UnwordsTame(args: seq<string>)
    requires Writable(args)
    ensures AllTame(Unwords(args)) && KeyName(KEY) && '\0' !in KEY
  {
    assert EachChar(args, Tame);
    UnwordsChars(args, Tame);
    ProbeIsKey();
  }

  /** The line the installer writes is read as its words, by systemd ... */
  lemma NewLine(args: seq<string>)
    requires Writable(args)
    ensures CleanLine(ArgsLine(args))
    ensures Run(PreKey, ArgsLine(args) + "\n") == PreKey
    ensures Pairs(PreKey, ArgsLine(args) + "\n") == [Pair(KEY, Unwords(args))]
  {
    UnwordsTame(args);
    QuotedLine(KEY, Unwords(args));
  }

  /** ... and by the installer. */
  lemma NewLineTaken(args: seq<string>)
    requires Writable(args)
    ensures Unquote(Trim(AfterEq(ArgsLine(args)))) == Some(Unwords(args)) && Words(Unwords(args)) == args
  {
    UnwordsTame(args);
    QuotedLine(KEY, Unwords(args));
    WordsOfUnwords(args);
  }

  // ---- Edits and what is read ----------------------------------------------------------------

  lemma Spliced(lines: seq<string>, i: nat)
    requires i < |lines|
    ensures lines == lines[..i] + [lines[i]] + lines[i + 1..]
  {
  }

  /** Replacing a line that stands alone by another assignment. */
  lemma Replaced(lines: seq<string>, i: nat, p: Pair, continued: bool, line: string, q: Pair)
    requires i < |lines| && Alone(lines, i, p, continued)
    requires Run(PreKey, line + "\n") == PreKey && Pairs(PreKey, line + "\n") == [q]
    ensures var x, y := Read(Unlines(lines[..i])), Read(Unlines(lines[i + 1..]));
            && Read(Unlines(lines)) == x + [p] + y
            && Read(Unlines(lines[i := line])) == x + [q] + y
    ensures Alone(lines[i := line], i, q, continued)
  {
    var edited := lines[i := line];
    Spliced(lines, i);
    Spliced(edited, i);
    assert edited[..i] == lines[..i] && edited[i + 1..] == lines[i + 1..];
    ReadAround(lines[..i], lines[i], lines[i + 1..], p);
    ReadAround(lines[..i], line, lines[i + 1..], q);
  }

  /** Removing one. */
  lemma Removed(lines: seq<string>, j: nat, p: Pair, continued: bool)
    requires j < |lines| && Alone(lines, j, p, continued)
    ensures var x, y := Read(Unlines(lines[..j])), Read(Unlines(lines[j + 1..]));
            && Read(Unlines(lines)) == x + [p] + y
            && Read(Unlines(Without(lines, j))) == x + y
  {
    Spliced(lines, j);
    ReadAround(lines[..j], lines[j], lines[j + 1..], p);
  }

  lemma RunLine(a: seq<string>, line: string, b: seq<string>)
    requires Run(PreKey, Unlines(a)).PreKey? && Run(PreKey, line + "\n").PreKey?
    ensures Run(PreKey, Unlines(a + [line] + b)) == Run(PreKey, Unlines(b))
  {
    UnlinesAppend(a + [line], b);
    UnlinesAppend(a, [line]);
    UnlinesOne(line);
    RunConcat(PreKey, Unlines(a) + (line + "\n"), Unlines(b));
    RunConcat(PreKey, Unlines(a), line + "\n");
  }

  /** A replaced line further up does not change how a later line is read. */
  lemma LaterStaysAlone(lines: seq<string>, i: nat, line: string, j: nat, p: Pair, q: Pair, cp: bool, cq: bool)
    requires i < j < |lines| && Alone(lines, i, p, cp) && Alone(lines, j, q, cq)
    requires Run(PreKey, line + "\n").PreKey?
    ensures Alone(lines[i := line], j, q, PlaceAt(lines[i := line], j).continued)
  {
    var edited := lines[i := line];
    var mid := lines[i + 1..j];
    assert lines[..j] == lines[..i] + [lines[i]] + mid;
    assert edited[..j] == lines[..i] + [line] + mid;
    RunLine(lines[..i], lines[i], mid);
    RunLine(lines[..i], line, mid);
  }

  /** The views of what was read around a single assignment of KUBELET_EXTRA_ARGS. */
  lemma ViewsAround(x: seq<Pair>, p: Pair, y: seq<Pair>)
    requires p.key == KEY
    ensures Others(x + [p] + y) == Others(x) + Others(y)
    ensures ArgValues(x + [p] + y) == ArgValues(x) + [p.value] + ArgValues(y)
  {
    assert Others(x + [p]) == Others(x) && ArgValues(x + [p]) == ArgValues(x) + [p.value] by {
      ViewsConcat(x, [p]);
      ViewsOne(p);
    }
    ViewsConcat(x + [p], y);
  }

  lemma ValidAround(x: seq<Pair>, y: seq<Pair>, p: Pair, q: Pair)
    requires ValidPairs(x + [p] + y) && ValidPair(q)
    ensures ValidPairs(x + [q] + y) && ValidPairs(x + y) && ValidPair(p)
  {
    var all := x + [p] + y;
    assert forall k :: 0 <= k < |x| ==> x[k] == all[k];
    assert forall k :: 0 <= k < |y| ==> y[k] == all[|x| + 1 + k];
    assert p == all[|x|];
  }

  lemma KeyedValid(p: Pair)
    requires AllAscii(p.key) && ValidUtf8(p.value)
    ensures ValidPair(p)
  {
    AsciiIsValid(p.key);
  }

  /** What the operator asked for: the words of the first assignment without the flags. */
  function OperatorWords(ps: seq<Pair>): seq<string> {
    if ArgValues(ps) == [] then [] else Strip(Words(ArgValues(ps)[0]))
  }

  /** One reading is the other with KUBELET_EXTRA_ARGS set, once, to the operator's words
      followed by the installer's. */
  ghost predicate SetsArgs(before: seq<Pair>, after: seq<Pair>, ours: seq<string>) {
    && Others(after) == Others(before)
    && |ArgValues(after)| == 1
    && Words(ArgValues(after)[0]) == OperatorWords(before) + ours
  }

  /** The result of a merge, with the line it wrote. */
  ghost predicate Written(out: string, lines: seq<string>, i: nat, args: seq<string>) {
    && out == Unlines(lines) && CleanLines(lines) && ValidPairs(Read(out))
    && i < |lines| && lines[i] == ArgsLine(args) && Writable(args)
    && Alone(lines, i, Pair(KEY, Unwords(args)), false)
    && |ArgValues(Read(out))| == 1
  }

  /** The file can be taken as its lines: it ends its last line, or is closed. */
  predicate Settled(t: string) { Parse(t).Ok? && (Ended(t) == t || !OpenAtEnd(t)) }

  lemma SettledLines(t: string)
    requires Settled(t)
    ensures var lines := FileLines(t);
            && CleanLines(lines) && Located(t) == Located(Unlines(lines)) && Read(t) == Read(Unlines(lines))
            && PairsOf(Located(t)) == Read(t) && ValidPairs(Read(t))
  {
    ParseOk(t);
    if Ended(t) != t { ProbeDecides(t); }
    LinesStand(t);
    FileLinesClean(t);
    LocatedIsRead(t);
  }

  lemma FoundPrefix(lines: seq<string>, i: nat)
    requires CleanLines(lines) && i < |lines|
    ensures Found(START, Unlines(lines[..i])) <= Found(START, Unlines(lines)) <= Located(Unlines(lines))
  {
    Around(lines, i);
  }

  /** The m-th assignment of KUBELET_EXTRA_ARGS, when it is on a single line: it stands alone
      there, with m of them before it. */
  lemma ExtraAlone(t: string, m: nat)
    requires Settled(t) && m < |ExtraOf(Located(t))| && ExtraOf(Located(t))[m].first == ExtraOf(Located(t))[m].last
    ensures var lines, a := FileLines(t), ExtraOf(Located(t))[m];
            && a.first < |lines| && a.key == KEY && Alone(lines, a.first, PairOf(a), a.afterContinuedComment)
            && |ArgValues(Read(Unlines(lines[..a.first])))| == m
  {
    SettledLines(t);
    AloneAmong(FileLines(t), Located(t), m);
  }

  lemma AloneAmong(lines: seq<string>, found: seq<Assignment>, m: nat)
    requires CleanLines(lines) && found == Located(Unlines(lines))
    requires m < |ExtraOf(found)| && ExtraOf(found)[m].first == ExtraOf(found)[m].last
    ensures var a := ExtraOf(found)[m];
            && a.first < |lines| && a.key == KEY && Alone(lines, a.first, PairOf(a), a.afterContinuedComment)
            && |ArgValues(Read(Unlines(lines[..a.first])))| == m
  {
    var k := ExtraIndex(found, m);
    StandsAlone(lines, k);
    var i := found[k].first;
    var before := Found(START, Unlines(lines[..i]));
    assert found[..k] == before by { FoundPrefix(lines, i); }
    ArgsCount(Unlines(lines[..i]), before);
  }

  /** As many values are read as assignments were found, in a text that ends between them. */
  lemma ArgsCount(t: string, found: seq<Assignment>)
    requires found == Found(START, t) && Run(PreKey, t).PreKey?
    ensures |ArgValues(Read(t))| == |ExtraOf(found)|
  {
    assert START.scan == PreKey;
    WalkIsRun(START, t);
    assert Read(t) == Pairs(PreKey, t);
    ExtraValues(found);
  }

  /** The assignments come in the order of their lines. */
  lemma InLineOrder(t: string)
    requires Settled(t) && |ExtraOf(Located(t))| >= 2
    requires var extra := ExtraOf(Located(t)); extra[0].first == extra[0].last && extra[1].first == extra[1].last
    ensures ExtraOf(Located(t))[0].first < ExtraOf(Located(t))[1].first
  {
    ExtraAlone(t, 0);
    ExtraAlone(t, 1);
    var lines := FileLines(t);
    var i, j := ExtraOf(Located(t))[0].first, ExtraOf(Located(t))[1].first;
    if j <= i {
      ManyPrefix(lines, j, i);
      ArgPrefix(lines, j, i);
    }
  }

  lemma ManyPrefix(lines: seq<string>, j: nat, i: nat)
    requires j <= i <= |lines|
    ensures Unlines(lines[..i]) == Unlines(lines[..j]) + Unlines(lines[j..i])
  {
    assert lines[..i] == lines[..j] + lines[j..i];
    UnlinesAppend(lines[..j], lines[j..i]);
  }

  lemma ArgPrefix(lines: seq<string>, j: nat, i: nat)
    requires j <= i <= |lines| && Run(PreKey, Unlines(lines[..j])).PreKey?
    ensures |ArgValues(Read(Unlines(lines[..j])))| <= |ArgValues(Read(Unlines(lines[..i])))|
  {
    ManyPrefix(lines, j, i);
    ReadFromConcat(PreKey, Unlines(lines[..j]), Unlines(lines[j..i]));
    assert Read(Unlines(lines[..j])) == Pairs(PreKey, Unlines(lines[..j]));
    ViewsConcat(Read(Unlines(lines[..j])), ReadFrom(PreKey, Unlines(lines[j..i])));
  }

  // ---- The theorem ---------------------------------------------------------------------------

  lemma ValueIsValid(t: string, m: nat)
    requires Settled(t) && m < |ExtraOf(Located(t))|
    ensures ValidUtf8(ExtraOf(Located(t))[m].value)
    ensures m < |ArgValues(Read(t))| && ArgValues(Read(t))[m] == ExtraOf(Located(t))[m].value
  {
    SettledLines(t);
    ExtraValues(Located(t));
    var k := ExtraIndex(Located(t), m);
    assert Read(t)[k] == PairOf(Located(t)[k]);
  }

  lemma {:induction false} AfterEqClean(line: string)
    requires CleanLine(line)
    ensures CleanLine(AfterEq(line))
  {
    if line != "" { AfterEqClean(line[1..]); }
  }

  lemma UnquotePart(val: string, v: string)
    requires Unquote(val) == Some(v) && '\0' !in val
    ensures AllPlain(v) && '\0' !in v
  {
  }

  lemma TrimmedCalm(raw: string, val: string)
    requires CleanLine(raw) && Unquote(Trim(raw)) == Some(val)
    ensures AllPlain(val) && '\0' !in val
  {
    var i, j := TrimParts(raw);
    var core := Trim(raw);
    assert forall k :: 0 <= k < |core| ==> core[k] == raw[i + k];
    UnquotePart(core, val);
  }

  /** The value the installer takes from the operator's line is the one systemd reads, and
      its words can be written back. */
  lemma OperatorValue(line: string, p: Pair, val: string)
    requires CleanLine(line) && Pairs(PreKey, line + "\n") == [p] && p.key == KEY && ValidUtf8(p.value)
    requires Unquote(Trim(AfterEq(line))) == Some(val)
    ensures val == p.value && AllPlain(val) && '\0' !in val
  {
    ProbeIsKey();
    TakenApart(line, p);
    AfterEqClean(line);
    TrimmedCalm(AfterEq(line), val);
  }

  lemma ReplacedValid(x: seq<Pair>, y: seq<Pair>, p: Pair, args: seq<string>)
    requires ValidPairs(x + [p] + y) && AllAscii(p.key) && Writable(args)
    ensures ValidPairs(x + [Pair(p.key, Unwords(args))] + y)
  {
    UnwordsValid(args);
    KeyedValid(Pair(p.key, Unwords(args)));
    ValidAround(x, y, p, Pair(p.key, Unwords(args)));
  }

  lemma ReplacedViews(x: seq<Pair>, y: seq<Pair>, p: Pair, v: string)
    requires p.key == KEY
    ensures Others(x + [Pair(p.key, v)] + y) == Others(x + [p] + y)
    ensures ArgValues(x + [p] + y) == ArgValues(x) + [p.value] + ArgValues(y)
    ensures ArgValues(x + [Pair(p.key, v)] + y) == ArgValues(x) + [v] + ArgValues(y)
  {
    ViewsAround(x, p, y);
    ViewsAround(x, Pair(p.key, v), y);
  }

  /** Rewriting a line that assigns KUBELET_EXTRA_ARGS. */
  lemma Rewritten(lines: seq<string>, i: nat, p: Pair, args: seq<string>)
    requires CleanLines(lines) && ValidPairs(Read(Unlines(lines))) && Writable(args)
    requires i < |lines| && Alone(lines, i, p, false) && p.key == KEY && AllAscii(p.key)
    ensures var edited := lines[i := ArgsLine(args)];
            var x, y := Read(Unlines(lines[..i])), Read(Unlines(lines[i + 1..]));
            && CleanLines(edited) && ValidPairs(Read(Unlines(edited)))
            && Alone(edited, i, Pair(p.key, Unwords(args)), false)
            && Others(Read(Unlines(edited))) == Others(Read(Unlines(lines)))
            && ArgValues(Read(Unlines(lines))) == ArgValues(x) + [p.value] + ArgValues(y)
            && ArgValues(Read(Unlines(edited))) == ArgValues(x) + [Unwords(args)] + ArgValues(y)
  {
    NewLine(args);
    Replaced(lines, i, p, false, ArgsLine(args), Pair(p.key, Unwords(args)));
    var x, y := Read(Unlines(lines[..i])), Read(Unlines(lines[i + 1..]));
    ReplacedViews(x, y, p, Unwords(args));
    ReplacedValid(x, y, p, args);
  }

  /** What the plan to rewrite a line has checked. */
  lemma PlanChecked(t: string)
    requires Plan(t).Ok?
    ensures Settled(t)
    ensures var lines, extra := FileLines(t), ExtraOf(Located(t));
            match Plan(t).value
            case Append => extra == [] && !OpenAtEnd(t)
            case Rewrite(at, words, drop) =>
              && extra != [] && at == extra[0].first < |lines| && LineWords(lines[at], extra[0]) == Ok(words)
              && (drop.None? ==> |extra| == 1)
              && (drop.Some? ==> |extra| == 2 && drop.value == extra[1].first < |lines| && AppendedByEarlier(extra[0], extra[1], lines))
  {
    ExtraOnLines(t);
  }

  /** The line a plan rewrites. */
  lemma OperatorLine(t: string, words: seq<string>)
    requires Settled(t) && ExtraOf(Located(t)) != [] && ExtraOf(Located(t))[0].first < |FileLines(t)|
    requires LineWords(FileLines(t)[ExtraOf(Located(t))[0].first], ExtraOf(Located(t))[0]) == Ok(words)
    ensures var a := ExtraOf(Located(t))[0];
            && a.key == KEY && Alone(FileLines(t), a.first, PairOf(a), false)
            && ArgValues(Read(Unlines(FileLines(t)[..a.first]))) == []
    ensures words == OperatorWords(Read(t)) && Writable(words)
  {
    var lines, a := FileLines(t), ExtraOf(Located(t))[0];
    OneLineWords(lines[a.first], a, words);
    ExtraAlone(t, 0);
    assert CleanLine(lines[a.first]) by { SettledLines(t); }
    assert ValidUtf8(a.value) && ArgValues(Read(t)) != [] && ArgValues(Read(t))[0] == a.value by { ValueIsValid(t, 0); }
    TakenWords(lines[a.first], a, words);
  }

  lemma OneLineWords(line: string, a: Assignment, words: seq<string>)
    requires LineWords(line, a) == Ok(words)
    ensures a.first == a.last && !a.afterContinuedComment
  {
  }

  lemma TakenWords(line: string, a: Assignment, words: seq<string>)
    requires CleanLine(line) && Pairs(PreKey, line + "\n") == [PairOf(a)] && a.key == KEY && ValidUtf8(a.value)
    requires LineWords(line, a) == Ok(words)
    ensures words == Strip(Words(a.value)) && Writable(words)
  {
    var val := TakenValue(line, a, words);
    assert val == a.value && AllPlain(val) && '\0' !in val by { OperatorValue(line, PairOf(a), val); }
    assert Writable(Words(val)) by { WordsWritable(val); }
    StripWritable(Words(val));
  }

  lemma TakenValue(line: string, a: Assignment, words: seq<string>) returns (val: string)
    requires LineWords(line, a) == Ok(words)
    ensures Unquote(Trim(AfterEq(line))) == Some(val) && words == Strip(Words(val))
  {
    val := Unquote(Trim(AfterEq(line))).value;
  }

  /** What a merge achieves: KUBELET_EXTRA_ARGS set once, to the operator's words and ours,
      on a line of its own. */
  ghost predicate MergeWrites(before: seq<Pair>, out: string, ours: seq<string>) {
    && SetsArgs(before, Read(out), ours)
    && exists lines, i :: Written(out, lines, i, OperatorWords(before) + ours)
  }

  /** The lines say what was said before, with KUBELET_EXTRA_ARGS set once, on line i, to args. */
  ghost predicate SetTo(before: seq<Pair>, lines: seq<string>, i: nat, args: seq<string>) {
    && Written(Unlines(lines), lines, i, args)
    && Others(Read(Unlines(lines))) == Others(before)
    && ArgValues(Read(Unlines(lines))) == [Unwords(args)]
  }

  lemma MergeWritesWitness(before: seq<Pair>, lines: seq<string>, i: nat, args: seq<string>, ours: seq<string>)
    requires SetTo(before, lines, i, args) && args == OperatorWords(before) + ours
    ensures MergeWrites(before, Unlines(lines), ours)
  {
    WordsOfUnwords(args);
  }

  /** Rewriting the only assignment. */
  lemma RewriteOne(lines: seq<string>, i: nat, p: Pair, args: seq<string>)
    requires CleanLines(lines) && ValidPairs(Read(Unlines(lines))) && Writable(args)
    requires i < |lines| && Alone(lines, i, p, false) && p.key == KEY && AllAscii(p.key)
    requires |ArgValues(Read(Unlines(lines)))| == 1
    ensures SetTo(Read(Unlines(lines)), lines[i := ArgsLine(args)], i, args)
  {
    Rewritten(lines, i, p, args);
  }

  lemma FlagWord(flag: string, path: string)
    requires NoSpace(flag) && NoSpace(path)
    ensures IsWord(flag + "=" + path)
  {
    var w := flag + "=" + path;
    assert forall k :: 0 <= k < |flag| ==> w[k] == flag[k];
    assert forall k :: |flag| < k < |w| ==> w[k] == path[k - |flag| - 1];
  }

  lemma TwoWords(b: string, c: string)
    requires IsWord(b) && IsWord(c)
    ensures Words(b + " " + c) == [b, c]
  {
    assert [b, c][1..] == [c];
    WordsOfUnwords([b, c]);
  }

  lemma PrefixCut(s: string, prefix: string)
    requires HasPrefix(s, prefix)
    ensures s == prefix + s[|prefix|..]
  {
  }

  /** The line an earlier installer appended holds the two flags and nothing else. */
  lemma TwoFlagsOnly(v: string, binDir: string, configFile: string)
    requires v == BIN_DIR + "=" + binDir + " " + (CONFIG + "=" + configFile)
    requires NoSpace(binDir) && NoSpace(configFile)
    ensures Strip(Words(v)) == []
  {
    assert IsWord(BIN_DIR + "=" + binDir) by { BinDirText(); FlagTextTame(BIN_DIR); FlagWord(BIN_DIR, binDir); }
    assert IsWord(CONFIG + "=" + configFile) by { ConfigText(); FlagTextTame(CONFIG); FlagWord(CONFIG, configFile); }
    TwoWords(BIN_DIR + "=" + binDir, CONFIG + "=" + configFile);
    StripOurs(binDir, configFile);
  }

  /** A text in quotes after a head, cut at its first space, with a head on each part. */
  lemma QuotedParts(line: string, head: string, b: string, c: string, i: nat) returns (x: string, y: string)
    requires HasPrefix(line, head) && HasSuffix(line[|head|..], "\"")
    requires var v := line[|head|..][..|line| - |head| - 1];
             i < |v| && v[i] == ' ' && HasPrefix(v[..i], b) && HasPrefix(v[i + 1..], c)
    ensures var v := line[|head|..][..|line| - |head| - 1]; x == v[..i][|b|..] && y == v[i + 1..][|c|..]
    ensures line == head + (b + x + " " + (c + y)) + "\""
    ensures |head| + |b| + |x| < |line| && x == line[|head| + |b|..|head| + |b| + |x|]
    ensures |y| < |line| && y == line[|line| - 1 - |y|..|line| - 1]
  {
    var value := line[|head|..];
    var v := value[..|value| - 1];
    x, y := v[..i][|b|..], v[i + 1..][|c|..];
    PrefixCut(line, head);
    assert value == v + "\"";
    PrefixCut(v[..i], b);
    PrefixCut(v[i + 1..], c);
    assert v == v[..i] + " " + v[i + 1..];
    Assoc(head, v, "\"");
  }

  lemma BareSlice(line: string, x: string, at: nat)
    requires CleanLine(line) && BareText(x) && at + |x| < |line| && x == line[at..at + |x|]
    ensures NoSpace(x) && AllPlain(x) && '\0' !in x
  {
    forall k | 0 <= k < |x| ensures !IsSpace(x[k]) && Plain(x[k]) && x[k] != '\0' {
      assert x[k] == line[at + k] && BareChar(x[k]);
    }
  }

  lemma TwoFlagParts(line: string) returns (binDir: string, configFile: string)
    requires TwoFlagLine(line) && CleanLine(line)
    ensures line == KEY + "=\"" + (BIN_DIR + "=" + binDir + " " + (CONFIG + "=" + configFile)) + "\""
    ensures NoSpace(binDir) && NoSpace(configFile) && AllPlain(binDir) && AllPlain(configFile)
    ensures '\0' !in binDir && '\0' !in configFile
  {
    binDir, configFile := TwoParts(line, KEY + "=\"", BIN_DIR + "=", CONFIG + "=");
  }

  lemma TwoParts(line: string, head: string, b: string, c: string) returns (x: string, y: string)
    requires TwoPartLine(line, head, b, c) && CleanLine(line)
    ensures line == head + (b + x + " " + (c + y)) + "\""
    ensures NoSpace(x) && NoSpace(y) && AllPlain(x) && AllPlain(y) && '\0' !in x && '\0' !in y
  {
    var v := line[|head|..][..|line| - |head| - 1];
    x, y := QuotedParts(line, head, b, c, IndexOf(v, ' '));
    BareSlice(line, x, |head| + |b|);
    BareSlice(line, y, |line| - 1 - |y|);
  }

  lemma DropViews(x: seq<Pair>, q: Pair, y: seq<Pair>, w: string)
    requires q.key == KEY && |ArgValues(x + [q] + y)| == 2 && [w] <= ArgValues(x)
    ensures ArgValues(x + y) == [w] && Others(x + y) == Others(x + [q] + y)
  {
    ViewsAround(x, q, y);
    ViewsConcat(x, y);
  }

  lemma FrontSame(lines: seq<string>, i: nat, j: nat, p: Pair, c: bool)
    requires i < j < |lines| && Alone(lines, i, p, c)
    ensures i < |Without(lines, j)| && Without(lines, j)[i] == lines[i] && Alone(Without(lines, j), i, p, c)
  {
    var final := Without(lines, j);
    assert final[..i] == lines[..i] && final[i] == lines[i];
  }

  lemma DroppedValid(x: seq<Pair>, q: Pair, y: seq<Pair>)
    requires ValidPairs(x + [q] + y)
    ensures ValidPairs(x + y)
  {
    assert (x + [q] + y)[|x|] == q;
    ValidAround(x, y, q, q);
  }

  /** Dropping the later of two assignments. */
  lemma DropLater(all: seq<Pair>, x: seq<Pair>, q: Pair, y: seq<Pair>, w: string)
    requires ValidPairs(all) && all == x + [q] + y && q.key == KEY && |ArgValues(all)| == 2 && [w] <= ArgValues(x)
    ensures ValidPairs(x + y) && Others(x + y) == Others(all) && ArgValues(x + y) == [w]
  {
    DropViews(x, q, y, w);
    DroppedValid(x, q, y);
  }

  /** Rewriting the operator's line and dropping the one an earlier installer appended. */
  lemma RewriteAndDrop(lines: seq<string>, i: nat, p: Pair, j: nat, q: Pair, cq: bool, args: seq<string>)
    requires CleanLines(lines) && ValidPairs(Read(Unlines(lines))) && Writable(args)
    requires i < j < |lines| && Alone(lines, i, p, false) && Alone(lines, j, q, cq)
    requires p.key == KEY && AllAscii(p.key) && q.key == KEY
    requires ArgValues(Read(Unlines(lines[..i]))) == [] && |ArgValues(Read(Unlines(lines)))| == 2
    ensures SetTo(Read(Unlines(lines)), Without(lines[i := ArgsLine(args)], j), i, args)
  {
    var line, r := ArgsLine(args), Pair(p.key, Unwords(args));
    var edited := lines[i := line];
    Rewritten(lines, i, p, args);
    assert Run(PreKey, line + "\n").PreKey? by { NewLine(args); }
    LaterStaysAlone(lines, i, line, j, p, q, false, cq);
    assert edited[..i] == lines[..i];
    Removed(edited, j, q, PlaceAt(edited, j).continued);
    DropSecond(edited, i, r, j, Read(Unlines(edited[..j])), q, Read(Unlines(edited[j + 1..])), args);
  }

  /** Dropping the later of two assignments, the first of which was just written. */
  lemma DropSecond(lines: seq<string>, i: nat, r: Pair, j: nat, x: seq<Pair>, q: Pair, y: seq<Pair>, args: seq<string>)
    requires CleanLines(lines) && ValidPairs(Read(Unlines(lines))) && Writable(args)
    requires i < j < |lines| && Alone(lines, i, r, false) && lines[i] == ArgsLine(args)
    requires r == Pair(KEY, Unwords(args)) && q.key == KEY
    requires x == Read(Unlines(lines[..j])) && Read(Unlines(lines)) == x + [q] + y && Read(Unlines(Without(lines, j))) == x + y
    requires ArgValues(Read(Unlines(lines[..i]))) == [] && |ArgValues(Read(Unlines(lines)))| == 2
    ensures var final := Without(lines, j);
            && Written(Unlines(final), final, i, args)
            && Others(Read(Unlines(final))) == Others(Read(Unlines(lines)))
            && ArgValues(Read(Unlines(final))) == [Unwords(args)]
  {
    assert [r.value] <= ArgValues(x) by { ArgsBefore(lines, i, j, r); }
    DropLater(Read(Unlines(lines)), x, q, y, r.value);
    CleanWithout(lines, j);
    FrontSame(lines, i, j, r, false);
  }

  lemma CleanWithout(lines: seq<string>, j: nat)
    requires CleanLines(lines) && j < |lines|
    ensures CleanLines(Without(lines, j))
  {
    var final := Without(lines, j);
    assert forall k :: 0 <= k < |final| ==> final[k] == if k < j then lines[k] else lines[k + 1];
  }

  lemma ArgsBefore(lines: seq<string>, i: nat, j: nat, p: Pair)
    requires i < j <= |lines| && Alone(lines, i, p, false) && p.key == KEY
    ensures ArgValues(Read(Unlines(lines[..i]))) + [p.value] <= ArgValues(Read(Unlines(lines[..j])))
  {
    var head := lines[..j];
    Spliced(head, i);
    assert head[..i] == lines[..i] && head[i] == lines[i];
    ReadAround(head[..i], head[i], head[i + 1..], p);
    ViewsAround(Read(Unlines(head[..i])), p, Read(Unlines(head[i + 1..])));
  }

  // ---- Adding the line to a file without one --------------------------------------------------

  lemma {:induction false} TrimBreaksOf(a: string, w: string)
    requires a != "" && !IsNewline(a[|a| - 1]) && forall k :: 0 <= k < |w| ==> IsNewline(w[k])
    ensures TrimBreaks(a + w) == a
    decreases |w|
  {
    if w == "" {
      assert a + w == a;
    } else {
      assert (a + w)[..|a + w| - 1] == a + w[..|w| - 1];
      TrimBreaksOf(a, w[..|w| - 1]);
    }
  }

  lemma {:induction false} TextGrows(p: Place, t: string)
    requires NoBreak(t)
    ensures Walk(p, t).text == p.text + t
    decreases |t|
  {
    if t == "" {
      assert p.text + t == p.text;
    } else {
      TextGrows(Step(p, t[0]), t[1..]);
      assert p.text + [t[0]] + t[1..] == p.text + t;
    }
  }

  lemma LineContinues(p: Place, line: string)
    requires p.text == "" && NoBreak(line)
    ensures Walk(p, line + "\n").continued ==> CommentEndsInBackslash(line)
  {
    WalkConcat(p, line, "\n");
    WalkOne(Walk(p, line), '\n');
    TextGrows(p, line);
    assert "" + line == line;
  }

  /** A file that does not end in a backslash does not end in a continued comment. */
  lemma NotContinued(t: string)
    requires Loadable(t) && !HasSuffix(TrimBreaks(t), "\\")
    ensures !Walk(START, Unlines(FileLines(t))).continued
  {
    var lines := FileLines(t);
    FileLinesText(t);
    FileLinesClean(t);
    if lines != [] {
      var n := |lines| - 1;
      var p := PlaceAt(lines, n);
      Around(lines, n);
      PlaceAtStarts(lines, n);
      assert lines[..n + 1] == lines;
      LineContinues(p, lines[n]);
      Spliced(lines, n);
      assert lines[n + 1..] == [];
      UnlinesAppend(lines[..n], [lines[n]]);
      UnlinesOne(lines[n]);
      if CommentEndsInBackslash(lines[n]) {
        EndsInBackslash(t, lines[n], Unlines(lines[..n]));
      }
    }
  }

  lemma EndsInBackslash(t: string, line: string, front: string)
    requires CommentEndsInBackslash(line) && Ended(t) == front + (line + "\n") && CleanLine(line)
    ensures HasSuffix(TrimBreaks(t), "\\")
  {
    var body := if line[|line| - 1] == '\r' then line[..|line| - 1] else line;
    var cr := if line[|line| - 1] == '\r' then "\r" else "";
    assert line == body + cr;
    Assoc(body, cr, "\n");
    Assoc(front, body, cr + "\n");
    BackslashThenBreaks(t, front + body, cr + "\n");
  }

  lemma BackslashThenBreaks(t: string, a: string, end: string)
    requires a != "" && a[|a| - 1] == '\\' && (end == "\n" || end == "\r\n") && Ended(t) == a + end
    ensures HasSuffix(TrimBreaks(t), "\\")
  {
    var w := if Ended(t) == t then end else end[..|end| - 1];
    assert t == a + w by {
      if Ended(t) != t { assert (a + end)[..|a + end| - 1] == a + end[..|end| - 1]; }
    }
    TrimBreaksOf(a, w);
  }

  lemma AddKeyed(ps: seq<Pair>, q: Pair)
    requires ValidPairs(ps) && AllAscii(q.key) && ValidUtf8(q.value)
    ensures ValidPairs(ps + [q])
  {
    KeyedValid(q);
  }

  lemma AddedViews(ps: seq<Pair>, q: Pair)
    requires q.key == KEY && ArgValues(ps) == []
    ensures Others(ps + [q]) == Others(ps) && ArgValues(ps + [q]) == [q.value]
  {
    ViewsConcat(ps, [q]);
    ViewsOne(q);
  }

  lemma AddedLine(lines: seq<string>, line: string, q: Pair)
    requires Run(PreKey, Unlines(lines)).PreKey? && !Walk(START, Unlines(lines)).continued
    requires Run(PreKey, line + "\n") == PreKey && Pairs(PreKey, line + "\n") == [q]
    ensures Alone(lines + [line], |lines|, q, false)
    ensures Read(Unlines(lines + [line])) == Read(Unlines(lines)) + [q]
  {
    var n, final := |lines|, lines + [line];
    assert final[..n] == lines && final[n] == line;
    ReadAround(lines, line, [], q);
    assert lines + [line] + [] == final;
    assert Read(Unlines([])) == [];
  }

  lemma ClosedEnd(t: string)
    requires Parse(t).Ok? && !OpenAtEnd(t)
    ensures Run(PreKey, Unlines(FileLines(t))).PreKey? && !Walk(START, Unlines(FileLines(t))).continued
  {
    ProbeDecides(t);
    FileLinesText(t);
    ParseOk(t);
    NotContinued(t);
  }

  lemma AppendAny(lines: seq<string>, line: string, q: Pair)
    requires CleanLines(lines) && CleanLine(line) && ValidPairs(Read(Unlines(lines)))
    requires q.key == KEY && AllAscii(q.key) && ValidUtf8(q.value)
    requires Run(PreKey, Unlines(lines)).PreKey? && !Walk(START, Unlines(lines)).continued
    requires Run(PreKey, line + "\n") == PreKey && Pairs(PreKey, line + "\n") == [q]
    requires ArgValues(Read(Unlines(lines))) == []
    ensures var final := lines + [line];
            && CleanLines(final) && ValidPairs(Read(Unlines(final))) && Alone(final, |lines|, q, false)
            && Others(Read(Unlines(final))) == Others(Read(Unlines(lines)))
            && ArgValues(Read(Unlines(final))) == [q.value]
  {
    var before, final := Read(Unlines(lines)), lines + [line];
    AddedLine(lines, line, q);
    assert Others(before + [q]) == Others(before) && ArgValues(before + [q]) == [q.value] by { AddedViews(before, q); }
    assert ValidPairs(before + [q]) by { AddKeyed(before, q); }
    CleanSnoc(lines, line);
  }

  lemma CleanSnoc(lines: seq<string>, line: string)
    requires CleanLines(lines) && CleanLine(line)
    ensures CleanLines(lines + [line])
  {
  }

  lemma AppendLine(lines: seq<string>, args: seq<string>, q: Pair)
    requires CleanLines(lines) && ValidPairs(Read(Unlines(lines))) && Writable(args)
    requires q.key == KEY && AllAscii(q.key) && q.value == Unwords(args)
    requires Run(PreKey, Unlines(lines)).PreKey? && !Walk(START, Unlines(lines)).continued
    requires ArgValues(Read(Unlines(lines))) == []
    ensures SetTo(Read(Unlines(lines)), lines + [ArgsLine(args)], |lines|, args)
  {
    NewLine(args);
    UnwordsValid(args);
    AppendAny(lines, ArgsLine(args), q);
  }

  // ---- The theorem ---------------------------------------------------------------------------

  lemma MergeAppends(t: string, ours: seq<string>)
    requires Plan(t) == Ok(Append) && Writable(ours)
    ensures MergeWrites(Read(t), Unlines(FileLines(t) + [ArgsLine(ours)]), ours)
  {
    PlanChecked(t);
    AppendWrites(t, ours);
  }

  lemma AppendWrites(t: string, ours: seq<string>)
    requires Settled(t) && ExtraOf(Located(t)) == [] && !OpenAtEnd(t) && Writable(ours)
    ensures MergeWrites(Read(t), Unlines(FileLines(t) + [ArgsLine(ours)]), ours)
  {
    SettledLines(t);
    assert ArgValues(Read(t)) == [] by { ExtraValues(Located(t)); }
    ClosedEnd(t);
    AppendedWrites(FileLines(t), ours);
  }

  lemma AppendedWrites(lines: seq<string>, ours: seq<string>)
    requires CleanLines(lines) && ValidPairs(Read(Unlines(lines))) && Writable(ours)
    requires Run(PreKey, Unlines(lines)).PreKey? && !Walk(START, Unlines(lines)).continued
    requires ArgValues(Read(Unlines(lines))) == []
    ensures MergeWrites(Read(Unlines(lines)), Unlines(lines + [ArgsLine(ours)]), ours)
  {
    assert AllAscii(KEY) by { ProbeIsAscii(); }
    AppendLine(lines, ours, Pair(KEY, Unwords(ours)));
    assert [] + ours == ours;
    MergeWritesWitness(Read(Unlines(lines)), lines + [ArgsLine(ours)], |lines|, ours, ours);
  }

  /** A rewrite has one assignment, whose words can be taken. */
  ghost predicate Rewrites(t: string, at: nat, words: seq<string>) {
    && Settled(t) && |ExtraOf(Located(t))| == 1
    && ExtraOf(Located(t))[0].first == at < |FileLines(t)|
    && LineWords(FileLines(t)[at], ExtraOf(Located(t))[0]) == Ok(words)
  }

  lemma RewriteChecked(t: string, at: nat, words: seq<string>)
    requires Plan(t) == Ok(Rewrite(at, words, None))
    ensures Rewrites(t, at, words)
  {
    PlanChecked(t);
  }

  lemma MergeRewrites(t: string, at: nat, words: seq<string>, ours: seq<string>)
    requires Rewrites(t, at, words) && Writable(ours)
    ensures at < |FileLines(t)| && MergeWrites(Read(t), Unlines(FileLines(t)[at := ArgsLine(words + ours)]), ours)
  {
    var p := RewriteReady(t, at, words);
    RewriteWrites(FileLines(t), at, p, words, ours);
  }

  /** What a rewrite starts from. */
  lemma RewriteReady(t: string, at: nat, words: seq<string>) returns (p: Pair)
    requires Rewrites(t, at, words)
    ensures at < |FileLines(t)| && Ready(FileLines(t), at, p, words, 1) && Read(t) == Read(Unlines(FileLines(t)))
  {
    p := PairOf(ExtraOf(Located(t))[0]);
    SettledLines(t);
    OperatorLine(t, words);
    assert |ArgValues(Read(t))| == 1 by { ExtraValues(Located(t)); }
    assert AllAscii(KEY) by { ProbeIsAscii(); }
  }

  /** The first of `n` assignments stands on line `at`, with the operator's words. */
  ghost predicate Ready(lines: seq<string>, at: nat, p: Pair, words: seq<string>, n: nat) {
    && CleanLines(lines) && ValidPairs(Read(Unlines(lines))) && Writable(words)
    && at < |lines| && Alone(lines, at, p, false) && p.key == KEY && AllAscii(p.key)
    && |ArgValues(Read(Unlines(lines)))| == n && words == OperatorWords(Read(Unlines(lines)))
  }

  lemma RewriteWrites(lines: seq<string>, at: nat, p: Pair, words: seq<string>, ours: seq<string>)
    requires Ready(lines, at, p, words, 1) && Writable(ours)
    ensures MergeWrites(Read(Unlines(lines)), Unlines(lines[at := ArgsLine(words + ours)]), ours)
  {
    RewriteOne(lines, at, p, words + ours);
    MergeWritesWitness(Read(Unlines(lines)), lines[at := ArgsLine(words + ours)], at, words + ours, ours);
  }

  /** A repair has two assignments, each on a line of its own. */
  ghost predicate Repairs(t: string, at: nat, words: seq<string>, j: nat) {
    && Settled(t) && |ExtraOf(Located(t))| == 2
    && var lines, extra := FileLines(t), ExtraOf(Located(t));
    && extra[0].first == extra[0].last == at < |lines| && extra[1].first == extra[1].last == j < |lines|
    && LineWords(lines[at], extra[0]) == Ok(words)
  }

  lemma RepairChecked(t: string, at: nat, words: seq<string>, j: nat)
    requires Plan(t) == Ok(Rewrite(at, words, Some(j)))
    ensures Repairs(t, at, words, j)
  {
    PlanChecked(t);
  }

  lemma RepairOrder(t: string, at: nat, words: seq<string>, j: nat)
    requires Repairs(t, at, words, j)
    ensures at < j
  {
    InLineOrder(t);
  }

  lemma RepairLines(t: string, at: nat, words: seq<string>, j: nat)
    requires Repairs(t, at, words, j)
    ensures var lines, extra := FileLines(t), ExtraOf(Located(t));
            && Settled(t) && CleanLines(lines) && at < j < |lines| && |extra| == 2
            && Alone(lines, at, PairOf(extra[0]), false) && extra[0].key == KEY
            && Alone(lines, j, PairOf(extra[1]), extra[1].afterContinuedComment) && extra[1].key == KEY
            && ArgValues(Read(Unlines(lines[..at]))) == []
    ensures words == OperatorWords(Read(t)) && Writable(words)
  {
    var lines, extra := FileLines(t), ExtraOf(Located(t));
    assert CleanLines(lines) by { SettledLines(t); }
    assert at < j by { RepairOrder(t, at, words, j); }
    assert Alone(lines, j, PairOf(extra[1]), extra[1].afterContinuedComment) && extra[1].key == KEY by { ExtraAlone(t, 1); }
    OperatorLine(t, words);
  }

  lemma RepairReads(t: string, at: nat, words: seq<string>, j: nat)
    requires Repairs(t, at, words, j)
    ensures var u := Unlines(FileLines(t)); Read(t) == Read(u) && ValidPairs(Read(u)) && |ArgValues(Read(u))| == 2
  {
    SettledLines(t);
    ExtraValues(Located(t));
  }

  lemma RepairWrites(lines: seq<string>, at: nat, p: Pair, j: nat, q: Pair, cq: bool, words: seq<string>, ours: seq<string>)
    requires Ready(lines, at, p, words, 2) && Writable(ours)
    requires at < j < |lines| && Alone(lines, j, q, cq) && q.key == KEY
    requires ArgValues(Read(Unlines(lines[..at]))) == []
    ensures MergeWrites(Read(Unlines(lines)), Unlines(Without(lines[at := ArgsLine(words + ours)], j)), ours)
  {
    RewriteAndDrop(lines, at, p, j, q, cq, words + ours);
    MergeWritesWitness(Read(Unlines(lines)), Without(lines[at := ArgsLine(words + ours)], j), at, words + ours, ours);
  }

  lemma MergeRepairs(t: string, at: nat, words: seq<string>, j: nat, ours: seq<string>)
    requires Repairs(t, at, words, j) && Writable(ours)
    ensures at < |FileLines(t)| && j < |FileLines(t)|
    ensures MergeWrites(Read(t), Unlines(Without(FileLines(t)[at := ArgsLine(words + ours)], j)), ours)
  {
    var p, q, cq := RepairReady(t, at, words, j);
    RepairWrites(FileLines(t), at, p, j, q, cq, words, ours);
  }

  /** What a repair starts from. */
  lemma RepairReady(t: string, at: nat, words: seq<string>, j: nat) returns (p: Pair, q: Pair, cq: bool)
    requires Repairs(t, at, words, j)
    ensures var lines := FileLines(t);
            && Ready(lines, at, p, words, 2) && at < j < |lines| && Alone(lines, j, q, cq) && q.key == KEY
            && ArgValues(Read(Unlines(lines[..at]))) == [] && Read(t) == Read(Unlines(lines))
  {
    var extra := ExtraOf(Located(t));
    p, q, cq := PairOf(extra[0]), PairOf(extra[1]), extra[1].afterContinuedComment;
    RepairLines(t, at, words, j);
    RepairReads(t, at, words, j);
    assert AllAscii(KEY) by { ProbeIsAscii(); }
  }

  lemma MergeLines(t: string, ours: seq<string>)
    requires Plan(t).Ok? && Writable(ours)
    ensures MergeWrites(Read(t), Unlines(Edited(FileLines(t), Plan(t).value, ours)), ours)
  {
    match Plan(t).value {
      case Append => MergeAppends(t, ours);
      case Rewrite(at, words, None) =>
        RewriteChecked(t, at, words);
        MergeRewrites(t, at, words, ours);
      case Rewrite(at, words, Some(j)) =>
        RepairChecked(t, at, words, j);
        MergeRepairs(t, at, words, j, ours);
    }
  }

  /** For every file it accepts, the result is a file systemd loads; it assigns
      KUBELET_EXTRA_ARGS exactly once, to the operator's words without the two flags followed
      by ours; every other assignment keeps its key, value and order; and kubelet's own flag
      parser reads our two paths from any command line that ends in those words. */
  lemma MergeKeepsMeaning(t: string, binDir: string, configFile: string, before: seq<string>)
    requires NodePath(binDir) && NodePath(configFile) && Merge(t, binDir, configFile).Ok?
    ensures var out := Merge(t, binDir, configFile).value;
            && Parse(out).Ok?
            && Others(Read(out)) == Others(Read(t))
            && |ArgValues(Read(out))| == 1
            && var words := Words(ArgValues(Read(out))[0]);
            && words == OperatorWords(Read(t)) + Ours(binDir, configFile)
            && LastValue(before + words, |before + words|, BIN_DIR) == binDir
            && LastValue(before + words, |before + words|, CONFIG) == configFile
  {
    var ours := Ours(binDir, configFile);
    OursWritable(binDir, configFile);
    MergeLines(t, ours);
    MergeWritesParses(Read(t), Merge(t, binDir, configFile).value, ours);
    OursAreRead(before, OperatorWords(Read(t)), binDir, configFile);
  }

  lemma OursAreRead(before: seq<string>, words: seq<string>, binDir: string, configFile: string)
    ensures var all := before + (words + Ours(binDir, configFile));
            LastValue(all, |all|, BIN_DIR) == binDir && LastValue(all, |all|, CONFIG) == configFile
  {
    OursWin(before + words, binDir, configFile);
    assert before + words + Ours(binDir, configFile) == before + (words + Ours(binDir, configFile));
  }

  lemma MergeWritesParses(before: seq<Pair>, out: string, ours: seq<string>)
    requires MergeWrites(before, out, ours)
    ensures Parse(out).Ok?
  {
    var lines, i :| Written(out, lines, i, OperatorWords(before) + ours);
    WrittenParses(out, lines, i, OperatorWords(before) + ours);
  }

  lemma WrittenParses(out: string, lines: seq<string>, i: nat, args: seq<string>)
    requires Written(out, lines, i, args)
    ensures Parse(out).Ok? && FileLines(out) == lines && Ended(out) == out
  {
    LoadableLines(lines);
    UnlinesFileLines(lines);
    ParseOk(out);
    FileLinesText(out);
  }

  /** Nothing of the operator's is lost with a dropped line: it held only the two flags. */
  lemma DroppedHeldOnlyFlags(t: string, at: nat, words: seq<string>, j: nat)
    requires Plan(t) == Ok(Rewrite(at, words, Some(j)))
    ensures |ArgValues(Read(t))| == 2 && Strip(Words(ArgValues(Read(t))[1])) == []
  {
    RepairChecked(t, at, words, j);
    PlanChecked(t);
    DroppedValue(t, at, words, j);
  }

  lemma DroppedValue(t: string, at: nat, words: seq<string>, j: nat)
    requires Repairs(t, at, words, j) && TwoFlagLine(FileLines(t)[j])
    ensures |ArgValues(Read(t))| == 2 && Strip(Words(ArgValues(Read(t))[1])) == []
  {
    RepairLines(t, at, words, j);
    var v := TwoFlagValue(FileLines(t)[j]);
    SettledLines(t);
    ExtraValues(Located(t));
    assert [PairOf(ExtraOf(Located(t))[1])][0] == [Pair(KEY, v)][0];
  }

  /** A line with the two flags is read as those flags. */
  lemma TwoFlagValue(line: string) returns (v: string)
    requires TwoFlagLine(line) && CleanLine(line)
    ensures Pairs(PreKey, line + "\n") == [Pair(KEY, v)] && Strip(Words(v)) == []
  {
    v := TwoFlagText(line);
    ProbeIsKey();
    TwoFlagRead(line, KEY, v);
  }

  lemma TwoFlagText(line: string) returns (v: string)
    requires TwoFlagLine(line) && CleanLine(line)
    ensures line == KEY + "=\"" + v + "\"" && AllTame(v) && Strip(Words(v)) == []
  {
    var binDir, configFile := TwoFlagParts(line);
    v := BIN_DIR + "=" + binDir + " " + (CONFIG + "=" + configFile);
    assert Strip(Words(v)) == [] by { TwoFlagsOnly(v, binDir, configFile); }
    assert AllTame(v) by { BothTame(binDir, configFile); }
  }

  lemma BothTame(binDir: string, configFile: string)
    requires NoSpace(binDir) && NoSpace(configFile) && AllPlain(binDir) && AllPlain(configFile)
    requires '\0' !in binDir && '\0' !in configFile
    ensures AllTame(BIN_DIR + "=" + binDir + " " + (CONFIG + "=" + configFile))
  {
    assert AllTame(BIN_DIR) by { BinDirText(); FlagTextTame(BIN_DIR); }
    assert AllTame(CONFIG) by { ConfigText(); FlagTextTame(CONFIG); }
    FlagsTame(BIN_DIR, binDir, CONFIG, configFile);
  }

  lemma TwoFlagRead(line: string, key: string, v: string)
    requires line == key + "=\"" + v + "\"" && KeyName(key) && '\0' !in key && AllTame(v)
    ensures Pairs(PreKey, line + "\n") == [Pair(key, v)]
  {
    assert line == key + "=" + InQuotes(v);
    assert Pairs(PreKey, key + "=" + InQuotes(v) + "\n") == [Pair(key, v)] by { QuotedLine(key, v); }
  }

  lemma FlagsTame(b: string, binDir: string, c: string, configFile: string)
    requires AllTame(b) && AllTame(c)
    requires NoSpace(binDir) && NoSpace(configFile) && AllPlain(binDir) && AllPlain(configFile)
    requires '\0' !in binDir && '\0' !in configFile
    ensures AllTame(b + "=" + binDir + " " + (c + "=" + configFile))
  {
    PartTame(b, binDir);
    PartTame(c, configFile);
    var x, y := b + "=" + binDir, c + "=" + configFile;
    var v := x + " " + y;
    assert v[|x|] == ' ' && Tame(' ');
    assert forall k :: |x| < k < |v| ==> v[k] == y[k - |x| - 1];
    assert forall k :: 0 <= k < |x| ==> v[k] == x[k];
  }

  lemma PartTame(flag: string, path: string)
    requires AllTame(flag) && NoSpace(path) && AllPlain(path) && '\0' !in path
    ensures AllTame(flag + "=" + path)
  {
    var n, w := |flag|, flag + "=" + path;
    forall k | 0 <= k < |w| ensures Tame(w[k]) {
      if k < n { assert w[k] == flag[k]; } else if k > n { assert w[k] == path[k - n - 1]; }
    }
  }

  // ---- Merging again -------------------------------------------------------------------------

  lemma {:induction false} OnlyExtra(found: seq<Assignment>, k: nat)
    requires k < |found| && found[k].key == KEY
    ensures found[k] in ExtraOf(found)
  {
    if k > 0 { OnlyExtra(found[1..], k - 1); }
  }

  /** The line a merge wrote, found again. */
  lemma FoundAgain(lines: seq<string>, i: nat, p: Pair) returns (a: Assignment)
    requires CleanLines(lines) && i < |lines| && Alone(lines, i, p, false) && p.key == KEY
    requires |ArgValues(Read(Unlines(lines)))| == 1
    ensures ExtraOf(Located(Unlines(lines))) == [a] && a.first == a.last == i && !a.afterContinuedComment
  {
    AloneIsFound(lines, i, p);
    a := Found(PlaceAt(lines, i), lines[i] + "\n")[0];
    var k := LocatedAt(lines, i);
    TheOnlyExtra(Unlines(lines), k, a);
  }

  lemma TheOnlyExtra(t: string, k: nat, a: Assignment)
    requires k < |Located(t)| && Located(t)[k] == a && a.key == KEY && |ArgValues(Read(t))| == 1
    ensures ExtraOf(Located(t)) == [a]
  {
    ExtraCount(t);
    OnlyExtra(Located(t), k);
  }

  lemma ExtraCount(t: string)
    ensures |ExtraOf(Located(t))| == |ArgValues(Read(t))|
  {
    LocatedIsRead(t);
    ExtraValues(Located(t));
  }

  lemma LocatedAt(lines: seq<string>, i: nat) returns (k: nat)
    requires CleanLines(lines) && i < |lines| && Found(PlaceAt(lines, i), lines[i] + "\n") != []
    ensures k < |Located(Unlines(lines))| && Located(Unlines(lines))[k] == Found(PlaceAt(lines, i), lines[i] + "\n")[0]
  {
    k := |Found(START, Unlines(lines[..i]))|;
    Around(lines, i);
  }

  /** An assignment that stands alone on a line is found there. */
  lemma AloneIsFound(lines: seq<string>, i: nat, p: Pair)
    requires CleanLines(lines) && i < |lines| && Alone(lines, i, p, false)
    ensures var on := Found(PlaceAt(lines, i), lines[i] + "\n");
            |on| == 1 && PairOf(on[0]) == p && on[0].first == on[0].last == i && !on[0].afterContinuedComment
  {
    var q := PlaceAt(lines, i);
    var on := Found(q, lines[i] + "\n");
    assert LineStarts(q) && q.line == i by { PlaceAtStarts(lines, i); }
    assert q.scan == PreKey by {
      assert START.scan == PreKey;
      WalkIsRun(START, Unlines(lines[..i]));
    }
    WalkIsRun(q, lines[i] + "\n");
    assert PairsOf(on)[0] == PairOf(on[0]);
    OneLine(q, lines[i]);
  }

  lemma PlanAgain(out: string, lines: seq<string>, i: nat, args: seq<string>)
    requires Written(out, lines, i, args)
    ensures FileLines(out) == lines && Plan(out) == Ok(Rewrite(i, Strip(args), None))
  {
    WrittenParses(out, lines, i, args);
    var _ := FoundAgain(lines, i, Pair(KEY, Unwords(args)));
    NewLineTaken(args);
    ParseOk(out);
  }

  /** A second merge changes nothing: the result is its own result, byte for byte. */
  lemma MergeIsIdempotent(t: string, binDir: string, configFile: string)
    requires NodePath(binDir) && NodePath(configFile) && Merge(t, binDir, configFile).Ok?
    ensures var out := Merge(t, binDir, configFile).value; Merge(out, binDir, configFile) == Ok(out)
  {
    var ours, words, out := Ours(binDir, configFile), OperatorWords(Read(t)), Merge(t, binDir, configFile).value;
    OursWritable(binDir, configFile);
    MergeLines(t, ours);
    var lines, i :| Written(out, lines, i, words + ours);
    MergedStrip(t, binDir, configFile);
    MergeAgain(out, lines, i, words, binDir, configFile);
  }

  lemma MergeAgain(out: string, lines: seq<string>, i: nat, words: seq<string>, binDir: string, configFile: string)
    requires Written(out, lines, i, words + Ours(binDir, configFile))
    requires Strip(words + Ours(binDir, configFile)) == words
    ensures Merge(out, binDir, configFile) == Ok(out)
  {
    var args := words + Ours(binDir, configFile);
    PlanAgain(out, lines, i, args);
    assert lines[i := ArgsLine(args)] == lines;
  }

  lemma MergedStrip(t: string, binDir: string, configFile: string)
    ensures Strip(OperatorWords(Read(t)) + Ours(binDir, configFile)) == OperatorWords(Read(t))
  {
    if ArgValues(Read(t)) == [] {
      StripOurs(binDir, configFile);
      assert [] + Ours(binDir, configFile) == Ours(binDir, configFile);
    } else {
      StripMerged(Words(ArgValues(Read(t))[0]), binDir, configFile);
    }
  }

  // ---- The installer's method ----------------------------------------------------------------

  method ExtraAssignments(found: seq<Assignment>) returns (extra: seq<Assignment>)
    ensures extra == ExtraOf(found)
  {
    extra := [];
    for k := 0 to |found|
      invariant ExtraOf(found) == extra + ExtraOf(found[k..])
    {
      assert found[k..][0] == found[k] && found[k..][1..] == found[k + 1..];
      if found[k].key == KEY {
        extra := extra + [found[k]];
      }
    }
  }

  method OperatorArgs(line: string, a: Assignment) returns (r: Result<seq<string>>)
    ensures r == LineWords(line, a)
  {
    if a.first != a.last {
      return Err(Continues);
    }
    if a.afterContinuedComment {
      return Err(AfterContinuedComment);
    }
    var val := Unquote(Trim(AfterEq(line)));
    if val.None? {
      return Err(Quoting);
    }
    var args := StripCredentialProviderFlags(Words(val.value));
    return Ok(args);
  }

  /** The edit a file needs, decided before anything is written. */
  method PlanEdit(existing: string) returns (r: Result<Edit>)
    ensures r == Plan(existing)
  {
    var parsed := ParseEnvFile(existing);
    if parsed.Err? {
      return Err(parsed.why);
    }
    ExtraOnLines(existing);
    var lines := FileLines(existing);
    var extra := ExtraAssignments(parsed.value);
    var appended: Option<nat> := None;
    if |extra| == 2 && AppendedByEarlier(extra[0], extra[1], lines) {
      appended := Some(extra[1].first);
    } else if |extra| > 1 {
      return Err(Multiple);
    }
    if extra == [] {
      var open := OpenAtEnd(existing);
      return if open then Err(Open) else Ok(Append);
    }
    var taken := OperatorArgs(lines[extra[0].first], extra[0]);
    if taken.Err? {
      return Err(taken.why);
    }
    if Ended(existing) != existing && OpenAtEnd(existing) {
      return Err(Open);
    }
    return Ok(Rewrite(extra[0].first, taken.value, appended));
  }

  method MergeExtraArgs(existing: string, binDir: string, configFile: string) returns (r: Result<string>)
    ensures r == Merge(existing, binDir, configFile)
  {
    var plan := PlanEdit(existing);
    if plan.Err? {
      return Err(plan.why);
    }
    var lines, ours := FileLines(existing), Ours(binDir, configFile);
    match plan.value {
      case Append =>
        lines := lines + [ArgsLine(ours)];
      case Rewrite(at, args, drop) =>
        lines := lines[at := ArgsLine(args + ours)];
        if drop.Some? {
          lines := lines[..drop.value] + lines[drop.value + 1..];
        }
    }
    EditedNotEmpty(existing, binDir, configFile);
    JoinEnded(lines);
    return Ok(JoinLines(lines) + "\n");
  }

  lemma EditedNotEmpty(t: string, binDir: string, configFile: string)
    requires Plan(t).Ok?
    ensures Edited(FileLines(t), Plan(t).value, Ours(binDir, configFile)) != []
  {
    match Plan(t).value
    case Append =>
    case Rewrite(at, words, None) =>
    case Rewrite(at, words, Some(j)) =>
      RepairChecked(t, at, words, j);
      RepairOrder(t, at, words, j);
  }
}

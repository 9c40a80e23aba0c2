/** How systemd reads an EnvironmentFile (installer/defaultkubelet.go, parseEnvFile).

`Scan` is systemd's automaton with exactly the data each state needs. `Read` is the list of
assignments it yields; `Located` adds the lines they stand on. `ParseEnvFile` is the
installer's port, a loop over bytes with shared buffers and whitespace marks.
*/
module EnvFile {
  import opened Text

  /** A key or value is kept in two parts: the text, and a run of whitespace after it that
      counts only if more text follows. */
  datatype Scan =
    | PreKey
    | InKey(key: string, pending: string)
    | PreValue(key: string, value: string)
    | InValue(key: string, value: string, pending: string)
    | ValueEscape(key: string, value: string)
    | SingleQuote(key: string, value: string)
    | DoubleQuote(key: string, value: string)
    | DoubleQuoteEscape(key: string, value: string)
    | Comment
    | CommentEscape

  datatype Pair = Pair(key: string, value: string)

  predicate IsComment(c: char) { c == '#' || c == ';' }
  predicate NeedsEscape(c: char) { c == '"' || c == '\\' || c == '`' || c == '$' }

  function Next(s: Scan, c: char): Scan {
    match s
    case PreKey =>
      if IsComment(c) then Comment else if IsSpace(c) then PreKey else InKey([c], "")
    case InKey(key, pending) =>
      if IsNewline(c) then PreKey
      else if c == '=' then PreValue(key, "")
      else if IsSpace(c) then InKey(key, pending + [c])
      else InKey(key + pending + [c], "")
    case PreValue(key, value) =>
      if IsNewline(c) then PreKey
      else if c == '\'' then SingleQuote(key, value)
      else if c == '"' then DoubleQuote(key, value)
      else if c == '\\' then ValueEscape(key, value)
      else if IsSpace(c) then s
      else InValue(key, value + [c], "")
    case InValue(key, value, pending) =>
      if IsNewline(c) then PreKey
      else if c == '\\' then ValueEscape(key, value + pending)
      else if IsSpace(c) then InValue(key, value, pending + [c])
      else InValue(key, value + pending + [c], "")
    case ValueEscape(key, value) =>
      InValue(key, if IsNewline(c) then value else value + [c], "")
    case SingleQuote(key, value) =>
      if c == '\'' then PreValue(key, value) else SingleQuote(key, value + [c])
    case DoubleQuote(key, value) =>
      if c == '"' then PreValue(key, value)
      else if c == '\\' then DoubleQuoteEscape(key, value)
      else DoubleQuote(key, value + [c])
    case DoubleQuoteEscape(key, value) =>
      DoubleQuote(key, if NeedsEscape(c) then value + [c] else if c != '\n' then value + ['\\', c] else value)
    case Comment =>
      if c == '\\' then CommentEscape else if IsNewline(c) then PreKey else Comment
    case CommentEscape =>
      if IsNewline(c) then PreKey else Comment
  }

  /** The assignment a byte completes. */
  function Emitted(s: Scan, c: char): seq<Pair> {
    if (s.PreValue? || s.InValue?) && IsNewline(c) then [Pair(s.key, s.value)] else []
  }

  /** The assignment the end of the file completes. */
  function AtEnd(s: Scan): seq<Pair> {
    if s.PreKey? || s.InKey? || s.Comment? || s.CommentEscape? then [] else [Pair(s.key, s.value)]
  }

  function Run(s: Scan, t: string): Scan
    decreases |t|
  {
    if t == "" then s else Run(Next(s, t[0]), t[1..])
  }

  function Pairs(s: Scan, t: string): seq<Pair>
    decreases |t|
  {
    if t == "" then [] else Emitted(s, t[0]) + Pairs(Next(s, t[0]), t[1..])
  }

  /** What systemd reads from a file. */
  function Read(t: string): seq<Pair> { Pairs(PreKey, t) + AtEnd(Run(PreKey, t)) }

  lemma RunUnfold(s: Scan, t: string)
    requires t != ""
    ensures Run(s, t) == Run(Next(s, t[0]), t[1..])
    ensures Pairs(s, t) == Emitted(s, t[0]) + Pairs(Next(s, t[0]), t[1..])
  {
  }

  lemma {:induction false} RunConcat(s: Scan, a: string, b: string)
    ensures Run(s, a + b) == Run(Run(s, a), b)
    ensures Pairs(s, a + b) == Pairs(s, a) + Pairs(Run(s, a), b)
    decreases |a|
  {
    if a == "" {
      assert a + b == b;
    } else {
      var here, n := Emitted(s, a[0]), Next(s, a[0]);
      assert (a + b)[0] == a[0] && (a + b)[1..] == a[1..] + b;
      RunConcat(n, a[1..], b);
      RunUnfold(s, a + b);
      RunUnfold(s, a);
      Assoc(here, Pairs(n, a[1..]), Pairs(Run(n, a[1..]), b));
    }
  }

  // ---- Assignments with their lines --------------------------------------------------------

  datatype Assignment = Assignment(key: string, value: string, first: nat, last: nat, afterContinuedComment: bool)

  function PairOf(a: Assignment): Pair { Pair(a.key, a.value) }

  function PairsOf(xs: seq<Assignment>): (r: seq<Pair>)
    ensures |r| == |xs| && forall k :: 0 <= k < |xs| ==> r[k] == PairOf(xs[k])
  {
    seq(|xs|, k requires 0 <= k < |xs| => PairOf(xs[k]))
  }

  /** The scan with its place in the file: `line` is the current line, `text` what was read
      of it, `first` the line the current assignment started on. `continued` tells that the
      line before was a comment ending in a backslash, `starts` that it was so where the
      current assignment started. */
  datatype Place = Place(scan: Scan, line: nat, text: string, first: nat, continued: bool, starts: bool)

  const START := Place(PreKey, 0, "", 0, false, false)

  /** A comment whose last character before the line break is a backslash. */
  predicate CommentEndsInBackslash(line: string) {
    var body := if line != "" && line[|line| - 1] == '\r' then line[..|line| - 1] else line;
    var trimmed := TrimLeft(body);
    trimmed != "" && IsComment(trimmed[0]) && body[|body| - 1] == '\\'
  }

  function Step(p: Place, c: char): Place {
    var scan := Next(p.scan, c);
    var begins := p.scan.PreKey? && scan.InKey?;
    Place(scan,
          if c == '\n' then p.line + 1 else p.line,
          if c == '\n' then "" else p.text + [c],
          if begins then p.line else p.first,
          if c == '\n' then scan.PreKey? && CommentEndsInBackslash(p.text) else p.continued,
          if begins then p.continued else p.starts)
  }

  function Placed(p: Place, ps: seq<Pair>): (r: seq<Assignment>)
    ensures |r| == |ps| && PairsOf(r) == ps
    ensures forall k :: 0 <= k < |r| ==> r[k] == Assignment(ps[k].key, ps[k].value, p.first, p.line, p.starts)
  {
    seq(|ps|, k requires 0 <= k < |ps| => Assignment(ps[k].key, ps[k].value, p.first, p.line, p.starts))
  }

  function Walk(p: Place, t: string): Place
    decreases |t|
  {
    if t == "" then p else Walk(Step(p, t[0]), t[1..])
  }

  function Found(p: Place, t: string): seq<Assignment>
    decreases |t|
  {
    if t == "" then [] else Placed(p, Emitted(p.scan, t[0])) + Found(Step(p, t[0]), t[1..])
  }

  /** The assignments of a file with their lines. */
  function Located(t: string): seq<Assignment> {
    var p := Walk(START, t);
    Found(START, t) + Placed(p, AtEnd(p.scan))
  }

  lemma {:induction false} WalkConcat(p: Place, a: string, b: string)
    ensures Walk(p, a + b) == Walk(Walk(p, a), b)
    decreases |a|
  {
    if a == "" {
      assert a + b == b;
    } else {
      assert (a + b)[1..] == a[1..] + b;
      WalkConcat(Step(p, a[0]), a[1..], b);
    }
  }

  lemma FoundUnfold(p: Place, t: string)
    requires t != ""
    ensures Found(p, t) == Placed(p, Emitted(p.scan, t[0])) + Found(Step(p, t[0]), t[1..])
  {
  }

  lemma {:induction false} FoundConcat(p: Place, a: string, b: string)
    ensures Found(p, a + b) == Found(p, a) + Found(Walk(p, a), b)
    decreases |a|
  {
    if a == "" {
      assert a + b == b;
    } else {
      var here, q := Placed(p, Emitted(p.scan, a[0])), Step(p, a[0]);
      assert (a + b)[0] == a[0] && (a + b)[1..] == a[1..] + b;
      var after := Walk(q, a[1..]);
      assert Walk(p, a) == after;
      FoundUnfold(p, a + b);
      FoundConcat(q, a[1..], b);
      FoundUnfold(p, a);
      Assoc(here, Found(q, a[1..]), Found(after, b));
    }
  }

  lemma PairsOfConcat(a: seq<Assignment>, b: seq<Assignment>)
    ensures PairsOf(a + b) == PairsOf(a) + PairsOf(b)
  {
  }

  lemma {:induction false} WalkIsRun(p: Place, t: string)
    ensures Walk(p, t).scan == Run(p.scan, t)
    ensures PairsOf(Found(p, t)) == Pairs(p.scan, t)
    decreases |t|
  {
    if t != "" {
      WalkIsRun(Step(p, t[0]), t[1..]);
      PairsOfConcat(Placed(p, Emitted(p.scan, t[0])), Found(Step(p, t[0]), t[1..]));
    }
  }

  lemma LocatedIsRead(t: string)
    ensures PairsOf(Located(t)) == Read(t)
  {
    WalkIsRun(START, t);
    PairsOfConcat(Found(START, t), Placed(Walk(START, t), AtEnd(Walk(START, t).scan)));
  }

  // ---- The parser --------------------------------------------------------------------------

  /** A byte systemd refuses, or a carriage return that does not end a line. */
  predicate StrayReturnAt(t: string, i: nat)
    requires i < |t|
  {
    t[i] == '\r' && (i + 1 == |t| || t[i + 1] != '\n')
  }

  predicate Loadable(t: string) {
    && (forall i :: 0 <= i < |t| ==> t[i] != '\0')
    && (forall i :: 0 <= i < |t| ==> !StrayReturnAt(t, i))
  }

  predicate ValidPair(p: Pair) { ValidUtf8(p.key) && ValidUtf8(p.value) }
  predicate ValidPairs(ps: seq<Pair>) { forall k :: 0 <= k < |ps| ==> ValidPair(ps[k]) }

  datatype Refusal = Unloadable | StrayReturn | Multiple | Continues | AfterContinuedComment | Quoting | Open

  datatype Result<+T> = Ok(value: T) | Err(why: Refusal)

  /** The whole of parseEnvFile: the assignments, or why the file is refused. */
  function Parse(t: string): Result<seq<Assignment>> {
    if '\0' in t then Err(Unloadable)
    else if exists i :: 0 <= i < |t| && StrayReturnAt(t, i) then Err(StrayReturn)
    else if !ValidPairs(Read(t)) then Err(Unloadable)
    else Ok(Located(t))
  }

  lemma ParseOk(t: string)
    ensures Parse(t).Ok? <==> Loadable(t) && ValidPairs(Read(t))
    ensures Parse(t).Ok? ==> Parse(t) == Ok(Located(t))
  {
  }

  datatype State = preKey | inKey | preValue | inValue | valueEscape | singleQuote | doubleQuote | doubleQuoteEscape | comment | commentEscape

  /** The part of a buffer before its whitespace mark, and the part after it. */
  function Firm(buf: string, mark: int): string {
    if 0 <= mark <= |buf| then buf[..mark] else buf
  }

  function Loose(buf: string, mark: int): string {
    if 0 <= mark <= |buf| then buf[mark..] else ""
  }

  /** The parser's variables. A mark is the index in its buffer where a run of whitespace
      starts that may turn out to be trailing, or -1. */
  datatype Vars = Vars(state: State, key: string, value: string, keyMark: int, valueMark: int)

  /** The automaton state that the parser's variables stand for. */
  function Meaning(v: Vars): Scan {
    var k := Firm(v.key, v.keyMark);
    match v.state
    case preKey => PreKey
    case inKey => InKey(k, Loose(v.key, v.keyMark))
    case preValue => PreValue(k, v.value)
    case inValue => InValue(k, Firm(v.value, v.valueMark), Loose(v.value, v.valueMark))
    case valueEscape => ValueEscape(k, v.value)
    case singleQuote => SingleQuote(k, v.value)
    case doubleQuote => DoubleQuote(k, v.value)
    case doubleQuoteEscape => DoubleQuoteEscape(k, v.value)
    case comment => Comment
    case commentEscape => CommentEscape
  }

  /** Stale marks and buffers never matter: outside a value there is no value text, and the
      value mark is set in `inValue` only. */
  predicate Tidy(v: Vars) {
    match v.state
    case preKey => v.value == ""
    case comment => v.value == ""
    case commentEscape => v.value == ""
    case inKey => v.value == "" && -1 <= v.keyMark <= |v.key|
    case inValue => -1 <= v.keyMark <= |v.key| && -1 <= v.valueMark <= |v.value|
    case _ => -1 <= v.keyMark <= |v.key| && v.valueMark == -1
  }

  /** What one byte must do: `pushed` is the assignment it completes, `begins` tells that a key
      starts. */
  predicate Fed(v: Vars, c: char, r: Vars, pushed: seq<Pair>, begins: bool) {
    && Tidy(r) && Meaning(r) == Next(Meaning(v), c)
    && pushed == Emitted(Meaning(v), c)
    && begins == (Meaning(v).PreKey? && Meaning(r).InKey?)
  }

  /** Where the whitespace mark is once `c` is added to the buffer. */
  function Marked(buf: string, mark: int, c: char): int {
    if !IsSpace(c) then -1 else if mark < 0 then |buf| else mark
  }

  /** More whitespace is loose; any other character firms up what was before it. */
  lemma MarkedIs(buf: string, mark: int, c: char)
    requires -1 <= mark <= |buf|
    ensures var m := Marked(buf, mark, c);
            && -1 <= m <= |buf + [c]|
            && Firm(buf + [c], m) == (if IsSpace(c) then Firm(buf, mark) else Firm(buf, mark) + Loose(buf, mark) + [c])
            && Loose(buf + [c], m) == if IsSpace(c) then Loose(buf, mark) + [c] else ""
  {
    if mark >= 0 {
      assert buf == buf[..mark] + buf[mark..];
      assert (buf + [c])[..mark] == buf[..mark] && (buf + [c])[mark..] == buf[mark..] + [c];
    }
  }

  lemma FirmAndLoose(buf: string, mark: int)
    requires -1 <= mark <= |buf|
    ensures Firm(buf, mark) + Loose(buf, mark) == buf
  {
  }

  /** Outside an assignment. */
  method FeedOutside(v: Vars, c: char) returns (r: Vars, pushed: seq<Pair>, begins: bool)
    requires Tidy(v) && (v.state.preKey? || v.state.comment? || v.state.commentEscape?)
    ensures Fed(v, c, r, pushed, begins)
  {
    r, pushed, begins := v, [], false;
    match v.state {
      case preKey =>
        if IsComment(c) {
          r := r.(state := comment);
        } else if !IsSpace(c) {
          r, begins := r.(state := inKey, keyMark := -1, key := [c]), true;
        }
      case comment =>
        if c == '\\' {
          r := r.(state := commentEscape);
        } else if IsNewline(c) {
          r := r.(state := preKey);
        }
      case commentEscape =>
        r := r.(state := if IsNewline(c) then preKey else comment);
    }
  }

  method FeedKey(v: Vars, c: char) returns (r: Vars)
    requires Tidy(v) && v.state == inKey
    ensures Fed(v, c, r, [], false)
  {
    if IsNewline(c) {
      r := v.(state := preKey, key := "");
    } else if c == '=' {
      r := v.(state := preValue, valueMark := -1);
    } else {
      MarkedIs(v.key, v.keyMark, c);
      r := v.(keyMark := Marked(v.key, v.keyMark, c), key := v.key + [c]);
    }
  }

  /** Before a value or between its parts, and after a backslash. */
  method FeedPreValue(v: Vars, c: char) returns (r: Vars, pushed: seq<Pair>)
    requires Tidy(v) && (v.state.preValue? || v.state.valueEscape?)
    ensures Fed(v, c, r, pushed, false)
  {
    r, pushed := v, [];
    if v.state == valueEscape {
      r := r.(state := inValue, value := if IsNewline(c) then v.value else v.value + [c]);
    } else if IsNewline(c) {
      pushed := [Pair(Firm(v.key, v.keyMark), v.value)];
      r := r.(state := preKey, key := "", value := "");
    } else if c == '\'' {
      r := r.(state := singleQuote);
    } else if c == '"' {
      r := r.(state := doubleQuote);
    } else if c == '\\' {
      r := r.(state := valueEscape);
    } else if !IsSpace(c) {
      r := r.(state := inValue, value := v.value + [c]);
    }
  }

  method FeedValue(v: Vars, c: char) returns (r: Vars, pushed: seq<Pair>)
    requires Tidy(v) && v.state == inValue
    ensures Fed(v, c, r, pushed, false)
  {
    pushed := [];
    if IsNewline(c) {
      pushed := [Pair(Firm(v.key, v.keyMark), Firm(v.value, v.valueMark))];
      r := v.(state := preKey, key := "", value := "");
    } else if c == '\\' {
      FirmAndLoose(v.value, v.valueMark);
      r := v.(state := valueEscape, valueMark := -1);
    } else {
      MarkedIs(v.value, v.valueMark, c);
      r := v.(valueMark := Marked(v.value, v.valueMark, c), value := v.value + [c]);
    }
  }

  method FeedQuoted(v: Vars, c: char) returns (r: Vars)
    requires Tidy(v) && (v.state.singleQuote? || v.state.doubleQuote? || v.state.doubleQuoteEscape?)
    ensures Fed(v, c, r, [], false)
  {
    match v.state {
      case singleQuote =>
        r := if c == '\'' then v.(state := preValue) else v.(value := v.value + [c]);
      case doubleQuote =>
        if c == '"' {
          r := v.(state := preValue);
        } else if c == '\\' {
          r := v.(state := doubleQuoteEscape);
        } else {
          r := v.(value := v.value + [c]);
        }
      case doubleQuoteEscape =>
        r := v.(state := doubleQuote);
        if NeedsEscape(c) {
          r := r.(value := v.value + [c]);
        } else if c != '\n' {
          r := r.(value := v.value + ['\\', c]);
        }
    }
  }

  /** One byte: the parser's switch. */
  method Feed(v: Vars, c: char) returns (r: Vars, pushed: seq<Pair>, begins: bool)
    requires Tidy(v)
    ensures Fed(v, c, r, pushed, begins)
  {
    pushed, begins := [], false;
    match v.state {
      case inKey => r := FeedKey(v, c);
      case inValue => r, pushed := FeedValue(v, c);
      case preValue => r, pushed := FeedPreValue(v, c);
      case valueEscape => r, pushed := FeedPreValue(v, c);
      case singleQuote => r := FeedQuoted(v, c);
      case doubleQuote => r := FeedQuoted(v, c);
      case doubleQuoteEscape => r := FeedQuoted(v, c);
      case preKey => r, pushed, begins := FeedOutside(v, c);
      case comment => r, pushed, begins := FeedOutside(v, c);
      case commentEscape => r, pushed, begins := FeedOutside(v, c);
    }
  }

  /** Where the line that holds position `end` starts. */
  function LineStart(t: string, end: nat): (s: nat)
    requires end <= |t|
    ensures s <= end
  {
    if end == 0 || t[end - 1] == '\n' then end else LineStart(t, end - 1)
  }

  lemma WalkSnoc(t: string, i: nat)
    requires i < |t|
    ensures Walk(START, t[..i + 1]) == Step(Walk(START, t[..i]), t[i])
    ensures Found(START, t[..i + 1]) == Found(START, t[..i]) + Placed(Walk(START, t[..i]), Emitted(Walk(START, t[..i]).scan, t[i]))
  {
    assert t[..i + 1] == t[..i] + [t[i]];
    WalkConcat(START, t[..i], [t[i]]);
    FoundConcat(START, t[..i], [t[i]]);
    assert [t[i]][1..] == "";
  }

  lemma LineGrows(t: string, i: nat)
    requires i < |t|
    ensures t[LineStart(t, i + 1)..i + 1] == if t[i] == '\n' then "" else t[LineStart(t, i)..i] + [t[i]]
  {
  }

  lemma {:induction false} WalkText(t: string, i: nat)
    requires i <= |t|
    ensures Walk(START, t[..i]).text == t[LineStart(t, i)..i]
  {
    if i > 0 {
      var k := i - 1;
      WalkText(t, k);
      assert Walk(START, t[..k + 1]) == Step(Walk(START, t[..k]), t[k]) by { WalkSnoc(t, k); }
      TextNext(Walk(START, t[..k]), t, k);
    }
  }

  lemma TextNext(p: Place, t: string, i: nat)
    requires i < |t| && p.text == t[LineStart(t, i)..i]
    ensures Step(p, t[i]).text == t[LineStart(t, i + 1)..i + 1]
  {
    LineGrows(t, i);
  }

  /** Where the parser stands before byte `i`. */
  ghost predicate At(t: string, i: nat, vars: Vars, line: nat, first: nat, continued: bool, starts: bool, out: seq<Assignment>)
    requires i <= |t|
  {
    && Tidy(vars)
    && out == Found(START, t[..i])
    && Walk(START, t[..i]) == Place(Meaning(vars), line, t[LineStart(t, i)..i], first, continued, starts)
  }

  /** What byte `i` adds to what was found. */
  lemma FoundNext(t: string, i: nat, vars: Vars, line: nat, first: nat, continued: bool, starts: bool, out: seq<Assignment>)
    requires i < |t| && At(t, i, vars, line, first, continued, starts, out)
    ensures Found(START, t[..i + 1]) == out + Placed(Place(PreKey, line, "", first, false, starts), Emitted(Meaning(vars), t[i]))
  {
    WalkSnoc(t, i);
    PlacedByLines(Walk(START, t[..i]), Place(PreKey, line, "", first, false, starts), Emitted(Meaning(vars), t[i]));
  }

  /** Where the parser stands after byte `i`. */
  lemma AtNext(t: string, i: nat, vars: Vars, line: nat, first: nat, continued: bool, starts: bool, out: seq<Assignment>,
               r: Vars, line': nat, first': nat, continued': bool, starts': bool, out': seq<Assignment>)
    requires i < |t| && At(t, i, vars, line, first, continued, starts, out) && out' == Found(START, t[..i + 1])
    requires Tidy(r) && Meaning(r) == Next(Meaning(vars), t[i])
    requires line' == if t[i] == '\n' then line + 1 else line
    requires continued' == if t[i] == '\n' then r.state.preKey? && CommentEndsInBackslash(t[LineStart(t, i)..i]) else continued
    requires var begins := Meaning(vars).PreKey? && Meaning(r).InKey?;
             first' == (if begins then line else first) && starts' == (if begins then continued else starts)
    ensures At(t, i + 1, r, line', first', continued', starts', out')
  {
    var p := Walk(START, t[..i]);
    assert Walk(START, t[..i + 1]) == Step(p, t[i]) by { WalkSnoc(t, i); }
    assert Step(p, t[i]).text == t[LineStart(t, i + 1)..i + 1] by { WalkText(t, i + 1); }
    PreKeyMeans(r);
  }

  lemma PlacedByLines(p: Place, q: Place, ps: seq<Pair>)
    requires p.line == q.line && p.first == q.first && p.starts == q.starts
    ensures Placed(p, ps) == Placed(q, ps)
  {
  }

  lemma PreKeyMeans(v: Vars)
    ensures Meaning(v).PreKey? <==> v.state.preKey?
  {
  }

  /** What was found in a part of the file stays part of what is read from all of it. */
  lemma PartOfRead(t: string, i: nat)
    requires i <= |t|
    ensures PairsOf(Found(START, t[..i])) <= Read(t)
  {
    WalkIsRun(START, t[..i]);
    assert t == t[..i] + t[i..];
    RunConcat(PreKey, t[..i], t[i..]);
  }

  lemma InvalidPart(t: string, i: nat, k: nat)
    requires i <= |t| && k < |Found(START, t[..i])| && !ValidPair(PairOf(Found(START, t[..i])[k]))
    ensures !ValidPairs(Read(t))
  {
    PartOfRead(t, i);
    assert Read(t)[k] == PairsOf(Found(START, t[..i]))[k];
  }

  lemma AllOfRead(t: string, out: seq<Assignment>)
    requires out == Located(t)
    ensures ValidPairs(Read(t)) == (forall k :: 0 <= k < |out| ==> ValidPair(PairOf(out[k])))
  {
    LocatedIsRead(t);
    assert forall k :: 0 <= k < |out| ==> Read(t)[k] == PairOf(out[k]);
  }

  method CheckBytes(content: string) returns (r: Option<Refusal>)
    ensures r == if '\0' in content then Some(Unloadable)
                 else if exists i :: 0 <= i < |content| && StrayReturnAt(content, i) then Some(StrayReturn)
                 else None
  {
    if '\0' in content {
      return Some(Unloadable);
    }
    for i := 0 to |content|
      invariant forall k :: 0 <= k < i ==> !StrayReturnAt(content, k)
    {
      if StrayReturnAt(content, i) {
        return Some(StrayReturn);
      }
    }
    return None;
  }

  predicate AllValidPairs(out: seq<Assignment>) { forall k :: 0 <= k < |out| ==> ValidPair(PairOf(out[k])) }

  lemma AddsPair(out: seq<Assignment>, p: Place, ps: seq<Pair>)
    requires AllValidPairs(out) && |ps| <= 1
    ensures var more := out + Placed(p, ps);
            if ps == [] || ValidPair(ps[0]) then AllValidPairs(more) else |out| < |more| && !ValidPair(PairOf(more[|out|]))
  {
    if ps != [] { assert PairOf(Placed(p, ps)[0]) == ps[0]; }
  }

  /** One byte of the loop: the new variables, or an assignment that cannot be loaded. */
  method ScanByte(content: string, i: nat, vars: Vars, line: nat, first: nat, continued: bool, starts: bool, out: seq<Assignment>)
    returns (vars': Vars, line': nat, first': nat, continued': bool, starts': bool, out': seq<Assignment>, bad: bool)
    requires i < |content| && At(content, i, vars, line, first, continued, starts, out) && AllValidPairs(out)
    ensures bad ==> !ValidPairs(Read(content))
    ensures !bad ==> At(content, i + 1, vars', line', first', continued', starts', out') && AllValidPairs(out')
  {
    line', first', continued', starts', bad := line, first, continued, starts, false;
    var c := content[i];
    var pushed, begins;
    vars', pushed, begins := Feed(vars, c);
    FoundNext(content, i, vars, line, first, continued, starts, out);
    out' := out + Placed(Place(PreKey, line, "", first, false, starts), pushed);
    AddsPair(out, Place(PreKey, line, "", first, false, starts), pushed);
    if pushed != [] && !ValidPair(pushed[0]) {
      InvalidPart(content, i + 1, |out|);
      bad := true;
      return;
    }
    if begins {
      first', starts' := line, continued;
    }
    if c == '\n' {
      continued' := vars'.state == preKey && CommentEndsInBackslash(content[LineStart(content, i)..i]);
      line' := line + 1;
    }
    AtNext(content, i, vars, line, first, continued, starts, out, vars', line', first', continued', starts', out');
  }

  /** The byte loop, up to the end of the file; `bad` when systemd would not load it. */
  method ScanBytes(content: string) returns (vars: Vars, line: nat, first: nat, continued: bool, starts: bool, out: seq<Assignment>, bad: bool)
    ensures bad ==> !ValidPairs(Read(content))
    ensures !bad ==> At(content, |content|, vars, line, first, continued, starts, out) && AllValidPairs(out)
  {
    out, bad, vars := [], false, Vars(preKey, "", "", -1, -1);
    line, first, continued, starts := 0, 0, false, false;
    assert content[..0] == "";
    for i := 0 to |content|
      invariant !bad && At(content, i, vars, line, first, continued, starts, out) && AllValidPairs(out)
    {
      vars, line, first, continued, starts, out, bad := ScanByte(content, i, vars, line, first, continued, starts, out);
      if bad {
        return;
      }
    }
  }

  method ParseEnvFile(content: string) returns (r: Result<seq<Assignment>>)
    ensures r == Parse(content)
  {
    var refused := CheckBytes(content);
    if refused.Some? {
      return Err(refused.value);
    }
    var vars, line, first, continued, starts, out, bad := ScanBytes(content);
    if bad {
      return Err(Unloadable);
    }
    assert content[..|content|] == content;
    var pending := AtEnd(Meaning(vars));
    out := out + Placed(Place(PreKey, line, "", first, false, starts), pending);
    AllOfRead(content, out);
    if pending != [] && !ValidPair(pending[0]) {
      assert !ValidPair(PairOf(out[|out| - 1]));
      return Err(Unloadable);
    }
    return Ok(out);
  }
}

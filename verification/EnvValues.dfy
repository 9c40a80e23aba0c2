/** What a single assignment line of an environment file says: the key before the first '='
    and the value after it, as the installer takes them apart and as systemd reads them. */
module EnvValues {
  import opened Text
  import opened EnvFile
  import opened EnvLines

  /** A character that means itself inside and outside quotes. */
  predicate Plain(c: char) { c != '"' && c != '\'' && c != '\\' && c != '$' && c != '`' }
  predicate AllPlain(s: string) { forall k :: 0 <= k < |s| ==> Plain(s[k]) }

  /** unquoteExtraArgs: one pair of outer quotes goes; a value with any other quoting,
      escape or expansion is refused. */
  function Unquote(val: string): Option<string> {
    var v := if |val| >= 2 && (val[0] == '"' || val[0] == '\'') && val[|val| - 1] == val[0]
             then val[1..|val| - 1] else val;
    if AllPlain(v) then Some(v) else None
  }

  /** The text after the first '=' of a line. */
  function AfterEq(t: string): string {
    if t == "" then "" else if t[0] == '=' then t[1..] else AfterEq(t[1..])
  }

  // ---- Values ------------------------------------------------------------------------------

  lemma {:induction false} SkipSpaces(k: string, v: string, t: string)
    requires AllSpace(t) && NoEol(t)
    ensures Run(PreValue(k, v), t) == PreValue(k, v) && Pairs(PreValue(k, v), t) == []
  {
    if t != "" { SkipSpaces(k, v, t[1..]); }
  }

  lemma {:induction false} SingleQuoted(k: string, v: string, t: string)
    requires forall i :: 0 <= i < |t| ==> t[i] != '\''
    ensures Run(SingleQuote(k, v), t) == SingleQuote(k, v + t) && Pairs(SingleQuote(k, v), t) == []
    decreases |t|
  {
    if t == "" {
      assert v + t == v;
    } else {
      SingleQuoted(k, v + [t[0]], t[1..]);
      assert v + [t[0]] + t[1..] == v + t;
    }
  }

  lemma {:induction false} DoubleQuoted(k: string, v: string, t: string)
    requires forall i :: 0 <= i < |t| ==> t[i] != '"' && t[i] != '\\'
    ensures Run(DoubleQuote(k, v), t) == DoubleQuote(k, v + t) && Pairs(DoubleQuote(k, v), t) == []
    decreases |t|
  {
    if t == "" {
      assert v + t == v;
    } else {
      DoubleQuoted(k, v + [t[0]], t[1..]);
      assert v + [t[0]] + t[1..] == v + t;
    }
  }

  /** Unquoted text that ends in a non-space is kept as it is, spaces inside it included. */
  lemma {:induction false} Unquoted(k: string, v: string, p: string, t: string)
    requires t != "" && NoEol(t) && !IsSpace(t[|t| - 1]) && '\\' !in t
    ensures Run(InValue(k, v, p), t) == InValue(k, v + p + t, "") && Pairs(InValue(k, v, p), t) == []
    decreases |t|
  {
    var n := Next(InValue(k, v, p), t[0]);
    assert n == if IsSpace(t[0]) then InValue(k, v, p + [t[0]]) else InValue(k, v + p + [t[0]], "");
    assert Emitted(InValue(k, v, p), t[0]) == [];
    if |t| == 1 {
      assert t == [t[0]];
      assert t[1..] == "";
    } else {
      Unquoted(k, n.value, n.pending, t[1..]);
      assert n.value + n.pending + t[1..] == v + p + t;
    }
  }

  /** Whitespace up to the end of the line ends a value. */
  lemma {:induction false} Trailing(s: Scan, w: string)
    requires (s.PreValue? || s.InValue?) && AllSpace(w) && CleanLine(w)
    ensures Run(s, w + "\n") == PreKey && Pairs(s, w + "\n") == [Pair(s.key, s.value)]
    decreases |w|
  {
    var t := w + "\n";
    RunUnfold(s, t);
    if w == "" {
      assert t[1..] == "";
    } else if w[0] == '\r' {
      assert w == "\r";
      assert t[1..] == "\n" && t[1..][1..] == "";
      RunUnfold(PreKey, "\n");
    } else {
      assert t[1..] == w[1..] + "\n";
      Trailing(Next(s, w[0]), w[1..]);
    }
  }

  lemma CleanSlice(raw: string, i: nat, j: nat)
    requires CleanLine(raw) && i <= j <= |raw|
    ensures j < |raw| ==> NoEol(raw[i..j])
    ensures i < j && !IsSpace(raw[j - 1]) ==> NoEol(raw[i..j])
    ensures CleanLine(raw[i..])
  {
  }

  lemma InParts(key: string, lead: string, core: string, trail: string, end: Scan)
    requires AllSpace(lead) && NoEol(lead) && AllSpace(trail) && CleanLine(trail)
    requires (end.PreValue? || end.InValue?) && end.key == key
    requires Run(PreValue(key, ""), core) == end && Pairs(PreValue(key, ""), core) == []
    ensures Run(PreValue(key, ""), lead + core + trail + "\n") == PreKey
    ensures Pairs(PreValue(key, ""), lead + core + trail + "\n") == [Pair(key, end.value)]
  {
    var s0 := PreValue(key, "");
    var tail := trail + "\n";
    assert Run(end, tail) == PreKey && Pairs(end, tail) == [Pair(key, end.value)] by { Trailing(end, trail); }
    assert Run(s0, core + tail) == PreKey && Pairs(s0, core + tail) == [Pair(key, end.value)] by {
      RunConcat(s0, core, tail);
    }
    assert Run(s0, lead) == s0 && Pairs(s0, lead) == [] by { SkipSpaces(key, "", lead); }
    assert Run(s0, lead + (core + tail)) == PreKey && Pairs(s0, lead + (core + tail)) == [Pair(key, end.value)] by {
      RunConcat(s0, lead, core + tail);
    }
    Assoc4(lead, core, trail, "\n");
  }

  lemma SlicedValue(key: string, raw: string, i: nat, j: nat, core: string, val: string)
    requires CleanLine(raw) && i < j <= |raw| && core == raw[i..j] && Unquote(core) == Some(val)
    requires AllSpace(raw[..i]) && AllSpace(raw[j..]) && !IsSpace(raw[i]) && !IsSpace(raw[j - 1])
    ensures Run(PreValue(key, ""), raw + "\n") == PreKey && Pairs(PreValue(key, ""), raw + "\n") == [Pair(key, val)]
  {
    var lead, trail := raw[..i], raw[j..];
    var end: Scan;
    ThreeSlices(raw, i, j);
    assert NoEol(lead) && CleanLine(trail) by {
      CleanSlice(raw, 0, i);
      CleanSlice(raw, j, |raw|);
    }
    assert NoEol(core) && core[0] == raw[i] && core[|core| - 1] == raw[j - 1] by {
      CleanSlice(raw, i, j);
    }
    end := CoreValue(key, core);
    InParts(key, lead, core, trail, end);
  }

  /** A value the installer can take apart is the value systemd reads. */
  lemma ValueLine(key: string, raw: string, val: string)
    requires CleanLine(raw) && Unquote(Trim(raw)) == Some(val)
    ensures Run(PreValue(key, ""), raw + "\n") == PreKey && Pairs(PreValue(key, ""), raw + "\n") == [Pair(key, val)]
  {
    var i, j := TrimParts(raw);
    if i == j {
      assert raw == raw[..i] + raw[i..];
      assert val == "";
      Trailing(PreValue(key, ""), raw);
    } else {
      SlicedValue(key, raw, i, j, Trim(raw), val);
    }
  }

  lemma CoreValue(key: string, core: string) returns (end: Scan)
    requires core != "" && NoEol(core) && !IsSpace(core[0]) && !IsSpace(core[|core| - 1]) && Unquote(core).Some?
    ensures Run(PreValue(key, ""), core) == end && Pairs(PreValue(key, ""), core) == []
    ensures end == PreValue(key, Unquote(core).value) || end == InValue(key, Unquote(core).value, "")
  {
    var s0 := PreValue(key, "");
    RunUnfold(s0, core);
    var n := |core|;
    if n >= 2 && (core[0] == '"' || core[0] == '\'') && core[n - 1] == core[0] {
      var inner := core[1..n - 1];
      assert core[1..] == inner + [core[0]];
      QuotedValue(key, inner, core[0]);
      end := PreValue(key, inner);
    } else {
      UnquotedValue(key, core);
      end := InValue(key, core, "");
    }
  }

  lemma QuotedValue(key: string, inner: string, quote: char)
    requires (quote == '"' || quote == '\'') && AllPlain(inner)
    ensures var q := Next(PreValue(key, ""), quote);
            Run(q, inner + [quote]) == PreValue(key, inner) && Pairs(q, inner + [quote]) == []
  {
    var q := Next(PreValue(key, ""), quote);
    if quote == '"' { DoubleQuoted(key, "", inner); } else { SingleQuoted(key, "", inner); }
    assert "" + inner == inner;
    RunConcat(q, inner, [quote]);
    RunUnfold(Run(q, inner), [quote]);
    assert [quote][1..] == "";
  }

  lemma UnquotedValue(key: string, core: string)
    requires core != "" && NoEol(core) && !IsSpace(core[0]) && !IsSpace(core[|core| - 1]) && AllPlain(core)
    ensures var q := Next(PreValue(key, ""), core[0]);
            Run(q, core[1..]) == InValue(key, core, "") && Pairs(q, core[1..]) == []
  {
    assert Plain(core[0]);
    var v := [core[0]];
    assert Next(PreValue(key, ""), core[0]) == InValue(key, v, "");
    if |core| == 1 {
      assert core == v && core[1..] == "";
    } else {
      assert '\\' !in core[1..];
      Unquoted(key, v, "", core[1..]);
      assert v + "" + core[1..] == core;
    }
  }

  // ---- Keys --------------------------------------------------------------------------------

  /** A name that can stand before '=' as it is. */
  predicate KeyName(k: string) {
    k != "" && !IsComment(k[0]) && forall i :: 0 <= i < |k| ==> !IsSpace(k[i]) && k[i] != '='
  }

  lemma {:induction false} KeyText(k: string, t: string)
    requires forall i :: 0 <= i < |t| ==> !IsSpace(t[i]) && t[i] != '='
    ensures Run(InKey(k, ""), t) == InKey(k + t, "") && Pairs(InKey(k, ""), t) == []
    decreases |t|
  {
    if t == "" {
      assert k + t == k;
    } else {
      assert k + "" + [t[0]] == k + [t[0]];
      KeyText(k + [t[0]], t[1..]);
      assert k + [t[0]] + t[1..] == k + t;
    }
  }

  lemma KeyIsRead(key: string, rest: string)
    requires KeyName(key)
    ensures Run(PreKey, key + "=" + rest) == Run(PreValue(key, ""), rest)
    ensures Pairs(PreKey, key + "=" + rest) == Pairs(PreValue(key, ""), rest)
  {
    assert Run(PreKey, key) == InKey(key, "") && Pairs(PreKey, key) == [] by {
      RunUnfold(PreKey, key);
      KeyText([key[0]], key[1..]);
      assert [key[0]] + key[1..] == key;
    }
    RunConcat(PreKey, key, "=" + rest);
    assert ("=" + rest)[1..] == rest;
    RunUnfold(InKey(key, ""), "=" + rest);
    assert key + ("=" + rest) == key + "=" + rest;
  }

  /** A line "key=raw" is read as that assignment. */
  lemma AssignmentLine(key: string, raw: string, val: string)
    requires KeyName(key) && CleanLine(raw) && Unquote(Trim(raw)) == Some(val)
    ensures Run(PreKey, key + "=" + raw + "\n") == PreKey && Pairs(PreKey, key + "=" + raw + "\n") == [Pair(key, val)]
  {
    KeyIsRead(key, raw + "\n");
    ValueLine(key, raw, val);
    assert key + "=" + (raw + "\n") == key + "=" + raw + "\n";
  }

  predicate InValueOf(s: Scan, k: string) {
    !s.PreKey? && !s.InKey? && !InComment(s) && s.key == k
  }

  ghost predicate AllKeyed(ps: seq<Pair>, k: string) { forall i :: 0 <= i < |ps| ==> ps[i].key == k }
  ghost predicate AllHeaded(ps: seq<Pair>, c: char) { forall i :: 0 <= i < |ps| ==> ps[i].key != "" && ps[i].key[0] == c }

  /** The end of a line, from any state, in two forms. */
  lemma EolPairs(s: Scan, t: string)
    requires t == "" || t == "\r"
    ensures t == "" ==> Pairs(s, t + "\n") == Emitted(s, '\n')
    ensures t == "\r" ==> Pairs(s, t + "\n") == Emitted(s, '\r') + Emitted(Next(s, '\r'), '\n')
  {
    RunUnfold(s, t + "\n");
    if t == "" {
      assert (t + "\n")[1..] == "";
    } else {
      assert (t + "\n")[1..] == "\n" && "\n"[1..] == "";
      RunUnfold(Next(s, '\r'), "\n");
    }
  }

  lemma LineCases(s: Scan, t: string)
    requires CleanLine(t) && t != "" && t != "\r"
    ensures !IsNewline(t[0]) && CleanLine(t[1..]) && Emitted(s, t[0]) == []
    ensures Pairs(s, t + "\n") == Pairs(Next(s, t[0]), t[1..] + "\n")
  {
    RunUnfold(s, t + "\n");
    assert (t + "\n")[1..] == t[1..] + "\n";
    assert |t| == 1 ==> t == [t[0]];
  }

  lemma {:induction false} ValueKeeps(s: Scan, t: string, k: string)
    requires InValueOf(s, k) && CleanLine(t)
    ensures AllKeyed(Pairs(s, t + "\n"), k)
    decreases |t|
  {
    if t == "" || t == "\r" {
      EolPairs(s, t);
    } else {
      LineCases(s, t);
      ValueKeeps(Next(s, t[0]), t[1..], k);
    }
  }

  lemma {:induction false} KeyKeepsHead(key: string, pending: string, t: string)
    requires key != "" && CleanLine(t)
    ensures AllHeaded(Pairs(InKey(key, pending), t + "\n"), key[0])
    decreases |t|
  {
    var s := InKey(key, pending);
    if t == "" || t == "\r" {
      EolPairs(s, t);
    } else {
      LineCases(s, t);
      var n := Next(s, t[0]);
      if n.PreValue? {
        ValueKeeps(n, t[1..], key);
      } else {
        KeyKeepsHead(n.key, n.pending, t[1..]);
      }
    }
  }

  lemma {:induction false} CommentIsSilent(s: Scan, t: string)
    requires InComment(s) && CleanLine(t)
    ensures Pairs(s, t + "\n") == []
    decreases |t|
  {
    if t == "" || t == "\r" {
      EolPairs(s, t);
    } else {
      LineCases(s, t);
      CommentIsSilent(Next(s, t[0]), t[1..]);
    }
  }

  /** The value of a line's assignment is read from the text after its first '='. */
  lemma {:induction false} SplitsAtFirstEq(s: Scan, t: string, p: Pair)
    requires s.PreKey? || (s.InKey? && s.key != "")
    requires CleanLine(t) && Pairs(s, t + "\n") == [p] && p.key != "" && p.key[0] != '='
    ensures Pairs(PreValue(p.key, ""), AfterEq(t) + "\n") == [p] && CleanLine(AfterEq(t))
    decreases |t|
  {
    if t == "" || t == "\r" {
      EolPairs(s, t);
    } else {
      LineCases(s, t);
      var n := Next(s, t[0]);
      if s.InKey? && t[0] == '=' {
        ValueKeeps(n, t[1..], s.key);
        assert [p][0].key == s.key;
      } else if InComment(n) {
        CommentIsSilent(n, t[1..]);
      } else if t[0] == '=' {
        assert n == InKey("=", "") && [p][0] == p;
        KeyKeepsHead("=", "", t[1..]);
      } else {
        SplitsAtFirstEq(n, t[1..], p);
      }
    }
  }

  /** The installer's reading of an assignment line is systemd's. */
  lemma TakenApart(line: string, p: Pair)
    requires CleanLine(line) && Pairs(PreKey, line + "\n") == [p] && p.key != "" && p.key[0] != '='
    requires Unquote(Trim(AfterEq(line))).Some?
    ensures p.value == Unquote(Trim(AfterEq(line))).value
  {
    SplitsAtFirstEq(PreKey, line, p);
    var val := Unquote(Trim(AfterEq(line))).value;
    ValueLine(p.key, AfterEq(line), val);
    assert [p][0] == [Pair(p.key, val)][0];
  }
}

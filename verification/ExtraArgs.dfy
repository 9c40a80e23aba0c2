/** Rewriting KUBELET_EXTRA_ARGS (installer/defaultkubelet.go, mergeExtraArgs). */
module ExtraArgs {
  import opened Text
  import opened EnvFile
  import opened EnvLines
  import opened EnvValues

  const KEY := "KUBELET_EXTRA_ARGS"
  const PROBE := "HARBOR_BRIDGE_INSTALLER_PROBE"

  // ---- Adding to the end of a file ---------------------------------------------------------

  /** The text without the line breaks at its end. */
  function TrimBreaks(t: string): string {
    if t != "" && IsNewline(t[|t| - 1]) then TrimBreaks(t[..|t| - 1]) else t
  }

  /** openAtEnd: a line added to the file would not be read as an assignment of its own. */
  predicate OpenAtEnd(t: string) {
    HasSuffix(TrimBreaks(t), "\\") || !ProbeFound(Parse(Ended(t) + PROBE + "=x\n"))
  }

  /** The last assignment is the probe's. */
  predicate ProbeFound(r: Result<seq<Assignment>>) {
    r.Ok? && r.value != [] && r.value[|r.value| - 1].key == PROBE && r.value[|r.value| - 1].value == "x"
  }

  /** What is read from `t` when the reader starts in state `s`. */
  function ReadFrom(s: Scan, t: string): seq<Pair> { Pairs(s, t) + AtEnd(Run(s, t)) }

  lemma ReadFromConcat(s: Scan, a: string, b: string)
    ensures ReadFrom(s, a + b) == Pairs(s, a) + ReadFrom(Run(s, a), b)
  {
    RunConcat(s, a, b);
    Assoc(Pairs(s, a), Pairs(Run(s, a), b), AtEnd(Run(Run(s, a), b)));
  }

  predicate LineBreakState(s: Scan) {
    s.PreKey? || s.InValue? || s.SingleQuote? || s.DoubleQuote?
  }

  lemma AfterBreak(t: string)
    ensures LineBreakState(Run(PreKey, Ended(t)))
  {
    var e := Ended(t);
    if e != "" {
      var n := |e| - 1;
      assert e == e[..n] + "\n";
      RunConcat(PreKey, e[..n], "\n");
      RunUnfold(Run(PreKey, e[..n]), "\n");
      assert "\n"[1..] == "";
    }
  }

  lemma ProbeIsKey()
    ensures KeyName(PROBE) && KeyName(KEY) && NoSpace(PROBE) && AllPlain(PROBE) && NoSpace(KEY)
    ensures |PROBE| > 1 && PROBE[0] == 'H' && KEY[0] == 'K'
  {
  }

  /** Inside a value the probe line only makes the value longer. */
  lemma ProbeInside(s: Scan)
    requires s.InValue? || s.SingleQuote? || s.DoubleQuote?
    ensures var ps := ReadFrom(s, PROBE + "=x\n"); ps != [] && |ps[|ps| - 1].value| > 1
  {
    ProbeIsKey();
    var text, line := PROBE + "=x", PROBE + "=x\n";
    assert line == text + "\n";
    if s.SingleQuote? {
      SingleQuoted(s.key, s.value, line);
    } else if s.DoubleQuote? {
      DoubleQuoted(s.key, s.value, line);
    } else {
      Unquoted(s.key, s.value, s.pending, text);
      var v := s.value + s.pending + text;
      RunConcat(s, text, "\n");
      Trailing(InValue(s.key, v, ""), "");
      assert "" + "\n" == "\n";
    }
  }

  /** From between assignments the probe line is one assignment. */
  lemma ProbeOutside()
    ensures Run(PreKey, PROBE + "=x\n") == PreKey && Pairs(PreKey, PROBE + "=x\n") == [Pair(PROBE, "x")]
  {
    ProbeIsKey();
    assert TrimLeft("x") == "x" && TrimRight("x") == "x";
    AssignmentLine(PROBE, "x", "x");
    assert PROBE + "=" + "x" + "\n" == PROBE + "=x\n";
  }

  lemma LastOfRead(t: string)
    ensures |Located(t)| == |Read(t)|
    ensures Read(t) != [] ==> PairOf(Located(t)[|Located(t)| - 1]) == Read(t)[|Read(t)| - 1]
  {
    LocatedIsRead(t);
  }

  lemma ProbeReads(t: string)
    ensures var ps := Read(Ended(t) + PROBE + "=x\n");
            if Run(PreKey, Ended(t)).PreKey? then ps == Read(t) + [Pair(PROBE, "x")]
            else ps != [] && |ps[|ps| - 1].value| > 1
  {
    var e, line := Ended(t), PROBE + "=x\n";
    var s := Run(PreKey, e);
    assert Read(e + line) == Pairs(PreKey, e) + ReadFrom(s, line) by { ReadFromConcat(PreKey, e, line); }
    if s.PreKey? {
      assert ReadFrom(s, line) == [Pair(PROBE, "x")] by { ProbeOutside(); }
      ClosedReads(t);
    } else {
      AfterBreak(t);
      ProbeInside(s);
    }
    assert e + line == e + PROBE + "=x\n";
  }

  lemma ProbeParses(t: string)
    requires Parse(t).Ok? && Run(PreKey, Ended(t)).PreKey?
    ensures Parse(Ended(t) + PROBE + "=x\n").Ok?
  {
    ParseOk(t);
    ParseOk(Ended(t) + PROBE + "=x\n");
    ProbeLoads(t);
    ProbeReads(t);
    ProbeIsAscii();
    AddAsciiPair(Read(t), Pair(PROBE, "x"));
  }

  /** The probe tells exactly whether the file ends between assignments. */
  lemma ProbeDecides(t: string)
    requires Parse(t).Ok?
    ensures OpenAtEnd(t) <==> HasSuffix(TrimBreaks(t), "\\") || !Run(PreKey, Ended(t)).PreKey?
  {
    var probe, closed := Ended(t) + PROBE + "=x\n", Run(PreKey, Ended(t)).PreKey?;
    if closed { ProbeParses(t); }
    ProbeReads(t);
    ProbeResult(probe, closed, Read(t));
  }

  lemma ProbeResult(probe: string, closed: bool, front: seq<Pair>)
    requires closed ==> Parse(probe).Ok? && Read(probe) == front + [Pair(PROBE, "x")]
    requires !closed ==> Read(probe) != [] && |Read(probe)[|Read(probe)| - 1].value| > 1
    ensures ProbeFound(Parse(probe)) <==> closed
  {
    ParseOk(probe);
    LastOfRead(probe);
    assert closed ==> Read(probe)[|Read(probe)| - 1] == Pair(PROBE, "x");
  }

  predicate AllAscii(s: string) { forall i :: 0 <= i < |s| ==> Ascii(s[i]) }

  lemma ProbeIsAscii()
    ensures AllAscii(PROBE) && AllAscii("x") && AllAscii(KEY)
  {
  }

  lemma AddAsciiPair(ps: seq<Pair>, p: Pair)
    requires ValidPairs(ps) && AllAscii(p.key) && AllAscii(p.value)
    ensures ValidPairs(ps + [p])
  {
    AsciiIsValid(p.key);
    AsciiIsValid(p.value);
  }

  lemma ProbeLoads(t: string)
    requires Loadable(t)
    ensures Loadable(Ended(t) + PROBE + "=x\n")
  {
    LoadableEnded(t);
    var e, text := Ended(t), PROBE + "=x";
    var lines := FileLines(t);
    FileLinesText(t);
    FileLinesClean(t);
    assert CleanLine(text) by { ProbeIsKey(); }
    UnlinesAppend(lines, [text]);
    UnlinesOne(text);
    LoadableLines(lines + [text]);
    assert Unlines(lines + [text]) == e + PROBE + "=x\n";
  }

  /** Ending the last line of a closed file changes nothing of what is read. */
  lemma ClosedReads(t: string)
    requires Run(PreKey, Ended(t)).PreKey?
    ensures Read(t) == Read(Ended(t)) == Pairs(PreKey, Ended(t))
    ensures Located(t) == Located(Ended(t)) == Found(START, Ended(t))
  {
    var e := Ended(t);
    assert START.scan == PreKey;
    assert Walk(START, e).scan == Run(PreKey, e) by { WalkIsRun(START, e); }
    if e != t {
      ClosedLine(START, t);
    }
    LocatedIsRead(t);
    LocatedIsRead(e);
    assert Found(START, e) == Located(e);
    WalkIsRun(START, e);
  }

  /** The end of the last line gives what the end of the text gives, when it closes the text. */
  lemma ClosedLine(p: Place, t: string)
    requires Walk(p, t + "\n").scan.PreKey?
    ensures var q := Walk(p, t); Found(p, t + "\n") == Found(p, t) + Placed(q, AtEnd(q.scan))
  {
    var q := Walk(p, t);
    WalkConcat(p, t, "\n");
    FoundConcat(p, t, "\n");
    WalkOne(q, '\n');
    assert Emitted(q.scan, '\n') == AtEnd(q.scan);
  }

  /** When the file is reported closed, any line that is an assignment of its own can be
      added: it adds exactly that assignment and alters none before it. */
  lemma AppendingIsSafe(t: string, line: string, p: Pair)
    requires Parse(t).Ok? && !OpenAtEnd(t)
    requires Run(PreKey, line + "\n") == PreKey && Pairs(PreKey, line + "\n") == [p]
    ensures Read(Ended(t) + line + "\n") == Read(t) + [p]
  {
    var e, added := Ended(t), line + "\n";
    assert Run(PreKey, e).PreKey? by { ProbeDecides(t); }
    assert Read(t) == Pairs(PreKey, e) by { ClosedReads(t); }
    assert Read(e + added) == Pairs(PreKey, e) + ReadFrom(PreKey, added) by { ReadFromConcat(PreKey, e, added); }
    Assoc(e, line, "\n");
  }
}

/** What one line contributes to an environment file.

The installer edits the file by lines, systemd reads it by bytes. These lemmas connect the
two: a line that is read from between assignments and completes one is exactly that
assignment, and replacing or removing it leaves what the other lines say alone.
*/
module EnvLines {
  import opened Text
  import opened EnvFile

  predicate NoEol(t: string) { forall k :: 0 <= k < |t| ==> !IsNewline(t[k]) }

  /** A line of a loadable file: a carriage return only at its end, no NUL. */
  predicate CleanLine(line: string) {
    && (forall k :: 0 <= k < |line| ==> line[k] != '\n' && line[k] != '\0')
    && (forall k :: 0 <= k < |line| - 1 ==> line[k] != '\r')
  }

  predicate CleanLines(lines: seq<string>) { forall k :: 0 <= k < |lines| ==> CleanLine(lines[k]) }

  lemma LoadableCons(line: string, rest: string)
    requires NoBreak(line)
    ensures Loadable(line + "\n" + rest) <==> CleanLine(line) && Loadable(rest)
  {
    var t := line + "\n" + rest;
    var n := |line|;
    assert forall i :: 0 <= i < n ==> t[i] == line[i];
    assert t[n] == '\n';
    assert forall i :: 0 <= i < |rest| ==> t[n + 1 + i] == rest[i];
    if Loadable(t) {
      forall i | 0 <= i < |rest| ensures rest[i] != '\0' && !StrayReturnAt(rest, i) {
        assert !StrayReturnAt(t, n + 1 + i);
      }
      forall k | 0 <= k < n ensures line[k] != '\0' && (k < n - 1 ==> line[k] != '\r') {
        assert t[k] != '\0' && !StrayReturnAt(t, k);
      }
    }
    if CleanLine(line) && Loadable(rest) {
      forall i | 0 <= i < |t| ensures t[i] != '\0' && !StrayReturnAt(t, i) {
        if i > n { assert t[i] == rest[i - n - 1] && !StrayReturnAt(rest, i - n - 1); }
      }
    }
  }

  lemma {:induction false} LoadableLines(lines: seq<string>)
    requires forall k :: 0 <= k < |lines| ==> NoBreak(lines[k])
    ensures Loadable(Unlines(lines)) <==> CleanLines(lines)
  {
    if lines != [] {
      LoadableCons(lines[0], Unlines(lines[1..]));
      LoadableLines(lines[1..]);
    }
  }

  lemma LoadableEnded(t: string)
    requires Loadable(t)
    ensures Loadable(Ended(t))
  {
    var e := Ended(t);
    assert forall i :: 0 <= i < |t| ==> e[i] == t[i];
    forall i | 0 <= i < |e| ensures !StrayReturnAt(e, i) {
      if i < |t| { assert !StrayReturnAt(t, i); }
    }
  }

  lemma FileLinesClean(t: string)
    requires Loadable(t)
    ensures CleanLines(FileLines(t))
  {
    SplitNoBreak("", t);
    FileLinesText(t);
    LoadableEnded(t);
    LoadableLines(FileLines(t));
  }

  // ---- Inside a line -----------------------------------------------------------------------

  predicate InComment(s: Scan) { s.Comment? || s.CommentEscape? }

  /** Text without a line break completes nothing. An assignment it starts starts on this
      line, and one that was open stays the one it was. */
  lemma {:induction false} WithinLine(p: Place, t: string)
    requires NoEol(t)
    ensures Found(p, t) == []
    ensures var q := Walk(p, t);
            && q.line == p.line && q.text == p.text + t && q.continued == p.continued
            && (InComment(p.scan) ==> InComment(q.scan))
            && (!p.scan.PreKey? ==> !q.scan.PreKey? && q.first == p.first && q.starts == p.starts)
            && (p.scan.PreKey? && !q.scan.PreKey? && !InComment(q.scan) ==> q.first == p.line && q.starts == p.continued)
    decreases |t|
  {
    if t == "" {
      assert p.text + t == p.text;
    } else {
      StepWithin(p, t[0]);
      FoundUnfold(p, t);
      WithinLine(Step(p, t[0]), t[1..]);
      TakeFirst(p.text, t);
    }
  }

  lemma TakeFirst(x: string, t: string)
    requires t != ""
    ensures x + [t[0]] + t[1..] == x + t
  {
  }

  /** One character of a line. */
  lemma StepWithin(p: Place, c: char)
    requires NoEol([c])
    ensures Emitted(p.scan, c) == []
    ensures var q := Step(p, c);
            && q.line == p.line && q.text == p.text + [c] && q.continued == p.continued
            && (InComment(p.scan) ==> InComment(q.scan))
            && (!p.scan.PreKey? ==> !q.scan.PreKey? && q.first == p.first && q.starts == p.starts)
            && (p.scan.PreKey? && !q.scan.PreKey? && !InComment(q.scan) ==> q.first == p.line && q.starts == p.continued)
  {
    assert [c][0] == c;
  }

  predicate IsEol(t: string) { t == "\n" || t == "\r\n" }

  lemma WalkOne(p: Place, c: char)
    ensures Walk(p, [c]) == Step(p, c) && Found(p, [c]) == Placed(p, Emitted(p.scan, c))
  {
    assert [c][1..] == "";
    assert Walk(Step(p, c), "") == Step(p, c) && Found(Step(p, c), "") == [];
    FoundUnfold(p, [c]);
  }

  /** What the end of a line does: it completes at most the assignment that is open. */
  ghost predicate EndsLine(p: Place, q: Place, f: seq<Assignment>) {
    && q.line == p.line + 1 && q.text == "" && |f| <= 1
    && (f != [] ==> q.scan.PreKey? && f[0].first == p.first && f[0].last == p.line && f[0].afterContinuedComment == p.starts)
    && (p.scan.PreKey? || InComment(p.scan) ==> f == [] && q.scan.PreKey?)
    && (!q.scan.PreKey? ==> q.first == p.first)
  }

  lemma BreakEnds(p: Place)
    ensures EndsLine(p, Step(p, '\n'), Placed(p, Emitted(p.scan, '\n')))
  {
  }

  /** A carriage return before the line break completes the assignment itself, or nothing. */
  lemma ReturnBefore(p: Place)
    ensures var n := Step(p, '\r');
            && n.line == p.line
            && (Emitted(p.scan, '\r') != [] ==> n.scan.PreKey?)
            && (p.scan.PreKey? || InComment(p.scan) ==> n.scan.PreKey? && Emitted(p.scan, '\r') == [])
            && (!n.scan.PreKey? ==> n.first == p.first && n.starts == p.starts)
  {
  }

  lemma LineEnd(p: Place, eol: string)
    requires IsEol(eol)
    ensures EndsLine(p, Walk(p, eol), Found(p, eol))
  {
    if eol == "\n" {
      WalkOne(p, '\n');
      BreakEnds(p);
    } else {
      var n := Step(p, '\r');
      assert eol == "\r" + "\n";
      WalkOne(p, '\r');
      WalkOne(n, '\n');
      WalkConcat(p, "\r", "\n");
      FoundConcat(p, "\r", "\n");
      ReturnBefore(p);
      BreakEnds(n);
      var f, g := Placed(p, Emitted(p.scan, '\r')), Placed(n, Emitted(n.scan, '\n'));
      assert Found(p, eol) == f + g;
      if f != [] {
        assert g == [] && f + g == f;
      } else {
        assert f + g == g;
      }
    }
  }

  /** Between two lines: an assignment that is still open started on an earlier line. */
  predicate LineStarts(p: Place) {
    p.text == "" && (!p.scan.PreKey? ==> p.first < p.line)
  }

  lemma SplitEol(line: string) returns (body: string, eol: string)
    requires CleanLine(line)
    ensures line + "\n" == body + eol && NoEol(body) && IsEol(eol)
  {
    if line != "" && line[|line| - 1] == '\r' {
      body, eol := line[..|line| - 1], "\r\n";
      assert line == body + "\r";
      assert body + "\r" + "\n" == body + eol;
    } else {
      body, eol := line, "\n";
    }
  }

  /** What a whole line leads from p to: place q and what was found. */
  predicate FromLine(p: Place, q: Place, f: seq<Assignment>) {
    && LineStarts(q) && q.line == p.line + 1 && |f| <= 1
    && (f != [] ==> q.scan.PreKey? && f[0].first <= f[0].last == p.line)
    && (f != [] ==> (f[0].first == p.line <==> p.scan.PreKey?))
    && (f != [] && p.scan.PreKey? ==> f[0].afterContinuedComment == p.continued)
  }

  /** One whole line. */
  lemma OneLine(p: Place, line: string)
    requires LineStarts(p) && CleanLine(line)
    ensures FromLine(p, Walk(p, line + "\n"), Found(p, line + "\n"))
  {
    var body, eol := SplitEol(line);
    WalkConcat(p, body, eol);
    FoundConcat(p, body, eol);
    WithinLine(p, body);
    LineEnd(Walk(p, body), eol);
    assert [] + Found(Walk(p, body), eol) == Found(Walk(p, body), eol);
  }

  // ---- Lines -------------------------------------------------------------------------------

  /** Assignments that end on the lines from `lo` up to `hi`. */
  predicate Within(f: seq<Assignment>, lo: nat, hi: nat) {
    forall k :: 0 <= k < |f| ==> f[k].first <= f[k].last && lo <= f[k].last < hi
  }

  lemma WithinConcat(f: seq<Assignment>, g: seq<Assignment>, lo: nat, mid: nat, hi: nat)
    requires Within(f, lo, mid) && Within(g, mid, hi) && lo <= mid <= hi
    ensures Within(f + g, lo, hi)
  {
  }

  lemma {:induction false} ManyLines(p: Place, lines: seq<string>)
    requires LineStarts(p) && CleanLines(lines)
    ensures ReadsLines(p, Unlines(lines), |lines|)
    decreases |lines|
  {
    if lines != [] {
      var first, rest := lines[0] + "\n", Unlines(lines[1..]);
      OneLineReads(p, lines[0]);
      ManyLines(Walk(p, first), lines[1..]);
      ReadsMore(p, first, rest, 1, |lines| - 1);
      assert Unlines(lines) == first + rest;
    }
  }

  /** From the start of a line, `t` is read as `n` whole lines. */
  predicate ReadsLines(p: Place, t: string, n: nat) {
    var q := Walk(p, t);
    LineStarts(q) && q.line == p.line + n && Within(Found(p, t), p.line, p.line + n)
  }

  lemma OneLineReads(p: Place, line: string)
    requires LineStarts(p) && CleanLine(line)
    ensures ReadsLines(p, line + "\n", 1) && LineStarts(Walk(p, line + "\n"))
  {
    OneLine(p, line);
  }

  lemma ReadsMore(p: Place, a: string, b: string, m: nat, n: nat)
    requires ReadsLines(p, a, m) && ReadsLines(Walk(p, a), b, n)
    ensures ReadsLines(p, a + b, m + n)
  {
    WalkConcat(p, a, b);
    FoundConcat(p, a, b);
    WithinConcat(Found(p, a), Found(Walk(p, a), b), p.line, p.line + m, p.line + m + n);
  }

  /** The place before line `i`. */
  function PlaceAt(lines: seq<string>, i: nat): Place
    requires i <= |lines|
  {
    Walk(START, Unlines(lines[..i]))
  }

  lemma PlaceAtStarts(lines: seq<string>, i: nat)
    requires CleanLines(lines) && i <= |lines|
    ensures LineStarts(PlaceAt(lines, i)) && PlaceAt(lines, i).line == i
  {
    ManyLines(START, lines[..i]);
  }

  /** The file around line `i`: what is found before it, on it and after it. */
  lemma Around(lines: seq<string>, i: nat)
    requires CleanLines(lines) && i < |lines|
    ensures PlaceAt(lines, i + 1) == Walk(PlaceAt(lines, i), lines[i] + "\n")
    ensures PlaceAt(lines, |lines|) == Walk(PlaceAt(lines, i + 1), Unlines(lines[i + 1..]))
    ensures Found(START, Unlines(lines)) ==
            Found(START, Unlines(lines[..i])) + Found(PlaceAt(lines, i), lines[i] + "\n")
            + Found(PlaceAt(lines, i + 1), Unlines(lines[i + 1..]))
  {
    var a, b, c := Unlines(lines[..i]), lines[i] + "\n", Unlines(lines[i + 1..]);
    LinesAround(lines, i);
    WalkThree(START, a, b, c);
    assert lines[..|lines|] == lines;
  }

  lemma LinesAround(lines: seq<string>, i: nat)
    requires i < |lines|
    ensures var ab := Unlines(lines[..i]) + (lines[i] + "\n");
            Unlines(lines[..i + 1]) == ab && Unlines(lines) == ab + Unlines(lines[i + 1..])
  {
    SplitAt(lines, i);
    UnlinesSnoc(lines[..i], lines[i]);
    UnlinesAppend(lines[..i + 1], lines[i + 1..]);
  }

  lemma UnlinesSnoc(lines: seq<string>, line: string)
    ensures Unlines(lines + [line]) == Unlines(lines) + (line + "\n")
  {
    UnlinesAppend(lines, [line]);
    UnlinesOne(line);
  }

  lemma WalkThree(p: Place, a: string, b: string, c: string)
    ensures Walk(p, a + b) == Walk(Walk(p, a), b) && Walk(p, a + b + c) == Walk(Walk(p, a + b), c)
    ensures Found(p, a + b + c) == Found(p, a) + Found(Walk(p, a), b) + Found(Walk(p, a + b), c)
  {
    WalkConcat(p, a, b);
    FoundConcat(p, a, b);
    WalkConcat(p, a + b, c);
    FoundConcat(p, a + b, c);
  }

  lemma InTheMiddle(before: seq<Assignment>, on: seq<Assignment>, after: seq<Assignment>, k: nat, i: nat, hi: nat)
    requires k < |before + on + after| && (before + on + after)[k].last == i
    requires Within(before, 0, i) && Within(after, i + 1, hi)
    ensures |before| <= k < |before| + |on| && on[k - |before|] == (before + on + after)[k]
  {
    var all := before + on + after;
    assert forall j :: 0 <= j < |before| ==> all[j] == before[j];
    assert forall j :: |before| + |on| <= j < |all| ==> all[j] == after[j - |before| - |on|];
  }

  function FoundBefore(lines: seq<string>, i: nat): nat
    requires i < |lines|
  {
    |Found(START, Unlines(lines[..i]))|
  }

  function FoundOn(lines: seq<string>, i: nat): seq<Assignment>
    requires i < |lines|
  {
    Found(PlaceAt(lines, i), lines[i] + "\n")
  }

  /** `a` is the k-th of all, where `before` come before those in `on`. */
  predicate HoldsAt(before: nat, on: seq<Assignment>, k: nat, a: Assignment) {
    before <= k < before + |on| && on[k - before] == a
  }

  /** An assignment that ends on line `i` is found on that line. */
  lemma FoundOnItsLine(lines: seq<string>, i: nat, k: nat)
    requires CleanLines(lines) && i < |lines| && k < |Found(START, Unlines(lines))|
    requires Found(START, Unlines(lines))[k].last == i
    ensures HoldsAt(FoundBefore(lines, i), FoundOn(lines, i), k, Found(START, Unlines(lines))[k])
  {
    var before, on, after := FoundInParts(lines, i);
    InTheMiddle(before, on, after, k, i, |lines|);
  }

  lemma FoundInParts(lines: seq<string>, i: nat) returns (before: seq<Assignment>, on: seq<Assignment>, after: seq<Assignment>)
    requires CleanLines(lines) && i < |lines|
    ensures before == Found(START, Unlines(lines[..i])) && on == Found(PlaceAt(lines, i), lines[i] + "\n")
    ensures Found(START, Unlines(lines)) == before + on + after
    ensures Within(before, 0, i) && Within(after, i + 1, |lines|)
  {
    before, on := Found(START, Unlines(lines[..i])), Found(PlaceAt(lines, i), lines[i] + "\n");
    after := Found(PlaceAt(lines, i + 1), Unlines(lines[i + 1..]));
    assert Found(START, Unlines(lines)) == before + on + after by { Around(lines, i); }
    FromTheStart(lines[..i]);
    FromTheLine(lines, i + 1);
  }

  lemma FromTheLine(lines: seq<string>, i: nat)
    requires CleanLines(lines) && i <= |lines|
    ensures Within(Found(PlaceAt(lines, i), Unlines(lines[i..])), i, |lines|)
  {
    PlaceAtStarts(lines, i);
    ManyLines(PlaceAt(lines, i), lines[i..]);
  }

  lemma FromTheStart(lines: seq<string>)
    requires CleanLines(lines)
    ensures Within(Found(START, Unlines(lines)), 0, |lines|)
  {
    assert START.line == 0;
    ManyLines(START, lines);
  }

  lemma LastIsALine(lines: seq<string>, k: nat)
    requires CleanLines(lines) && k < |Found(START, Unlines(lines))|
    ensures Found(START, Unlines(lines))[k].last < |lines|
  {
    FromTheStart(lines);
  }

  /** An assignment found on one line is all that line says: it is read from between
      assignments and leaves the reader between assignments. */
  lemma Pinned(lines: seq<string>, k: nat)
    requires CleanLines(lines) && k < |Found(START, Unlines(lines))|
    requires Found(START, Unlines(lines))[k].first == Found(START, Unlines(lines))[k].last
    ensures OwnLine(lines, k, Found(START, Unlines(lines))[k])
  {
    LastIsALine(lines, k);
    var i := Found(START, Unlines(lines))[k].first;
    FoundOnItsLine(lines, i, k);
    AloneOnItsLine(lines, i, k, Found(START, Unlines(lines))[k]);
  }

  /** The k-th assignment is `a`, and all that its line says. */
  predicate OwnLine(lines: seq<string>, k: nat, a: Assignment) {
    && a.first < |lines|
    && PlaceAt(lines, a.first).scan.PreKey? && PlaceAt(lines, a.first + 1).scan.PreKey?
    && FoundOn(lines, a.first) == [a] && a.afterContinuedComment == PlaceAt(lines, a.first).continued
    && k == FoundBefore(lines, a.first)
  }

  lemma AloneOnItsLine(lines: seq<string>, i: nat, k: nat, a: Assignment)
    requires CleanLines(lines) && i < |lines| && HoldsAt(FoundBefore(lines, i), FoundOn(lines, i), k, a) && i == a.first == a.last
    ensures OwnLine(lines, k, a)
  {
    var p := PlaceAt(lines, i);
    assert LineStarts(p) by { PlaceAtStarts(lines, i); }
    assert PlaceAt(lines, i + 1) == Walk(p, lines[i] + "\n") by { Around(lines, i); }
    OneLine(p, lines[i]);
    OnlyOnLine(p, PlaceAt(lines, i + 1), FoundBefore(lines, i), FoundOn(lines, i), k, a);
  }

  lemma OnlyOnLine(p: Place, q: Place, before: nat, on: seq<Assignment>, k: nat, a: Assignment)
    requires FromLine(p, q, on) && HoldsAt(before, on, k, a) && a.first == a.last
    ensures on == [a] && k == before && p.scan.PreKey? && q.scan.PreKey? && a.afterContinuedComment == p.continued
  {
  }

  /** Every assignment of a loadable file starts on one of its lines. */
  lemma StartsOnALine(t: string, k: nat)
    requires Loadable(t) && k < |Located(t)|
    ensures Located(t)[k].first < |FileLines(t)|
  {
    var lines := FileLines(t);
    FileLinesClean(t);
    LocatedWhere(t, k);
    assert START.line == 0;
    if Ended(t) == t {
      assert t == Unlines(lines) by { FileLinesText(t); }
      ManyLines(START, lines);
    } else {
      var n := |lines| - 1;
      LastLineOpen(t);
      ManyLines(START, lines[..n]);
      OpenLine(START, Unlines(lines[..n]), lines[n]);
    }
  }

  /** An assignment was completed by a line break, or is under way at the end. */
  lemma LocatedWhere(t: string, k: nat)
    requires k < |Located(t)|
    ensures var q, f, a := Walk(START, t), Found(START, t), Located(t)[k];
            if k < |f| then a == f[k] else a.first == q.first && !q.scan.PreKey? && !InComment(q.scan)
  {
  }

  /** A last line without a line break completes no assignment. */
  lemma OpenLine(p: Place, a: string, line: string)
    requires LineStarts(Walk(p, a)) && NoEol(line)
    ensures Found(p, a + line) == Found(p, a) && Walk(p, a + line) == Walk(Walk(p, a), line)
    ensures var q := Walk(p, a + line); q.line == Walk(p, a).line && (!q.scan.PreKey? && !InComment(q.scan) ==> q.first <= q.line)
  {
    WithinLine(Walk(p, a), line);
    FoundConcat(p, a, line);
    WalkConcat(p, a, line);
  }

  /** A file without a final line break ends in its last line, which has no carriage return. */
  lemma LastLineOpen(t: string)
    requires Loadable(t) && Ended(t) != t
    ensures var lines := FileLines(t);
            && lines != []
            && t == Unlines(lines[..|lines| - 1]) + lines[|lines| - 1]
            && NoEol(lines[|lines| - 1])
  {
    var lines := FileLines(t);
    FileLinesText(t);
    FileLinesClean(t);
    var n := |lines| - 1;
    assert lines != [];
    assert lines == lines[..n] + [lines[n]];
    UnlinesAppend(lines[..n], [lines[n]]);
    UnlinesOne(lines[n]);
    assert t + "\n" == Unlines(lines[..n]) + lines[n] + "\n";
    assert t == (t + "\n")[..|t|];
    assert Unlines(lines[..n]) + lines[n] == (Unlines(lines[..n]) + lines[n] + "\n")[..|t|];
    assert !StrayReturnAt(t, |t| - 1);
    if lines[n] != "" { assert t[|t| - 1] == lines[n][|lines[n]| - 1]; }
  }
}

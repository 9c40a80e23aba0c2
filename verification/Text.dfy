/** Text as the installer handles it: lines, words and the UTF-8 rule of systemd.

A Go string is a `string` here, one `char` per byte.
*/
module Text {

  datatype Option<+T> = None | Some(value: T)

  /** Concatenation is associative. */
  lemma Assoc<T>(a: seq<T>, b: seq<T>, c: seq<T>)
    ensures a + (b + c) == a + b + c
  {
  }

  lemma Assoc4<T>(a: seq<T>, b: seq<T>, c: seq<T>, d: seq<T>)
    ensures a + (b + (c + d)) == a + b + c + d
  {
  }

  lemma ThreeSlices<T>(s: seq<T>, i: nat, j: nat)
    requires i <= j <= |s|
    ensures s[..i] + s[i..j] + s[j..] == s
  {
  }

  lemma SliceOfSlice<T>(s: seq<T>, i: nat, n: nat)
    requires i + n <= |s|
    ensures s[i..][..n] == s[i..i + n] && s[i..][n..] == s[i + n..]
  {
  }

  lemma SplitAt<T>(s: seq<T>, i: nat)
    requires i < |s|
    ensures s[..i + 1] == s[..i] + [s[i]] && s == s[..i + 1] + s[i + 1..]
  {
  }

  predicate HasPrefix(s: string, prefix: string) {
    |prefix| <= |s| && s[..|prefix|] == prefix
  }

  predicate HasSuffix(s: string, suffix: string) {
    |suffix| <= |s| && s[|s| - |suffix|..] == suffix
  }

  /** envWhitespace and envNewline of the environment-file parser. */
  predicate IsSpace(c: char) { c == ' ' || c == '\t' || c == '\n' || c == '\r' }
  predicate IsNewline(c: char) { c == '\n' || c == '\r' }

  predicate AllSpace(s: string) { forall k :: 0 <= k < |s| ==> IsSpace(s[k]) }
  predicate NoSpace(s: string) { forall k :: 0 <= k < |s| ==> !IsSpace(s[k]) }

  function TrimLeft(s: string): string { if s != "" && IsSpace(s[0]) then TrimLeft(s[1..]) else s }

  function TrimRight(s: string): string { if s != "" && IsSpace(s[|s| - 1]) then TrimRight(s[..|s| - 1]) else s }

  function Trim(s: string): string { TrimRight(TrimLeft(s)) }

  /** What is left after the leading space. */
  lemma {:induction false} TrimLeftIs(s: string) returns (i: nat)
    ensures i <= |s| && TrimLeft(s) == s[i..] && AllSpace(s[..i]) && (i < |s| ==> !IsSpace(s[i]))
  {
    if s != "" && IsSpace(s[0]) {
      var k := TrimLeftIs(s[1..]);
      i := k + 1;
      assert s[1..][k..] == s[i..];
      assert s[..i] == [s[0]] + s[1..][..k];
    } else {
      i := 0;
    }
  }

  /** What is left before the trailing space. */
  lemma {:induction false} TrimRightIs(s: string) returns (j: nat)
    ensures j <= |s| && TrimRight(s) == s[..j] && AllSpace(s[j..]) && (j > 0 ==> !IsSpace(s[j - 1]))
  {
    if s != "" && IsSpace(s[|s| - 1]) {
      var front := s[..|s| - 1];
      j := TrimRightIs(front);
      assert front[..j] == s[..j];
      assert s[j..] == front[j..] + [s[|s| - 1]];
    } else {
      j := |s|;
      assert s[..j] == s;
    }
  }

  /** Where the part that trimming leaves starts and ends. */
  lemma TrimParts(raw: string) returns (i: nat, j: nat)
    ensures i <= j <= |raw| && Trim(raw) == raw[i..j] && AllSpace(raw[..i]) && AllSpace(raw[j..])
    ensures i < j ==> !IsSpace(raw[i]) && !IsSpace(raw[j - 1])
  {
    i := TrimLeftIs(raw);
    var n := TrimRightIs(raw[i..]);
    j := i + n;
    SliceOfSlice(raw, i, n);
  }

  // ---- Lines -----------------------------------------------------------------------------

  /** The text whose lines are `lines`, each ended by a line break. */
  function Unlines(lines: seq<string>): string {
    if lines == [] then "" else lines[0] + "\n" + Unlines(lines[1..])
  }

  /** Go's strings.Join with a line break. */
  function JoinLines(lines: seq<string>): string {
    if lines == [] then "" else if |lines| == 1 then lines[0] else lines[0] + "\n" + JoinLines(lines[1..])
  }

  lemma {:induction false} JoinEnded(lines: seq<string>)
    requires lines != []
    ensures JoinLines(lines) + "\n" == Unlines(lines)
  {
    if |lines| == 1 {
      assert lines[1..] == [];
    } else {
      JoinEnded(lines[1..]);
      assert lines[0] + "\n" + JoinLines(lines[1..]) + "\n" == lines[0] + "\n" + (JoinLines(lines[1..]) + "\n");
    }
  }

  /** Go's strings.Split at "\n" of `cur + s`, where `cur` holds no line break. */
  function Split(cur: string, s: string): (r: seq<string>)
    ensures r != []
    decreases |s|
  {
    if s == "" then [cur]
    else if s[0] == '\n' then [cur] + Split("", s[1..])
    else Split(cur + [s[0]], s[1..])
  }

  function DropEmptyLast(lines: seq<string>): seq<string> {
    if lines != [] && lines[|lines| - 1] == "" then lines[..|lines| - 1] else lines
  }

  /** The lines of a file: a final line break does not start another line. */
  function FileLines(s: string): seq<string> { DropEmptyLast(Split("", s)) }

  predicate NoBreak(line: string) { '\n' !in line }

  lemma {:induction false} UnlinesAppend(a: seq<string>, b: seq<string>)
    ensures Unlines(a + b) == Unlines(a) + Unlines(b)
  {
    if a == [] {
      assert a + b == b;
    } else {
      assert (a + b)[1..] == a[1..] + b;
      UnlinesAppend(a[1..], b);
    }
  }

  lemma UnlinesOne(line: string)
    ensures Unlines([line]) == line + "\n"
  {
    assert [line][1..] == [];
  }

  /** The text with the line break its last line may lack. */
  function Ended(s: string): string {
    if s != "" && s[|s| - 1] != '\n' then s + "\n" else s
  }

  lemma {:induction false} SplitIsUnlines(cur: string, s: string)
    ensures Unlines(Split(cur, s)) == cur + s + "\n"
    decreases |s|
  {
    if s == "" {
      UnlinesOne(cur);
      assert cur + "" == cur;
    } else if s[0] == '\n' {
      SplitIsUnlines("", s[1..]);
      var rest := Split("", s[1..]);
      assert ([cur] + rest)[1..] == rest;
      calc {
        Unlines(Split(cur, s));
        cur + "\n" + Unlines(rest);
        cur + "\n" + (s[1..] + "\n");
        { assert s == "\n" + s[1..]; }
        cur + s + "\n";
      }
    } else {
      SplitIsUnlines(cur + [s[0]], s[1..]);
      assert cur + [s[0]] + s[1..] == cur + s;
    }
  }

  function LastLine(lines: seq<string>): string
    requires lines != []
  {
    lines[|lines| - 1]
  }

  lemma {:induction false} SplitLast(cur: string, s: string)
    requires s != ""
    ensures LastLine(Split(cur, s)) == "" <==> s[|s| - 1] == '\n'
    decreases |s|
  {
    if |s| > 1 {
      SplitLast(if s[0] == '\n' then "" else cur + [s[0]], s[1..]);
    }
  }

  /** A file is its lines: joining them gives the file back, with its last line ended. */
  lemma FileLinesText(s: string)
    ensures Unlines(FileLines(s)) == Ended(s)
  {
    SplitIsUnlines("", s);
    var g := Split("", s);
    assert Unlines(g) == s + "\n";
    if s != "" { SplitLast("", s); }
    if LastLine(g) == "" {
      var front := g[..|g| - 1];
      assert g == front + [""];
      UnlinesAppend(front, [""]);
      UnlinesOne("");
      assert "" + "\n" == "\n";
      assert Unlines(front) + "\n" == s + "\n";
      assert Unlines(front) == (s + "\n")[..|s|];
    }
  }

  lemma {:induction false} SplitLine(cur: string, line: string, s: string)
    requires NoBreak(line)
    ensures Split(cur, line + "\n" + s) == [cur + line] + Split("", s)
    decreases |line|
  {
    if line == "" {
      assert line + "\n" + s == "\n" + s;
      assert cur + line == cur;
    } else {
      assert (line + "\n" + s)[1..] == line[1..] + "\n" + s;
      SplitLine(cur + [line[0]], line[1..], s);
      assert cur + [line[0]] + line[1..] == cur + line;
    }
  }

  lemma {:induction false} SplitUnlines(lines: seq<string>)
    requires forall k :: 0 <= k < |lines| ==> NoBreak(lines[k])
    ensures Split("", Unlines(lines)) == lines + [""]
  {
    if lines != [] {
      SplitLine("", lines[0], Unlines(lines[1..]));
      SplitUnlines(lines[1..]);
      assert "" + lines[0] == lines[0];
      assert lines == [lines[0]] + lines[1..];
    }
  }

  /** The other direction: lines without line breaks are read back as they were. */
  lemma UnlinesFileLines(lines: seq<string>)
    requires forall k :: 0 <= k < |lines| ==> NoBreak(lines[k])
    ensures FileLines(Unlines(lines)) == lines
  {
    SplitUnlines(lines);
  }

  lemma {:induction false} SplitNoBreak(cur: string, s: string)
    requires NoBreak(cur)
    ensures forall k :: 0 <= k < |Split(cur, s)| ==> NoBreak(Split(cur, s)[k])
    decreases |s|
  {
    if s == "" {
    } else if s[0] == '\n' {
      SplitNoBreak("", s[1..]);
    } else {
      SplitNoBreak(cur + [s[0]], s[1..]);
    }
  }

  // ---- Words -----------------------------------------------------------------------------

  function WordLength(s: string): (n: nat)
    ensures n <= |s| && NoSpace(s[..n]) && (n < |s| ==> IsSpace(s[n]))
  {
    if s == "" || IsSpace(s[0]) then 0
    else
      var n := 1 + WordLength(s[1..]);
      assert s[..n] == [s[0]] + s[1..][..n - 1];
      n
  }

  /** splitArgs: the words between runs of whitespace. */
  function Words(s: string): seq<string>
    decreases |s|
  {
    if s == "" then []
    else if IsSpace(s[0]) then Words(s[1..])
    else
      var n := WordLength(s);
      [s[..n]] + Words(s[n..])
  }

  predicate IsWord(w: string) { w != "" && NoSpace(w) }
  predicate AreWords(ws: seq<string>) { forall k :: 0 <= k < |ws| ==> IsWord(ws[k]) }

  /** Go's strings.Join with a space. */
  function Unwords(ws: seq<string>): string {
    if ws == [] then ""
    else if |ws| == 1 then ws[0]
    else ws[0] + " " + Unwords(ws[1..])
  }

  lemma {:induction false} WordsAreWords(s: string)
    ensures AreWords(Words(s))
    decreases |s|
  {
    if s == "" {
    } else if IsSpace(s[0]) {
      WordsAreWords(s[1..]);
    } else {
      WordsAreWords(s[WordLength(s)..]);
    }
  }

  lemma {:induction false} WordLengthOf(w: string, rest: string)
    requires NoSpace(w) && (rest == "" || IsSpace(rest[0]))
    ensures WordLength(w + rest) == |w|
  {
    if w == "" {
      assert w + rest == rest;
    } else {
      assert (w + rest)[1..] == w[1..] + rest;
      WordLengthOf(w[1..], rest);
    }
  }

  /** Joined words are split into the same words again. */
  lemma {:induction false} WordsOfUnwords(ws: seq<string>)
    requires AreWords(ws)
    ensures Words(Unwords(ws)) == ws
  {
    if ws == [] {
    } else if |ws| == 1 {
      WordLengthOf(ws[0], "");
      assert ws[0] + "" == ws[0];
      assert ws == [ws[0]];
    } else {
      var rest := " " + Unwords(ws[1..]);
      assert Unwords(ws) == ws[0] + rest;
      WordLengthOf(ws[0], rest);
      assert (ws[0] + rest)[|ws[0]|..] == rest && (ws[0] + rest)[..|ws[0]|] == ws[0];
      assert rest[1..] == Unwords(ws[1..]);
      WordsOfUnwords(ws[1..]);
      assert ws == [ws[0]] + ws[1..];
    }
  }

  /** Every character of every word satisfies `p`. */
  ghost predicate EachChar(ws: seq<string>, p: char -> bool) {
    forall k :: 0 <= k < |ws| ==> forall i :: 0 <= i < |ws[k]| ==> p(ws[k][i])
  }

  lemma {:induction false} WordsChars(s: string, p: char -> bool)
    requires forall i :: 0 <= i < |s| ==> p(s[i])
    ensures EachChar(Words(s), p)
    decreases |s|
  {
    if s == "" {
    } else if IsSpace(s[0]) {
      WordsChars(s[1..], p);
    } else {
      WordsChars(s[WordLength(s)..], p);
    }
  }

  lemma {:induction false} UnwordsChars(ws: seq<string>, p: char -> bool)
    requires EachChar(ws, p) && p(' ')
    ensures forall i :: 0 <= i < |Unwords(ws)| ==> p(Unwords(ws)[i])
  {
    if |ws| > 1 { UnwordsChars(ws[1..], p); }
  }

  // ---- UTF-8 as systemd accepts it ---------------------------------------------------------

  predicate Cont(c: char) { 0x80 <= c as int <= 0xBF }

  /** The length of the rune at the start of `s`, or 0 when there is none that systemd
      accepts: UTF-8 without the noncharacters U+FDD0..U+FDEF and U+xFFFE, U+xFFFF. */
  function RuneLength(s: string): (n: nat)
    ensures n <= |s|
  {
    if s == "" then 0
    else
      var a := s[0] as int;
      if a < 0x80 then 1
      else if |s| < 2 || !Cont(s[1]) then 0
      else
        var b := s[1] as int;
        if 0xC2 <= a <= 0xDF then 2
        else if |s| < 3 || !Cont(s[2]) then 0
        else
          var c := s[2] as int;
          if 0xE0 <= a <= 0xEF then
            if (a == 0xE0 && b < 0xA0) || (a == 0xED && b > 0x9F) then 0
            else if Noncharacter((a - 0xE0) * 0x1000 + (b - 0x80) * 0x40 + (c - 0x80)) then 0
            else 3
          else if |s| < 4 || !Cont(s[3]) then 0
          else
            var d := s[3] as int;
            if 0xF0 <= a <= 0xF4 then
              if (a == 0xF0 && b < 0x90) || (a == 0xF4 && b > 0x8F) then 0
              else if Noncharacter((a - 0xF0) * 0x40000 + (b - 0x80) * 0x1000 + (c - 0x80) * 0x40 + (d - 0x80)) then 0
              else 4
            else 0
  }

  predicate Noncharacter(r: int) {
    0xFDD0 <= r <= 0xFDEF || r % 0x10000 == 0xFFFE || r % 0x10000 == 0xFFFF
  }

  predicate ValidUtf8(s: string)
    decreases |s|
  {
    s == "" || (RuneLength(s) > 0 && ValidUtf8(s[RuneLength(s)..]))
  }

  predicate Ascii(c: char) { c as int < 0x80 }

  lemma RuneBeforeAscii(a: string, c: char, b: string)
    requires a != "" && Ascii(c)
    ensures RuneLength(a + [c] + b) == RuneLength(a)
  {
    var s := a + [c] + b;
    assert forall i :: 0 <= i < |a| ==> s[i] == a[i];
    assert s[|a|] == c && !Cont(s[|a|]);
  }

  /** An ASCII byte is a boundary: text around it is valid when both sides are. */
  lemma {:induction false} ValidAroundAscii(a: string, c: char, b: string)
    requires Ascii(c)
    ensures ValidUtf8(a + [c] + b) == (ValidUtf8(a) && ValidUtf8(b))
    decreases |a|
  {
    var s := a + [c] + b;
    if a == "" {
      assert s[1..] == b;
      assert RuneLength(s) == 1;
    } else {
      RuneBeforeAscii(a, c, b);
      var n := RuneLength(a);
      if n > 0 {
        assert s[n..] == a[n..] + [c] + b;
        ValidAroundAscii(a[n..], c, b);
      }
    }
  }

  lemma {:induction false} AsciiIsValid(s: string)
    requires forall i :: 0 <= i < |s| ==> Ascii(s[i])
    ensures ValidUtf8(s)
  {
    if s != "" { AsciiIsValid(s[1..]); }
  }

  predicate AllValid(ws: seq<string>) { forall k :: 0 <= k < |ws| ==> ValidUtf8(ws[k]) }

  lemma {:induction false} WordsValid(s: string)
    requires ValidUtf8(s)
    ensures AllValid(Words(s))
    decreases |s|
  {
    if s == "" {
    } else if IsSpace(s[0]) {
      assert RuneLength(s) == 1;
      WordsValid(s[1..]);
    } else {
      var n := WordLength(s);
      if n < |s| {
        assert s == s[..n] + [s[n]] + s[n + 1..];
        ValidAroundAscii(s[..n], s[n], s[n + 1..]);
        WordsValid(s[n + 1..]);
        assert s[n..][1..] == s[n + 1..];
        assert Words(s[n..]) == Words(s[n + 1..]);
      } else {
        assert s[..n] == s && s[n..] == "";
      }
    }
  }

  lemma {:induction false} UnwordsValid(ws: seq<string>)
    requires AllValid(ws)
    ensures ValidUtf8(Unwords(ws))
  {
    if |ws| > 1 {
      UnwordsValid(ws[1..]);
      ValidAroundAscii(ws[0], ' ', Unwords(ws[1..]));
    }
  }
}

/** Wildcard matching of environment-file names (installer/envfile.go).

A pattern is read once into a list of elements, and `Matches` says, by recursion on that
list, which names it matches. `GlobMatch` is the installer's matcher: one loop, two
cursors, and a return to the last '*' only. The theorem is that the two agree on every
pattern and every name, including when the matcher refuses a pattern it cannot evaluate.
*/
module Glob {
  import opened Text

  datatype Range = Range(lo: char, hi: char)

  /** One piece of a pattern. `Nothing` is a trailing backslash; `Class` is a bracket
      expression with "[:", "[=" or "[.", which the matcher refuses to evaluate. */
  datatype Element =
    | AnyRun
    | AnyOne
    | Literal(c: char)
    | OneOf(negate: bool, ranges: seq<Range>)
    | Nothing
    | Class

  datatype Bracket = Unclosed | ClassInside | Closed(ranges: seq<Range>, end: nat)

  datatype Item = Cut | Item(range: Range, next: nat)

  /** The byte or range at position `i` of a bracket expression; `Cut` when the pattern
      ends inside it. */
  function ItemAt(pat: string, i: nat): (it: Item)
    requires i < |pat|
    ensures it.Item? ==> i < it.next <= |pat|
  {
    if pat[i] == '\\' && i + 1 >= |pat| then Cut
    else
      var lo := if pat[i] == '\\' then pat[i + 1] else pat[i];
      var j := if pat[i] == '\\' then i + 2 else i + 1;
      if !(j + 1 < |pat| && pat[j] == '-' && pat[j + 1] != ']') then Item(Range(lo, lo), j)
      else if pat[j + 1] != '\\' then Item(Range(lo, pat[j + 1]), j + 2)
      else if j + 2 < |pat| then Item(Range(lo, pat[j + 2]), j + 3)
      else Cut
  }

  /** The members of a bracket expression from position `i` on. */
  function Members(pat: string, i: nat, first: bool): (b: Bracket)
    ensures b.Closed? ==> i < b.end <= |pat|
    decreases |pat| - i
  {
    if i >= |pat| then Unclosed
    else if pat[i] == ']' && !first then Closed([], i + 1)
    else if pat[i] == '[' && i + 1 < |pat| && pat[i + 1] in ":=." then ClassInside
    else
      match ItemAt(pat, i)
      case Cut => Unclosed
      case Item(range, next) => Prepend([range], Members(pat, next, false))
  }

  function Prepend(rs: seq<Range>, b: Bracket): Bracket {
    if b.Closed? then Closed(rs + b.ranges, b.end) else b
  }

  predicate Negated(pat: string, p: nat) {
    p + 1 < |pat| && (pat[p + 1] == '!' || pat[p + 1] == '^')
  }

  /** The bracket expression whose '[' is at `p`. */
  function BracketAt(pat: string, p: nat): Bracket {
    Members(pat, if Negated(pat, p) then p + 2 else p + 1, true)
  }

  /** The element at position `p` and the position after it. */
  function ElementAt(pat: string, p: nat): (r: (Element, nat))
    requires p < |pat|
    ensures p < r.1 <= |pat|
  {
    match pat[p]
    case '*' => (AnyRun, p + 1)
    case '?' => (AnyOne, p + 1)
    case '[' =>
      (match BracketAt(pat, p)
       case Unclosed => (Literal('['), p + 1)
       case ClassInside => (Class, |pat|)
       case Closed(rs, end) => (OneOf(Negated(pat, p), rs), end))
    case '\\' => if p + 1 < |pat| then (Literal(pat[p + 1]), p + 2) else (Nothing, p + 1)
    case c => (Literal(c), p + 1)
  }

  /** The elements of the pattern from position `p` on. Nothing after a class is read. */
  function Elements(pat: string, p: nat): seq<Element>
    requires p <= |pat|
    decreases |pat| - p
  {
    if p == |pat| then []
    else
      var (e, next) := ElementAt(pat, p);
      [e] + Elements(pat, next)
  }

  predicate InRanges(c: char, rs: seq<Range>) {
    exists k :: 0 <= k < |rs| && rs[k].lo <= c <= rs[k].hi
  }

  /** Whether a single-byte element accepts the byte `c`. */
  predicate Accepts(e: Element, c: char)
    requires !e.AnyRun? && !e.Class?
  {
    match e
    case AnyOne => true
    case Literal(l) => c == l
    case OneOf(negate, rs) => InRanges(c, rs) != negate
    case Nothing => false
  }

  /** The recursive definition of matching: '*' stands for any bytes, every other element
      for one byte. What follows a class is unknown, so reaching one counts as a match;
      `Verdict` turns such a match into an error. */
  ghost predicate Matches(es: seq<Element>, name: string)
    decreases |es|
  {
    if es == [] then name == ""
    else if es[0].Class? then true
    else if es[0].AnyRun? then exists k :: 0 <= k <= |name| && Matches(es[1..], name[k..])
    else name != "" && Accepts(es[0], name[0]) && Matches(es[1..], name[1..])
  }

  datatype Outcome = Match(matched: bool) | ClassError

  predicate HasClass(es: seq<Element>) {
    es != [] && (es[0].Class? || HasClass(es[1..]))
  }

  /** What the matcher must answer. A leading '.' of the name is matched by a literal '.'
      only. A pattern with a class is an error exactly when some reading of the elements
      before the class gets that far in the name. */
  ghost function Verdict(pat: string, name: string): Outcome {
    var es := Elements(pat, 0);
    if name != "" && name[0] == '.' && (es == [] || es[0] != Literal('.')) then Match(false)
    else MatchVerdict(pat, name)
  }

  ghost function MatchVerdict(pat: string, name: string): Outcome {
    var es := Elements(pat, 0);
    if Matches(es, name) then (if HasClass(es) then ClassError else Match(true)) else Match(false)
  }

  // ---- The matcher ---------------------------------------------------------------------

  /** One member of a bracket expression, a byte or a range. */
  method BracketItem(pattern: string, at: nat) returns (cut: bool, lo: char, hi: char, i: nat)
    requires at < |pattern|
    ensures cut == ItemAt(pattern, at).Cut?
    ensures !cut ==> ItemAt(pattern, at) == Item(Range(lo, hi), i)
  {
    i := at;
    var c := pattern[i];
    lo, hi, cut := c, c, false;
    if c == '\\' {
      if i + 1 >= |pattern| {
        cut := true;
        return;
      }
      i := i + 1;
      c := pattern[i];
    }
    i := i + 1;
    lo, hi := c, c;
    if i + 1 < |pattern| && pattern[i] == '-' && pattern[i + 1] != ']' {
      i := i + 1;
      hi := pattern[i];
      if hi == '\\' {
        if i + 1 >= |pattern| {
          cut := true;
          return;
        }
        i := i + 1;
        hi := pattern[i];
      }
      i := i + 1;
    }
  }

  /** One bracket expression against the byte at `n` of `name`. */
  method GlobBracket(pattern: string, p: nat, name: string, n: nat) returns (end: int, matched: bool, err: bool)
    requires p < |pattern| && n <= |name|
    ensures match BracketAt(pattern, p)
            case ClassInside => err
            case Unclosed => !err && end == -1 && !matched
            case Closed(rs, e) =>
              && !err && end == e
              && matched == (n < |name| && Accepts(OneOf(Negated(pattern, p), rs), name[n]))
  {
    var i := p + 1;
    var negate := false;
    if i < |pattern| && (pattern[i] == '!' || pattern[i] == '^') {
      negate := true;
      i := i + 1;
    }
    var member := false;
    var first := true;
    ghost var seen: seq<Range> := [];
    while true
      invariant BracketAt(pattern, p) == Prepend(seen, Members(pattern, i, first))
      invariant negate == Negated(pattern, p)
      invariant member == (n < |name| && InRanges(name[n], seen))
      decreases |pattern| - i
    {
      if i >= |pattern| {
        return -1, false, false;
      }
      var c := pattern[i];
      if c == ']' && !first {
        assert seen + [] == seen;
        return i + 1, n < |name| && member != negate, false;
      } else if c == '[' && i + 1 < |pattern| && pattern[i + 1] in ":=." {
        return 0, false, true;
      }
      var cut, lo, hi, next := BracketItem(pattern, i);
      if cut {
        return -1, false, false;
      }
      if n < |name| && lo <= name[n] && name[n] <= hi {
        member := true;
      }
      if n < |name| { InRangesSnoc(name[n], seen, Range(lo, hi)); }
      PrependPrepend(seen, [Range(lo, hi)], Members(pattern, next, false));
      seen := seen + [Range(lo, hi)];
      i := next;
      first := false;
    }
  }

  lemma InRangesSnoc(c: char, rs: seq<Range>, r: Range)
    ensures InRanges(c, rs + [r]) == (InRanges(c, rs) || r.lo <= c <= r.hi)
  {
    var all := rs + [r];
    if InRanges(c, rs) {
      var k :| 0 <= k < |rs| && rs[k].lo <= c <= rs[k].hi;
      assert all[k] == rs[k];
    }
    if r.lo <= c <= r.hi { assert all[|rs|] == r; }
  }

  lemma PrependPrepend(a: seq<Range>, b: seq<Range>, x: Bracket)
    ensures Prepend(a, Prepend(b, x)) == Prepend(a + b, x)
  {
    if x.Closed? { assert a + (b + x.ranges) == a + b + x.ranges; }
  }

  /** From position `a` of the pattern, `len` single-byte elements lead to position `b`. */
  ghost predicate Path(pat: string, a: nat, b: nat, len: nat)
    requires a <= |pat|
    decreases len
  {
    if len == 0 then a == b
    else
      && a < |pat|
      && var (e, next) := ElementAt(pat, a);
      && !e.AnyRun? && !e.Class? && Path(pat, next, b, len - 1)
  }

  lemma {:induction false} PathSnoc(pat: string, a: nat, b: nat, len: nat)
    requires a <= |pat| && b < |pat| && Path(pat, a, b, len)
    requires !ElementAt(pat, b).0.AnyRun? && !ElementAt(pat, b).0.Class?
    ensures Path(pat, a, ElementAt(pat, b).1, len + 1)
    decreases len
  {
    if len > 0 { PathSnoc(pat, ElementAt(pat, a).1, b, len - 1); }
  }

  /** Single-byte elements consume one byte each, whatever follows them. */
  lemma {:induction false} PathConsumes(pat: string, a: nat, b: nat, len: nat, name: string)
    requires a <= |pat| && b <= |pat| && Path(pat, a, b, len) && Matches(Elements(pat, a), name)
    ensures len <= |name| && Matches(Elements(pat, b), name[len..])
    decreases len
  {
    if len == 0 {
      assert name[0..] == name;
    } else {
      PathConsumes(pat, ElementAt(pat, a).1, b, len - 1, name[1..]);
      assert name[1..][len - 1..] == name[len..];
    }
  }

  /** Some position from `from` on matches: what a '*' before `es` asks for. */
  ghost predicate MatchesFrom(es: seq<Element>, name: string, from: nat)
    requires from <= |name|
  {
    exists k :: from <= k <= |name| && Matches(es, name[k..])
  }

  lemma StarIsFrom(rest: seq<Element>, name: string, n: nat)
    requires n <= |name|
    ensures Matches([AnyRun] + rest, name[n..]) == MatchesFrom(rest, name, n)
  {
    var tail := name[n..];
    assert ([AnyRun] + rest)[1..] == rest;
    if Matches([AnyRun] + rest, tail) {
      var k :| 0 <= k <= |tail| && Matches(rest, tail[k..]);
      assert tail[k..] == name[n + k..];
    }
    if MatchesFrom(rest, name, n) {
      var k :| n <= k <= |name| && Matches(rest, name[k..]);
      assert tail[k - n..] == name[k..];
    }
  }

  /** Why the last star is enough: if an earlier star could still take more bytes and
      match, the star just reached can take them instead. */
  lemma LastStarIsEnough(pat: string, a: nat, star: nat, len: nat, name: string, from: nat)
    requires a <= star < |pat| && pat[star] == '*' && Path(pat, a, star, len) && from + len <= |name|
    ensures MatchesFrom(Elements(pat, a), name, from) ==> MatchesFrom(Elements(pat, star + 1), name, from + len)
  {
    if MatchesFrom(Elements(pat, a), name, from) {
      var k :| from <= k <= |name| && Matches(Elements(pat, a), name[k..]);
      StarTakesOver(pat, a, star, len, name, k);
    }
  }

  lemma StarTakesOver(pat: string, a: nat, star: nat, len: nat, name: string, k: nat)
    requires a <= star < |pat| && pat[star] == '*' && Path(pat, a, star, len) && k <= |name|
    requires Matches(Elements(pat, a), name[k..])
    ensures k + len <= |name| && MatchesFrom(Elements(pat, star + 1), name, k + len)
  {
    PathConsumes(pat, a, star, len, name[k..]);
    assert name[k..][len..] == name[k + len..];
    StarIsFrom(Elements(pat, star + 1), name, k + len);
  }

  /** A '*' that cannot match at `from` matches one byte further on, or not at all. */
  lemma FromSkips(es: seq<Element>, name: string, from: nat)
    requires from <= |name| && !Matches(es, name[from..])
    ensures MatchesFrom(es, name, from) == (from < |name| && MatchesFrom(es, name, from + 1))
  {
  }

  lemma Unfold(pat: string, p: nat)
    requires p < |pat|
    ensures var (e, next) := ElementAt(pat, p);
            && Elements(pat, p) == [e] + Elements(pat, next)
            && HasClass(Elements(pat, p)) == (e.Class? || HasClass(Elements(pat, next)))
  {
    assert Elements(pat, p)[1..] == Elements(pat, ElementAt(pat, p).1);
  }

  /** Where the matcher stands: `p` and `n` are its cursors, `starP` and `starN` the last
      star (starP < 0: none). What the whole pattern matches is decided by what is left of
      it, or by letting the last star take more. */
  ghost predicate Tracks(pat: string, name: string, p: nat, n: nat, starP: int, starN: nat) {
    && p <= |pat| && starN <= n <= |name| && -1 <= starP <= p
    && HasClass(Elements(pat, 0)) == HasClass(Elements(pat, p))
    && if starP < 0 then
         Matches(Elements(pat, 0), name) == Matches(Elements(pat, p), name[n..])
       else
         && HasClass(Elements(pat, 0)) == HasClass(Elements(pat, starP))
         && Path(pat, starP, p, n - starN)
         && Matches(Elements(pat, starP), name[starN..]) == Matches(Elements(pat, p), name[n..])
         && Matches(Elements(pat, 0), name) == MatchesFrom(Elements(pat, starP), name, starN)
  }

  lemma StartTracks(pat: string, name: string)
    ensures Tracks(pat, name, 0, 0, -1, 0)
  {
    assert name[0..] == name;
  }

  /** Reading one byte with one element. */
  lemma Advance(pat: string, name: string, p: nat, n: nat, starP: int, starN: nat)
    requires Tracks(pat, name, p, n, starP, starN) && p < |pat| && n < |name|
    requires var e := ElementAt(pat, p).0; !e.AnyRun? && !e.Class? && Accepts(e, name[n])
    ensures Tracks(pat, name, ElementAt(pat, p).1, n + 1, starP, starN)
  {
    Unfold(pat, p);
    assert Matches(Elements(pat, p), name[n..]) == Matches(Elements(pat, ElementAt(pat, p).1), name[n + 1..]) by {
      assert name[n..][1..] == name[n + 1..];
    }
    if starP >= 0 { PathSnoc(pat, starP, p, n - starN); }
  }

  /** Reaching a star. */
  lemma ReachStar(pat: string, name: string, p: nat, n: nat, starP: int, starN: nat)
    requires Tracks(pat, name, p, n, starP, starN) && p < |pat| && pat[p] == '*'
    ensures Tracks(pat, name, p + 1, n, p + 1, n)
  {
    Unfold(pat, p);
    StarIsFrom(Elements(pat, p + 1), name, n);
    if starP >= 0 {
      LastStarIsEnough(pat, starP, p, n - starN, name, starN);
    }
  }

  /** Reaching a class. */
  lemma ReachClass(pat: string, name: string, p: nat, n: nat, starP: int, starN: nat)
    requires Tracks(pat, name, p, n, starP, starN) && p < |pat| && ElementAt(pat, p).0.Class?
    ensures MatchVerdict(pat, name) == ClassError
  {
    Unfold(pat, p);
    assert Matches(Elements(pat, p), name[n..]);
  }

  /** No byte can be read: the last star takes one more, or nothing matches. */
  lemma Retry(pat: string, name: string, p: nat, n: nat, starP: int, starN: nat)
    requires Tracks(pat, name, p, n, starP, starN) && (p < |pat| || n < |name|)
    requires p < |pat| ==> var e := ElementAt(pat, p).0;
               !e.AnyRun? && !e.Class? && (n < |name| ==> !Accepts(e, name[n]))
    ensures starP >= 0 && starN < |name| ==> Tracks(pat, name, starP, starN + 1, starP, starN + 1)
    ensures !(starP >= 0 && starN < |name|) ==> MatchVerdict(pat, name) == Match(false)
  {
    if p < |pat| { Unfold(pat, p); }
    assert !Matches(Elements(pat, p), name[n..]);
    if starP >= 0 { FromSkips(Elements(pat, starP), name, starN); }
  }

  /** Both cursors at the end. */
  lemma Finish(pat: string, name: string, starP: int, starN: nat)
    requires Tracks(pat, name, |pat|, |name|, starP, starN)
    ensures MatchVerdict(pat, name) == Match(true)
  {
  }

  /** The element at `p`, not a star, against the byte at `n`: the position after it when
      it takes the byte, or -1. */
  method TakeByte(pattern: string, p: nat, name: string, n: nat) returns (to: int, err: bool)
    requires p < |pattern| && pattern[p] != '*' && n <= |name|
    ensures !ElementAt(pattern, p).0.AnyRun?
    ensures err == ElementAt(pattern, p).0.Class?
    ensures !err ==> to == if n < |name| && Accepts(ElementAt(pattern, p).0, name[n]) then ElementAt(pattern, p).1 else -1
  {
    to, err := -1, false;
    match pattern[p]
    case '?' =>
      if n < |name| { to := p + 1; }
    case '[' =>
      var end, matched;
      end, matched, err := GlobBracket(pattern, p, name, n);
      if err {
      } else if end < 0 && n < |name| && name[n] == '[' {
        to := p + 1;
      } else if end >= 0 && matched {
        to := end;
      }
    case '\\' =>
      if p + 1 < |pattern| && n < |name| && name[n] == pattern[p + 1] { to := p + 2; }
    case c =>
      if n < |name| && name[n] == c { to := p + 1; }
  }

  /** Where the matcher goes from an element that is not a star: past it, back to the last star,
      or to an answer. */
  method ReadOne(pattern: string, name: string, p: nat, n: nat, starP: int, starN: nat) returns (next: Turn)
    requires Tracks(pattern, name, p, n, starP, starN) && p < |pattern| && pattern[p] != '*'
    ensures Follows(pattern, name, p, starN, next)
  {
    var to, err := TakeByte(pattern, p, name, n);
    if err {
      ReachClass(pattern, name, p, n, starP, starN);
      return Answer(ClassError);
    }
    if to >= 0 {
      Advance(pattern, name, p, n, starP, starN);
      return Go(to, n + 1, starP, starN);
    }
    Retry(pattern, name, p, n, starP, starN);
    return BackToStar(name, starP, starN);
  }

  /** The last star takes one more byte, if there is one. */
  function BackToStar(name: string, starP: int, starN: nat): Turn {
    if starP >= 0 && starN < |name| then Go(starP, starN + 1, starP, starN + 1) else Answer(Match(false))
  }

  /** What one turn of the loop leads to: new cursors or the answer. */
  datatype Turn = Go(p: nat, n: nat, starP: int, starN: nat) | Answer(outcome: Outcome)

  /** A turn is right, and cursors move on. */
  ghost predicate Follows(pat: string, name: string, p: nat, starN: nat, next: Turn) {
    match next
    case Answer(outcome) => outcome == MatchVerdict(pat, name)
    case Go(p', n', starP', starN') =>
      && Tracks(pat, name, p', n', starP', starN')
      && starN <= starN' && (starN < starN' || p < p')
  }

  method TakeTurn(pattern: string, name: string, p: nat, n: nat, starP: int, starN: nat) returns (next: Turn)
    requires Tracks(pattern, name, p, n, starP, starN) && (n < |name| || p < |pattern|)
    ensures Follows(pattern, name, p, starN, next)
  {
    if p == |pattern| {
      Retry(pattern, name, p, n, starP, starN);
      return BackToStar(name, starP, starN);
    }
    if pattern[p] == '*' {
      ReachStar(pattern, name, p, n, starP, starN);
      return Go(p + 1, n, p + 1, n);
    }
    next := ReadOne(pattern, name, p, n, starP, starN);
  }

  /** The matcher of one path component. */
  method GlobMatch(pattern: string, name: string) returns (r: Outcome)
    ensures r == Verdict(pattern, name)
  {
    if HasPrefix(name, ".") && !HasPrefix(pattern, ".") && !HasPrefix(pattern, "\\.") {
      return Match(false);
    }
    NotHidden(pattern, name);
    r := MatchLoop(pattern, name);
  }

  /** The check before the loop refuses exactly the names that a leading '.' hides. */
  lemma NotHidden(pat: string, name: string)
    ensures HasPrefix(name, ".") && !HasPrefix(pat, ".") && !HasPrefix(pat, "\\.")
            <==> name != "" && name[0] == '.' && (Elements(pat, 0) == [] || Elements(pat, 0)[0] != Literal('.'))
  {
    if pat != "" { Unfold(pat, 0); }
  }

  /** Two cursors over pattern and name, and the last star. */
  method MatchLoop(pattern: string, name: string) returns (r: Outcome)
    ensures r == MatchVerdict(pattern, name)
  {
    var p: nat, n: nat := 0, 0;
    var starP: int, starN: nat := -1, 0;
    StartTracks(pattern, name);
    while n < |name| || p < |pattern|
      invariant Tracks(pattern, name, p, n, starP, starN)
      decreases |name| - starN, |pattern| - p
    {
      var next := TakeTurn(pattern, name, p, n, starP, starN);
      if next.Answer? {
        return next.outcome;
      }
      p, n, starP, starN := next.p, next.n, next.starP, next.starN;
    }
    Finish(pattern, name, starP, starN);
    return Match(true);
  }

  // ---- Components without a wildcard -----------------------------------------------------

  /** Whether position `i` on holds a wildcard; `bracket` tells of an unescaped '[' before. */
  predicate Magic(comp: string, i: nat, bracket: bool)
    decreases |comp| - i
  {
    i < |comp| &&
    match comp[i]
    case '*' => true
    case '?' => true
    case '\\' => Magic(comp, i + 2, bracket)
    case '[' => Magic(comp, i + 1, true)
    case ']' => bracket || Magic(comp, i + 1, false)
    case _ => Magic(comp, i + 1, bracket)
  }

  method GlobMagic(comp: string) returns (r: bool)
    ensures r == Magic(comp, 0, false)
  {
    var bracket := false;
    var i := 0;
    while i < |comp|
      invariant 0 <= i && Magic(comp, 0, false) == Magic(comp, i, bracket)
    {
      match comp[i] {
        case '*' => return true;
        case '?' => return true;
        case '\\' => i := i + 1;
        case '[' => bracket := true;
        case ']' => if bracket { return true; }
        case _ =>
      }
      i := i + 1;
    }
    return false;
  }

  function Unescaped(comp: string, i: nat): string
    decreases |comp| - i
  {
    if i >= |comp| then ""
    else if comp[i] == '\\' && i + 1 < |comp| then [comp[i + 1]] + Unescaped(comp, i + 2)
    else [comp[i]] + Unescaped(comp, i + 1)
  }

  method GlobUnescape(comp: string) returns (b: string)
    ensures b == Unescaped(comp, 0)
  {
    if '\\' !in comp {
      NoEscapes(comp, 0);
      return comp;
    }
    b := "";
    var i := 0;
    while i < |comp|
      invariant 0 <= i <= |comp| && Unescaped(comp, 0) == b + Unescaped(comp, i)
    {
      if comp[i] == '\\' && i + 1 < |comp| {
        i := i + 1;
      }
      AddByte(b, comp[i], Unescaped(comp, i + 1));
      b := b + [comp[i]];
      i := i + 1;
    }
  }

  lemma AddByte(b: string, c: char, rest: string)
    ensures b + ([c] + rest) == b + [c] + rest
  {
  }

  lemma {:induction false} NoEscapes(comp: string, i: nat)
    requires '\\' !in comp && i <= |comp|
    ensures Unescaped(comp, i) == comp[i..]
    decreases |comp| - i
  {
    if i < |comp| { NoEscapes(comp, i + 1); }
  }

  lemma {:induction false} NeverClosed(comp: string, i: nat, first: bool)
    requires !Magic(comp, i, true)
    ensures !Members(comp, i, first).Closed?
    decreases |comp| - i
  {
    if i < |comp| && ItemAt(comp, i).Item? {
      var j := if comp[i] == '\\' then i + 2 else i + 1;
      assert !Magic(comp, j, true);
      if j + 1 < |comp| && comp[j] == '-' { assert !Magic(comp, j + 1, true); }
      NeverClosed(comp, ItemAt(comp, i).next, false);
    }
  }

  /** A component without a wildcard is taken as the one name it spells, and the matcher
      would say the same: it matches that name and no other. (A class opener without a ']'
      and a trailing backslash, which the matcher never matches, are the exceptions.) */
  lemma {:induction false} SpellsItself(comp: string, i: nat, bracket: bool, name: string)
    requires i <= |comp| && !Magic(comp, i, bracket) && !HasClass(Elements(comp, i)) && Nothing !in Elements(comp, i)
    ensures Matches(Elements(comp, i), name) <==> name == Unescaped(comp, i)
    decreases |comp| - i
  {
    if i < |comp| {
      var next := ElementAt(comp, i).1;
      var c := SpellsOne(comp, i, bracket);
      if name != "" {
        SpellsItself(comp, next, bracket || comp[i] == '[', name[1..]);
        assert name == [name[0]] + name[1..];
      }
      LiteralFirst(c, Elements(comp, next), name);
    }
  }

  lemma LiteralFirst(c: char, es: seq<Element>, name: string)
    ensures Matches([Literal(c)] + es, name) <==> name != "" && name[0] == c && Matches(es, name[1..])
  {
    assert ([Literal(c)] + es)[1..] == es;
  }

  /** Without a wildcard, every element is a literal. */
  lemma SpellsOne(comp: string, i: nat, bracket: bool) returns (c: char)
    requires i < |comp| && !Magic(comp, i, bracket) && !HasClass(Elements(comp, i)) && Nothing !in Elements(comp, i)
    ensures var next := ElementAt(comp, i).1;
            && Elements(comp, i) == [Literal(c)] + Elements(comp, next)
            && Unescaped(comp, i) == [c] + Unescaped(comp, next)
            && !Magic(comp, next, bracket || comp[i] == '[')
            && !HasClass(Elements(comp, next)) && Nothing !in Elements(comp, next)
  {
    Unfold(comp, i);
    var (e, next) := ElementAt(comp, i);
    if comp[i] == '[' {
      NeverClosed(comp, if Negated(comp, i) then i + 2 else i + 1, true);
    }
    assert e == Elements(comp, i)[0];
    c := if comp[i] == '\\' && i + 1 < |comp| then comp[i + 1] else comp[i];
  }

  lemma PlainComponentMatchesItsName(comp: string, name: string)
    requires !Magic(comp, 0, false) && !HasClass(Elements(comp, 0)) && Nothing !in Elements(comp, 0)
    ensures Verdict(comp, name) == Match(name == Unescaped(comp, 0))
  {
    SpellsItself(comp, 0, false, name);
    if comp != "" && comp[0] == '[' {
      NeverClosed(comp, if Negated(comp, 0) then 2 else 1, true);
    }
  }
}

/**
 * Strings as the handlers see them: ASCII case mapping, substring tests,
 * splitting on a separator, joining, and the small regular-expression
 * shapes the response extractors search for.
 *
 * Every regular expression in the extractors is a word, or a few words
 * joined by `.`, optionally wrapped in `\b`, and alternatives joined by `|`.
 * A `Pattern` is one such alternative; an alternation is a sequence of them.
 */
module Text {
  import opened Wrappers

  // ---------------------------------------------------------------- characters

  predicate IsAsciiUpper(c: char) { 'A' <= c <= 'Z' }
  predicate IsAsciiLower(c: char) { 'a' <= c <= 'z' }
  predicate IsAsciiLetter(c: char) { IsAsciiUpper(c) || IsAsciiLower(c) }

  /** A character of the class `\w`: letter, digit or underscore. */
  predicate IsWordChar(c: char) { IsAsciiLetter(c) || '0' <= c <= '9' || c == '_' }

  function LowerChar(c: char): char { if IsAsciiUpper(c) then (c as int + 32) as char else c }
  function UpperChar(c: char): char { if IsAsciiLower(c) then (c as int - 32) as char else c }

  /** Python's `s.lower()`. */
  function Lower(s: string): string {
    seq(|s|, i requires 0 <= i < |s| => LowerChar(s[i]))
  }

  /** Python's `s.title()`: a letter is upper-cased when it starts a run of letters, lower-cased otherwise. */
  function Title(s: string): string {
    seq(|s|, i requires 0 <= i < |s| =>
      if i == 0 || !IsAsciiLetter(s[i - 1]) then UpperChar(s[i]) else LowerChar(s[i]))
  }

  // ---------------------------------------------------------------- prefixes, suffixes, joins

  predicate StartsWith(s: string, prefix: string) { prefix <= s }

  predicate EndsWith(s: string, suffix: string) {
    |suffix| <= |s| && s[|s| - |suffix|..] == suffix
  }

  /** Python's `sep.join(parts)`. */
  function Join(parts: seq<string>, sep: string): string {
    if |parts| == 0 then ""
    else if |parts| == 1 then parts[0]
    else parts[0] + sep + Join(parts[1..], sep)
  }

  lemma {:induction false} JoinStartsWithFirst(parts: seq<string>, sep: string)
    requires |parts| > 0
    ensures StartsWith(Join(parts, sep), parts[0])
  {
  }

  /** Every part of a join occurs in it. */
  lemma {:induction false} JoinContainsPart(parts: seq<string>, sep: string, k: nat)
    requires k < |parts|
    ensures exists i: nat :: SliceIs(Join(parts, sep), i, parts[k])
  {
    if k == 0 {
      JoinStartsWithFirst(parts, sep);
      assert Join(parts, sep)[..|parts[0]|] == parts[0];
      assert SliceIs(Join(parts, sep), 0, parts[0]);
    } else {
      JoinContainsPart(parts[1..], sep, k - 1);
      var i: nat :| SliceIs(Join(parts[1..], sep), i, parts[1..][k - 1]);
      SliceIsShift(parts[0] + sep, Join(parts[1..], sep), i, parts[k]);
      assert Join(parts, sep) == parts[0] + sep + Join(parts[1..], sep);
      assert SliceIs(Join(parts, sep), |parts[0] + sep| + i, parts[k]);
    }
  }

  // ---------------------------------------------------------------- searching for a character

  /** Index of the first occurrence of `c`, as `s.find(c)` would give it. */
  function IndexOf(s: string, c: char): (r: Option<nat>)
    ensures r.None? <==> c !in s
    ensures r.Some? ==> r.value < |s| && s[r.value] == c && c !in s[..r.value]
  {
    if s == [] then None
    else if s[0] == c then Some(0)
    else
      match IndexOf(s[1..], c)
      case None => None
      case Some(k) =>
        assert s[..k + 1] == [s[0]] + s[1..][..k];
        Some(k + 1)
  }

  /** Index of the last occurrence of `c`, as `s.rfind(c)` would give it. */
  function LastIndexOf(s: string, c: char): (r: Option<nat>)
    ensures r.None? <==> c !in s
    ensures r.Some? ==> r.value < |s| && s[r.value] == c && c !in s[r.value + 1..]
  {
    if s == [] then None
    else if s[|s| - 1] == c then Some(|s| - 1)
    else
      match LastIndexOf(s[..|s| - 1], c)
      case None => None
      case Some(k) =>
        assert s[k + 1..] == s[..|s| - 1][k + 1..] + [s[|s| - 1]];
        Some(k)
  }

  /** `s.split(sep)[0]`: the text before the first separator. */
  function FirstField(s: string, sep: char): (r: string)
    ensures r <= s && sep !in r
    ensures sep in s ==> r + [sep] <= s
  {
    match IndexOf(s, sep)
    case None => s
    case Some(i) => s[..i]
  }

  /** `s.split(sep)[-1]`: the text after the last separator. */
  function LastField(s: string, sep: char): string {
    match LastIndexOf(s, sep)
    case None => s
    case Some(i) => s[i + 1..]
  }

  /** Splitting `a + sep + b` gives back `a` as the first field when `a` holds no separator. */
  lemma FirstFieldOfJoined(a: string, b: string, sep: char)
    requires sep !in a
    ensures FirstField(a + [sep] + b, sep) == a
  {
    var s := a + [sep] + b;
    assert s[|a|] == sep;
    var i := IndexOf(s, sep).value;
    assert s[..i] == a;
  }

  /** Splitting `a + sep + b` gives back `b` as the last field when `b` holds no separator. */
  lemma LastFieldOfJoined(a: string, b: string, sep: char)
    requires sep !in b
    ensures LastField(a + [sep] + b, sep) == b
  {
    var s := a + [sep] + b;
    assert s[|a|] == sep;
    var j := LastIndexOf(s, sep).value;
    assert s[j + 1..] == b;
  }

  /** `s.split(sep)[1]`: the text between the first separator and the next one (or the end). */
  function SecondField(s: string, sep: char): (r: string)
    requires sep in s
    ensures sep !in r
  {
    var i := IndexOf(s, sep).value;
    FirstField(s[i + 1..], sep)
  }

  /** Splitting `a + sep + b` gives back `b` as the second field when neither part holds a separator. */
  lemma SecondFieldOfJoined(a: string, b: string, sep: char)
    requires sep !in a && sep !in b
    ensures sep in a + [sep] + b
    ensures SecondField(a + [sep] + b, sep) == b
  {
    var s := a + [sep] + b;
    assert s[|a|] == sep;
    FirstFieldOfJoined(a, b, sep);
    var i := IndexOf(s, sep).value;
    assert s[..i] == a;
    assert s[i + 1..] == b;
  }

  // ---------------------------------------------------------------- patterns

  /** One position of a pattern: a literal character, or `.` (any character but a newline). */
  datatype Atom = Lit(c: char) | AnyButNewline

  /** A run of atoms, optionally with `\b` before and after it. */
  datatype Pattern = Pattern(boundaryBefore: bool, atoms: seq<Atom>, boundaryAfter: bool)

  /** The pattern written `src` (where `.` is the only metacharacter), wrapped in `\b` when `bounded`. */
  function Regex(src: string, bounded: bool): Pattern {
    Pattern(bounded, seq(|src|, i requires 0 <= i < |src| => if src[i] == '.' then AnyButNewline else Lit(src[i])), bounded)
  }

  /** The literal text `w`, as used by Python's `w in s`. */
  function Literal(w: string): Pattern {
    Pattern(false, seq(|w|, i requires 0 <= i < |w| => Lit(w[i])), false)
  }

  predicate AtomMatches(a: Atom, c: char) {
    match a
    case Lit(x) => c == x
    case AnyButNewline => c != '\n'
  }

  /** `\b` at position `k`: exactly one of the characters around `k` is a word character. */
  predicate IsBoundary(s: string, k: nat)
    requires k <= |s|
  {
    (k > 0 && IsWordChar(s[k - 1])) != (k < |s| && IsWordChar(s[k]))
  }

  predicate MatchesAt(p: Pattern, s: string, i: nat) {
    && i + |p.atoms| <= |s|
    && (forall j :: 0 <= j < |p.atoms| ==> AtomMatches(p.atoms[j], s[i + j]))
    && (p.boundaryBefore ==> IsBoundary(s, i))
    && (p.boundaryAfter ==> IsBoundary(s, i + |p.atoms|))
  }

  /** `re.search(p, s)` finds a match: some position matches. */
  ghost predicate Occurs(p: Pattern, s: string) {
    exists i: nat :: i <= |s| && MatchesAt(p, s, i)
  }

  /** Scans the positions from `i` on, left to right, as `re.search` does. */
  function SearchFrom(p: Pattern, s: string, i: nat): (found: bool)
    requires i <= |s|
    ensures found <==> exists k: nat :: i <= k <= |s| && MatchesAt(p, s, k)
    decreases |s| - i
  {
    if MatchesAt(p, s, i) then true
    else if i == |s| then false
    else SearchFrom(p, s, i + 1)
  }

  function Search(p: Pattern, s: string): (found: bool)
    ensures found <==> Occurs(p, s)
  {
    SearchFrom(p, s, 0)
  }

  /** `re.search(alt1|alt2|..., s)` finds a match. */
  function SearchAny(alternatives: seq<Pattern>, s: string): (found: bool)
    ensures found <==> exists k :: 0 <= k < |alternatives| && Occurs(alternatives[k], s)
  {
    exists k :: 0 <= k < |alternatives| && Search(alternatives[k], s)
  }

  /** `w` occurs in `s` at position `i`. */
  predicate SliceIs(s: string, i: nat, w: string) {
    i + |w| <= |s| && s[i..i + |w|] == w
  }

  lemma LiteralMatchesAt(w: string, s: string, i: nat)
    ensures MatchesAt(Literal(w), s, i) <==> SliceIs(s, i, w)
  {
    if i + |w| <= |s| && s[i..i + |w|] == w {
      forall j | 0 <= j < |w| ensures AtomMatches(Literal(w).atoms[j], s[i + j]) {
        assert s[i..i + |w|][j] == s[i + j];
      }
    }
    if MatchesAt(Literal(w), s, i) {
      forall j | 0 <= j < |w| ensures s[i..i + |w|][j] == w[j] {
        assert AtomMatches(Literal(w).atoms[j], s[i + j]);
      }
    }
  }

  lemma LiteralSearch(w: string, s: string)
    ensures Search(Literal(w), s) <==> exists i: nat :: SliceIs(s, i, w)
  {
    if Search(Literal(w), s) {
      var i: nat :| i <= |s| && MatchesAt(Literal(w), s, i);
      LiteralMatchesAt(w, s, i);
    } else {
      forall i: nat | i + |w| <= |s| ensures !SliceIs(s, i, w) {
        LiteralMatchesAt(w, s, i);
      }
    }
  }

  /** Python's `w in s`. */
  function Contains(s: string, w: string): (r: bool)
    ensures r <==> exists i: nat :: SliceIs(s, i, w)
  {
    LiteralSearch(w, s);
    Search(Literal(w), s)
  }

  /** An occurrence in `b` is an occurrence in `a + b`, shifted by `|a|`. */
  lemma SliceIsShift(a: string, b: string, i: nat, w: string)
    requires SliceIs(b, i, w)
    ensures SliceIs(a + b, |a| + i, w)
  {
    assert (a + b)[|a| + i..|a| + i + |w|] == b[i..i + |w|];
  }

  /** An occurrence of `w` in an occurrence of `t` in `s` is an occurrence of `w` in `s`. */
  lemma SliceIsTrans(s: string, i: nat, t: string, j: nat, w: string)
    requires SliceIs(s, i, t) && SliceIs(t, j, w)
    ensures SliceIs(s, i + j, w)
  {
    forall m | 0 <= m < |w| ensures s[i + j + m] == w[m] {
      assert t[j..j + |w|][m] == t[j + m];
      assert s[i..i + |t|][j + m] == s[i + j + m];
    }
    assert s[i + j..i + j + |w|] == w;
  }
}

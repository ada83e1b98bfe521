/**
 * String helpers with the semantics of the Python built-ins the source relies on:
 * `str.isspace`, `str.split()`, `' '.join`, `str.strip`, `str.find`, `str.rfind`,
 * `in`, `startswith`/`endswith`, slicing, and decimal rendering of integers.
 * Letter case is mapped on ASCII letters only.
 */
module Text {
  import opened Wrappers

  /** Python's `str.isspace()` for one code point (categories Zs, B, S and WS). */
  predicate IsSpace(c: char) {
    || ('\U{0009}' <= c <= '\U{000D}')
    || ('\U{001C}' <= c <= '\U{001F}')
    || c == ' ' || c == '\U{0085}' || c == '\U{00A0}' || c == '\U{1680}'
    || ('\U{2000}' <= c <= '\U{200A}')
    || c == '\U{2028}' || c == '\U{2029}' || c == '\U{202F}' || c == '\U{205F}' || c == '\U{3000}'
  }

  predicate IsDigit(c: char) {
    '0' <= c <= '9'
  }

  /** A word character of a regular expression's `\w` and `\b` (ASCII letters, digits and underscore). */
  predicate IsWordChar(c: char) {
    ('a' <= c <= 'z') || ('A' <= c <= 'Z') || IsDigit(c) || c == '_'
  }

  predicate IsUpperLetter(c: char) {
    'A' <= c <= 'Z'
  }

  /** `s.isdigit()` on ASCII digits: non-empty and every character a digit. */
  predicate IsDigits(s: string) {
    |s| > 0 && forall i :: 0 <= i < |s| ==> IsDigit(s[i])
  }

  function LowerChar(c: char): char {
    if 'A' <= c <= 'Z' then (c as int + 32) as char else c
  }

  function UpperChar(c: char): char {
    if 'a' <= c <= 'z' then (c as int - 32) as char else c
  }

  function Lower(s: string): (r: string)
    ensures |r| == |s|
    ensures forall i :: 0 <= i < |s| ==> r[i] == LowerChar(s[i])
  {
    seq(|s|, i requires 0 <= i < |s| => LowerChar(s[i]))
  }

  function Upper(s: string): (r: string)
    ensures |r| == |s|
    ensures forall i :: 0 <= i < |s| ==> r[i] == UpperChar(s[i])
  {
    seq(|s|, i requires 0 <= i < |s| => UpperChar(s[i]))
  }

  predicate StartsWith(s: string, p: string) {
    |p| <= |s| && s[..|p|] == p
  }

  predicate EndsWith(s: string, p: string) {
    |p| <= |s| && s[|s| - |p|..] == p
  }

  /** `t` occurs in `s` starting at index `i`. */
  predicate OccursAt(s: string, t: string, i: int) {
    0 <= i && i + |t| <= |s| && s[i..i + |t|] == t
  }

  /** The first index at or after `i` where `t` occurs. */
  function FindFrom(s: string, t: string, i: nat): (r: Option<nat>)
    requires i <= |s|
    decreases |s| - i
    ensures r.Some? ==> i <= r.value && OccursAt(s, t, r.value)
    ensures r.Some? ==> forall j :: i <= j < r.value ==> !OccursAt(s, t, j)
    ensures r.None? ==> forall j :: i <= j ==> !OccursAt(s, t, j)
  {
    if i + |t| > |s| then None
    else if s[i..i + |t|] == t then Some(i)
    else FindFrom(s, t, i + 1)
  }

  /** Python's `s.find(t)`, with `None` for -1. */
  function Find(s: string, t: string): (r: Option<nat>)
    ensures r.Some? ==> OccursAt(s, t, r.value) && forall j :: 0 <= j < r.value ==> !OccursAt(s, t, j)
    ensures r.None? ==> forall j :: !OccursAt(s, t, j)
  {
    FindFrom(s, t, 0)
  }

  /** Python's `t in s`. */
  predicate Contains(s: string, t: string) {
    Find(s, t).Some?
  }

  lemma ContainsIff(s: string, t: string, i: int)
    requires OccursAt(s, t, i)
    ensures Contains(s, t)
  {
  }

  /** The last index at or below `i` where `t` occurs, or -1. */
  function RFindBefore(s: string, t: string, i: int): (r: int)
    requires -1 <= i <= |s|
    decreases i + 1
    ensures -1 <= r <= i
    ensures r >= 0 ==> OccursAt(s, t, r)
    ensures forall j :: r < j <= i ==> !OccursAt(s, t, j)
  {
    if i < 0 then -1
    else if OccursAt(s, t, i) then i
    else RFindBefore(s, t, i - 1)
  }

  /** Python's `s.rfind(t)`: the last index where `t` occurs, or -1 when it does not. */
  function RFind(s: string, t: string): (r: int)
    ensures -1 <= r
    ensures r >= 0 ==> OccursAt(s, t, r)
    ensures forall j :: r < j ==> !OccursAt(s, t, j)
  {
    RFindBefore(s, t, |s|)
  }

  /** Python's `s[:n]` for a non-negative `n`. */
  function Take(s: string, n: nat): (r: string)
    ensures |r| <= n && StartsWith(s, r)
    ensures |s| <= n ==> r == s
    ensures n < |s| ==> |r| == n
  {
    if n < |s| then s[..n] else s
  }

  // ---------------------------------------------------------------------------
  // Whitespace: strip, split, join
  // ---------------------------------------------------------------------------

  /** Python's `s.lstrip()`. */
  function LStrip(s: string): (r: string)
    ensures |r| <= |s| && r == s[|s| - |r|..]
    ensures |r| > 0 ==> !IsSpace(r[0])
    ensures forall i :: 0 <= i < |s| - |r| ==> IsSpace(s[i])
  {
    if |s| > 0 && IsSpace(s[0]) then LStrip(s[1..]) else s
  }

  /** Python's `s.rstrip()`. */
  function RStrip(s: string): (r: string)
    ensures |r| <= |s| && r == s[..|r|]
    ensures |r| > 0 ==> !IsSpace(r[|r| - 1])
    ensures forall i :: |r| <= i < |s| ==> IsSpace(s[i])
  {
    if |s| > 0 && IsSpace(s[|s| - 1]) then RStrip(s[..|s| - 1]) else s
  }

  /** Python's `s.strip()`. */
  function Strip(s: string): string {
    RStrip(LStrip(s))
  }

  /** A word of `str.split()`: non-empty, without whitespace. */
  predicate IsWord(w: string) {
    |w| > 0 && forall i :: 0 <= i < |w| ==> !IsSpace(w[i])
  }

  /** Length of the leading run of non-whitespace characters. */
  function WordLen(s: string): (n: nat)
    ensures n <= |s|
    ensures forall i :: 0 <= i < n ==> !IsSpace(s[i])
    ensures n < |s| ==> IsSpace(s[n])
  {
    if |s| == 0 || IsSpace(s[0]) then 0 else 1 + WordLen(s[1..])
  }

  /** Python's `s.split()`: the maximal runs of non-whitespace, in order. */
  function Words(s: string): (ws: seq<string>)
    ensures forall k :: 0 <= k < |ws| ==> IsWord(ws[k])
    decreases |s|
  {
    if |s| == 0 then []
    else if IsSpace(s[0]) then Words(s[1..])
    else
      var n := WordLen(s);
      [s[..n]] + Words(s[n..])
  }

  /** Python's `sep.join(ws)`. */
  function Join(ws: seq<string>, sep: string): string {
    if |ws| == 0 then ""
    else if |ws| == 1 then ws[0]
    else ws[0] + sep + Join(ws[1..], sep)
  }

  /** Python's `' '.join(s.split())`. */
  function Collapse(s: string): string {
    Join(Words(s), " ")
  }

  /** The shape `' '.join(s.split())` produces: words separated by single spaces. */
  predicate Normalized(s: string) {
    && (forall i :: 0 <= i < |s| ==> IsSpace(s[i]) ==> s[i] == ' ')
    && (|s| > 0 ==> s[0] != ' ' && s[|s| - 1] != ' ')
    && (forall i :: 0 <= i < |s| - 1 ==> !(s[i] == ' ' && s[i + 1] == ' '))
  }

  lemma {:induction false} JoinStartsWithFirst(ws: seq<string>, sep: string)
    requires |ws| > 0
    ensures StartsWith(Join(ws, sep), ws[0])
  {
  }

  lemma JoinCons(w: string, ws: seq<string>, sep: string)
    requires |ws| > 0
    ensures Join([w] + ws, sep) == w + sep + Join(ws, sep)
  {
    assert ([w] + ws)[1..] == ws;
  }

  /** Joining words with single spaces gives a normalized string. */
  lemma {:induction false} JoinWordsNormalized(ws: seq<string>)
    requires forall k :: 0 <= k < |ws| ==> IsWord(ws[k])
    ensures Normalized(Join(ws, " "))
  {
    if |ws| > 1 {
      var rest := Join(ws[1..], " ");
      JoinWordsNormalized(ws[1..]);
      JoinStartsWithFirst(ws[1..], " ");
      var w := ws[0];
      var j := w + " " + rest;
      assert Join(ws, " ") == j;
      assert rest[0] == ws[1][0];
      forall i | 0 <= i < |j| - 1
        ensures !(j[i] == ' ' && j[i + 1] == ' ')
      {
        if i < |w| - 1 {
          assert j[i] == w[i];
        } else if i == |w| - 1 {
          assert j[i] == w[i];
        } else if i == |w| {
          assert j[i + 1] == rest[0];
        } else {
          assert j[i] == rest[i - |w| - 1];
          assert j[i + 1] == rest[i - |w|];
        }
      }
      forall i | 0 <= i < |j|
        ensures IsSpace(j[i]) ==> j[i] == ' '
      {
        if i < |w| {
          assert j[i] == w[i];
        } else if i > |w| {
          assert j[i] == rest[i - |w| - 1];
        }
      }
      assert j[|j| - 1] == rest[|rest| - 1];
    }
  }

  /** `' '.join(s.split())` is always normalized. */
  lemma CollapseNormalized(s: string)
    ensures Normalized(Collapse(s))
  {
    JoinWordsNormalized(Words(s));
  }

  /** A normalized string that is non-empty starts with a word. */
  lemma {:induction false} WordsOfNormalized(c: string)
    requires Normalized(c) && |c| > 0
    ensures WordLen(c) > 0
    ensures WordLen(c) == |c| || (c[WordLen(c)] == ' ' && WordLen(c) + 1 < |c|)
    ensures Words(c) == [c[..WordLen(c)]] + Words(c[WordLen(c)..])
    ensures WordLen(c) < |c| ==> Words(c[WordLen(c)..]) == Words(c[WordLen(c) + 1..])
    ensures WordLen(c) < |c| ==> Normalized(c[WordLen(c) + 1..])
  {
    var n := WordLen(c);
    if n < |c| {
      assert IsSpace(c[n]);
      assert c[n] == ' ';
      var tail := c[n..];
      assert tail[1..] == c[n + 1..];
      var rest := c[n + 1..];
      assert n + 1 < |c|;
      assert !(c[n] == ' ' && c[n + 1] == ' ');
      assert |rest| > 0 && rest[0] != ' ';
      forall i | 0 <= i < |rest| - 1
        ensures !(rest[i] == ' ' && rest[i + 1] == ' ')
      {
        assert rest[i] == c[n + 1 + i] && rest[i + 1] == c[n + 2 + i];
      }
      forall i | 0 <= i < |rest|
        ensures IsSpace(rest[i]) ==> rest[i] == ' '
      {
        assert rest[i] == c[n + 1 + i];
      }
      assert rest[|rest| - 1] == c[|c| - 1];
    }
  }

  /** Collapsing whitespace is the identity on normalized strings. */
  lemma {:induction false} CollapseOfNormalized(c: string)
    requires Normalized(c)
    ensures Collapse(c) == c
    decreases |c|
  {
    if |c| > 0 {
      WordsOfNormalized(c);
      var n := WordLen(c);
      if n == |c| {
        assert c[n..] == [] && c[..n] == c;
      } else {
        var rest := c[n + 1..];
        CollapseOfNormalized(rest);
        WordsOfNormalized(rest);
        JoinCons(c[..n], Words(rest), " ");
        SpaceSplit(c, n);
      }
    }
  }

  /** A string is its text before position `n`, the space at `n`, and its text after. */
  lemma SpaceSplit(c: string, n: nat)
    requires n < |c| && c[n] == ' '
    ensures c == c[..n] + " " + c[n + 1..]
  {
    assert c == c[..n] + c[n..n + 1] + c[n + 1..];
  }

  /** `sep.join(ws[:k])` is a prefix of `sep.join(ws)`. */
  lemma {:induction false} JoinPrefix(ws: seq<string>, sep: string, k: nat)
    requires k <= |ws|
    ensures StartsWith(Join(ws, sep), Join(ws[..k], sep))
  {
    if k == 0 {
    } else if k == 1 {
      JoinStartsWithFirst(ws, sep);
    } else {
      JoinPrefix(ws[1..], sep, k - 1);
      assert ws[..k][1..] == ws[1..][..k - 1];
    }
  }

  /** A right-stripped prefix of a normalized string is normalized. */
  lemma NormalizedPrefix(c: string, k: nat)
    requires Normalized(c) && k <= |c|
    ensures Normalized(RStrip(c[..k]))
    ensures StartsWith(c, RStrip(c[..k]))
  {
    var p := c[..k];
    var r := RStrip(p);
    assert r == c[..|r|];
    forall i | 0 <= i < |r| - 1
      ensures !(r[i] == ' ' && r[i + 1] == ' ')
    {
      assert r[i] == c[i] && r[i + 1] == c[i + 1];
    }
    forall i | 0 <= i < |r|
      ensures IsSpace(r[i]) ==> r[i] == ' '
    {
      assert r[i] == c[i];
    }
  }

  /** On a normalized string `strip()` and `rstrip()` agree. */
  lemma StripOfNormalizedPrefix(c: string, k: nat)
    requires Normalized(c) && k <= |c|
    ensures Strip(c[..k]) == RStrip(c[..k])
  {
    if k > 0 {
      assert c[..k][0] == c[0];
    }
  }

  /** Python's `s.split(sep)` for a non-empty separator: the pieces between non-overlapping occurrences, left to right. */
  function SplitOn(s: string, sep: string): (r: seq<string>)
    requires |sep| > 0
    ensures |r| > 0
    decreases |s|
  {
    match Find(s, sep)
    case None => [s]
    case Some(i) => [s[..i]] + SplitOn(s[i + |sep|..], sep)
  }

  /** Joining the pieces of a split with the same separator gives the string back. */
  lemma {:induction false} SplitOnJoin(s: string, sep: string)
    requires |sep| > 0
    ensures Join(SplitOn(s, sep), sep) == s
    decreases |s|
  {
    match Find(s, sep)
    case None =>
    case Some(i) =>
      var rest := s[i + |sep|..];
      SplitOnJoin(rest, sep);
      JoinCons(s[..i], SplitOn(rest, sep), sep);
      assert s == s[..i] + s[i..i + |sep|] + rest;
  }

  /** A split yields more than one piece exactly when the separator occurs. */
  lemma SplitOnCount(s: string, sep: string)
    requires |sep| > 0
    ensures |SplitOn(s, sep)| > 1 <==> Contains(s, sep)
  {
  }

  // ---------------------------------------------------------------------------
  // Decimal rendering (`str(n)` / f-string interpolation of an int)
  // ---------------------------------------------------------------------------

  function DigitChar(d: nat): (c: char)
    requires d < 10
    ensures IsDigit(c)
  {
    "0123456789"[d]
  }

  function DigitValue(c: char): (d: nat)
    requires IsDigit(c)
    ensures d < 10
  {
    (c as int) - ('0' as int)
  }

  /** Python's `str(n)` for a natural number. */
  function NatToString(n: nat): (r: string)
    ensures IsDigits(r)
    decreases n
  {
    if n < 10 then [DigitChar(n)] else NatToString(n / 10) + [DigitChar(n % 10)]
  }

  /** Python's `str(i)` for any integer. */
  function IntToString(i: int): (r: string)
    ensures |r| > 0
  {
    if i < 0 then "-" + NatToString(-i) else NatToString(i)
  }

  /** Python's `int(s)` on a string of ASCII digits. */
  function ParseNat(s: string): nat
    requires IsDigits(s)
    decreases |s|
  {
    if |s| == 1 then DigitValue(s[0])
    else
      assert IsDigits(s[..|s| - 1]);
      10 * ParseNat(s[..|s| - 1]) + DigitValue(s[|s| - 1])
  }

  /** Reading back a rendered number gives the number. */
  lemma {:induction false} ParseNatToString(n: nat)
    ensures ParseNat(NatToString(n)) == n
    decreases n
  {
    if n >= 10 {
      var s := NatToString(n);
      ParseNatToString(n / 10);
      assert s[..|s| - 1] == NatToString(n / 10);
    }
  }

  /** Distinct numbers render differently. */
  lemma NatToStringInjective(a: nat, b: nat)
    requires NatToString(a) == NatToString(b)
    ensures a == b
  {
    ParseNatToString(a);
    ParseNatToString(b);
  }
}

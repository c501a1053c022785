/**
 * String primitives of JavaScript that the decoders rely on: trim, startsWith,
 * endsWith, indexOf, split, and the character classes of its regular
 * expressions (\s, \d, \w and the line terminators that `.` does not match).
 */
module Text {
  import opened Wrappers

  /** White space as JavaScript's String.prototype.trim and the regex class \s see it. */
  predicate IsSpace(c: char) {
    || c == ' ' || c == '\t' || c == '\n' || c == '\r'
    || c == '\U{000B}' || c == '\U{000C}' || c == '\U{00A0}' || c == '\U{1680}'
    || ('\U{2000}' <= c <= '\U{200A}')
    || c == '\U{2028}' || c == '\U{2029}' || c == '\U{202F}' || c == '\U{205F}'
    || c == '\U{3000}' || c == '\U{FEFF}'
  }

  /** The regex class \d. */
  predicate IsDigit(c: char) {
    '0' <= c <= '9'
  }

  /** The regex class \w. */
  predicate IsWordChar(c: char) {
    ('a' <= c <= 'z') || ('A' <= c <= 'Z') || IsDigit(c) || c == '_'
  }

  /** The characters the regex `.` does not match. */
  predicate IsLineTerminator(c: char) {
    c == '\n' || c == '\r' || c == '\U{2028}' || c == '\U{2029}'
  }

  /** A text with no line break. */
  predicate NoLineBreak(v: string) {
    forall i :: 0 <= i < |v| ==> !IsLineTerminator(v[i])
  }

  predicate AllSpace(s: string) {
    forall i :: 0 <= i < |s| ==> IsSpace(s[i])
  }

  predicate AllDigits(s: string) {
    forall i :: 0 <= i < |s| ==> IsDigit(s[i])
  }

  /** Removes leading white space. */
  function TrimStart(s: string): (r: string)
    ensures |r| <= |s| && r == s[|s| - |r|..]
    ensures AllSpace(s[..|s| - |r|])
    ensures r == [] || !IsSpace(r[0])
  {
    if s != [] && IsSpace(s[0]) then TrimStart(s[1..]) else s
  }

  /** Removes trailing white space. */
  function TrimEnd(s: string): (r: string)
    ensures |r| <= |s| && r == s[..|r|]
    ensures AllSpace(s[|r|..])
    ensures r == [] || !IsSpace(r[|r| - 1])
  {
    if s != [] && IsSpace(s[|s| - 1]) then
      var init := s[..|s| - 1];
      var r := TrimEnd(init);
      assert init[..|r|] == s[..|r|];
      assert s[|r|..] == init[|r|..] + [s[|s| - 1]];
      r
    else s
  }

  /** String.prototype.trim. */
  function Trim(s: string): (r: string)
    ensures |r| <= |s|
    ensures r == [] <==> AllSpace(s)
    ensures r != [] ==> !IsSpace(r[0]) && !IsSpace(r[|r| - 1])
  {
    var t := TrimStart(s);
    assert t == [] ==> s[..|s|] == s;
    TrimEnd(t)
  }

  /** Text without white space at either end is left alone by trim. */
  lemma TrimUntouched(s: string)
    requires s != [] && !IsSpace(s[0]) && !IsSpace(s[|s| - 1])
    ensures Trim(s) == s
  {
  }

  /** A text is all white space when its first character and the rest are. */
  lemma AllSpaceFirst(a: string)
    requires a != []
    ensures AllSpace(a) <==> IsSpace(a[0]) && AllSpace(a[1..])
  {
    if IsSpace(a[0]) && AllSpace(a[1..]) {
      forall i | 1 <= i < |a| ensures IsSpace(a[i]) {
        assert a[i] == a[1..][i - 1];
      }
    }
  }

  /** A text is all white space when its last character and the rest are. */
  lemma AllSpaceLast(b: string)
    requires b != []
    ensures AllSpace(b) <==> IsSpace(b[|b| - 1]) && AllSpace(b[..|b| - 1])
  {
    if IsSpace(b[|b| - 1]) && AllSpace(b[..|b| - 1]) {
      forall i | 0 <= i < |b| - 1 ensures IsSpace(b[i]) {
        assert b[i] == b[..|b| - 1][i];
      }
    }
  }

  /** Leading white space of the first operand may run on into the second. */
  lemma {:induction false} TrimStartAppend(a: string, b: string)
    ensures TrimStart(a + b) == if AllSpace(a) then TrimStart(b) else TrimStart(a) + b
  {
    if a != [] {
      assert (a + b)[0] == a[0] && (a + b)[1..] == a[1..] + b;
      AllSpaceFirst(a);
      if IsSpace(a[0]) {
        TrimStartAppend(a[1..], b);
      }
    } else {
      assert a + b == b;
    }
  }

  /** Trailing white space of the second operand may run back into the first. */
  lemma {:induction false} TrimEndAppend(a: string, b: string)
    ensures TrimEnd(a + b) == if AllSpace(b) then TrimEnd(a) else a + TrimEnd(b)
  {
    if b != [] {
      assert (a + b)[|a + b| - 1] == b[|b| - 1] && (a + b)[..|a + b| - 1] == a + b[..|b| - 1];
      AllSpaceLast(b);
      if IsSpace(b[|b| - 1]) {
        TrimEndAppend(a, b[..|b| - 1]);
      }
    } else {
      assert a + b == a;
    }
  }

  /** `w` occurs in `s` starting at index `i`. */
  predicate OccursAt(s: string, i: nat, w: string) {
    i + |w| <= |s| && s[i..i + |w|] == w
  }

  predicate StartsWith(s: string, w: string) {
    w <= s
  }

  predicate EndsWith(s: string, w: string) {
    |w| <= |s| && s[|s| - |w|..] == w
  }

  /** String.prototype.indexOf(w, from): the leftmost occurrence at or after `from`. */
  function Find(s: string, w: string, from: nat): (r: Option<nat>)
    requires from <= |s|
    ensures r.Some? ==> from <= r.value <= |s| && OccursAt(s, r.value, w)
    ensures r.Some? ==> forall i :: from <= i < r.value ==> !OccursAt(s, i, w)
    ensures r.None? ==> forall i :: from <= i <= |s| ==> !OccursAt(s, i, w)
    decreases |s| - from
  {
    if from + |w| > |s| then None
    else if OccursAt(s, from, w) then Some(from)
    else Find(s, w, from + 1)
  }

  /** An occurrence at `k` with none between `from` and `k` is the one indexOf finds. */
  lemma FindLeftmost(s: string, w: string, from: nat, k: nat)
    requires from <= k <= |s| && OccursAt(s, k, w)
    requires forall i :: from <= i < k ==> !OccursAt(s, i, w)
    ensures Find(s, w, from) == Some(k)
  {
  }

  /** A text without some character of `w` has no occurrence of `w`. */
  lemma MissingCharNoOccurrence(s: string, w: string, j: nat, c: char)
    requires j < |w| && w[j] == c
    requires Lacks(s, c)
    ensures Find(s, w, 0).None?
  {
    forall k | 0 <= k <= |s|
      ensures !OccursAt(s, k, w)
    {
      if k + |w| <= |s| {
        assert s[k..k + |w|][j] == s[k + j];
      }
    }
  }

  /** A needle whose last character occurs nowhere else in it, such as a tag or a `Key:` label. */
  predicate LastCharUnique(w: string) {
    |w| > 0 && forall j :: 0 <= j < |w| - 1 ==> w[j] != w[|w| - 1]
  }

  /** A text in which the character `c` does not occur. */
  predicate Lacks(s: string, c: char) {
    forall i :: 0 <= i < |s| ==> s[i] != c
  }

  lemma LacksConcat(a: string, b: string, c: char)
    requires Lacks(a, c) && Lacks(b, c)
    ensures Lacks(a + b, c)
  {
    assert forall i :: |a| <= i < |a + b| ==> (a + b)[i] == b[i - |a|];
  }

  /** indexOf(w) in `pre + y`, where `y` starts with `w` and `pre` holds none: the start of `y`. */
  lemma FirstOccurrenceAt(pre: string, y: string, w: string)
    requires LastCharUnique(w) && Find(pre, w, 0).None? && OccursAt(y, 0, w)
    ensures Find(pre + y, w, 0) == Some(|pre|)
  {
    var s := pre + y;
    forall i | 0 <= i < |pre|
      ensures !OccursAt(s, i, w)
    {
      assert !OccursAt(pre, i, w);
      NoOccurrenceAcross(pre, y, w, i);
    }
    assert s[|pre|..|pre| + |w|] == y[..|w|];
    FindLeftmost(s, w, 0, |pre|);
  }

  /**
   * Joining two texts without `w` makes none when no occurrence can straddle
   * the join: `a` has no first character of `w`, or a line break, which `w`
   * lacks, sits on either side of the join.
   */
  lemma NoOccurrenceJoin(a: string, b: string, w: string)
    requires |w| > 0 && Find(a, w, 0).None? && Find(b, w, 0).None?
    requires || Lacks(a, w[0])
             || (Lacks(w, '\n') && a != [] && a[|a| - 1] == '\n')
             || (Lacks(w, '\n') && b != [] && b[0] == '\n')
    ensures Find(a + b, w, 0).None?
  {
    forall i | 0 <= i <= |a + b|
      ensures !OccursAt(a + b, i, w)
    {
      assert !OccursAt(a, i, w) && (i >= |a| ==> !OccursAt(b, i - |a|, w));
      NoOccurrenceAcross(a, b, w, i);
    }
    NoOccurrenceFound(a + b, w);
  }

  /**
   * No occurrence of `w` starts at index `i` of `a + b` when none starts
   * there in `a`, none at the matching index of `b`, and none can straddle
   * the join: `a` has no first character of `w`, a line break, which `w`
   * lacks, sits on either side of the join, or `b` starts with `w`, whose
   * last character occurs nowhere else in it.
   */
  lemma NoOccurrenceAcross(a: string, b: string, w: string, i: nat)
    requires |w| > 0
    requires i + |w| <= |a| ==> !OccursAt(a, i, w)
    requires i >= |a| ==> !OccursAt(b, i - |a|, w)
    requires || Lacks(a, w[0])
             || (Lacks(w, '\n') && a != [] && a[|a| - 1] == '\n')
             || (Lacks(w, '\n') && b != [] && b[0] == '\n')
             || (LastCharUnique(w) && OccursAt(b, 0, w))
    ensures !OccursAt(a + b, i, w)
  {
    var s := a + b;
    var n := |w|;
    if i + n <= |s| {
      if i + n <= |a| {
        assert s[i..i + n] == a[i..i + n];
      } else if i >= |a| {
        assert s[i..i + n] == b[i - |a|..i - |a| + n];
      } else if Lacks(a, w[0]) {
        assert s[i..i + n][0] == a[i];
      } else if Lacks(w, '\n') && a != [] && a[|a| - 1] == '\n' {
        assert s[i..i + n][|a| - 1 - i] == a[|a| - 1];
      } else if Lacks(w, '\n') && b != [] && b[0] == '\n' {
        assert s[i..i + n][|a| - i] == b[0];
      } else {
        var m := |a| - i;
        assert s[i..i + n][n - 1] == b[n - 1 - m] == w[n - 1 - m];
      }
    }
  }

  /** indexOf finds nothing in a text where `w` occurs at no index. */
  lemma NoOccurrenceFound(s: string, w: string)
    requires forall i :: 0 <= i <= |s| ==> !OccursAt(s, i, w)
    ensures Find(s, w, 0).None?
  {
  }

  /** A text without the first character of `w` holds no `w`. */
  lemma LacksNoOccurrence(s: string, w: string)
    requires |w| > 0 && Lacks(s, w[0])
    ensures Find(s, w, 0).None?
  {
    MissingCharNoOccurrence(s, w, 0, w[0]);
  }

  /** Regrouping a concatenation of five texts. */
  lemma Regroup5(a: string, b: string, c: string, d: string, e: string)
    ensures a + (b + c + d + e) == a + b + c + d + e
  {
  }

  /** Regrouping a concatenation of three texts. */
  lemma Regroup3(a: string, b: string, c: string)
    ensures a + b + c == a + (b + c)
  {
  }

  /** Regrouping a concatenation of four texts. */
  lemma Regroup4(a: string, b: string, c: string, d: string)
    ensures a + b + c + d == a + (b + c + d)
    ensures a + b + c + d == (a + b) + (c + d)
  {
  }

  /** A slice that lies inside `s` is unchanged by appending. */
  lemma SliceOfAppend(s: string, t: string, lo: nat, hi: nat)
    requires lo <= hi <= |s|
    ensures (s + t)[lo..hi] == s[lo..hi]
  {
  }

  /** Whether `w` occurs at `i` is unchanged by appending, as long as `w` would fit in `s` there. */
  lemma OccursAtExtend(s: string, t: string, i: nat, w: string)
    requires i + |w| <= |s|
    ensures OccursAt(s + t, i, w) == OccursAt(s, i, w)
  {
    assert (s + t)[i..i + |w|] == s[i..i + |w|];
  }

  /** An occurrence that lies wholly inside `s` is found in `s + t` exactly as in `s`. */
  lemma {:induction false} FindExtend(s: string, t: string, w: string, from: nat)
    requires from <= |s|
    requires Find(s, w, from).Some?
    ensures Find(s + t, w, from) == Find(s, w, from)
    decreases |s| - from
  {
    var k := Find(s, w, from).value;
    OccursAtExtend(s, t, from, w);
    if from < k {
      FindExtend(s, t, w, from + 1);
    }
  }

  /** Character classes of the regular expressions the source uses. */
  datatype CharClass = Space | Digit | Word | NotLineTerminator

  predicate InClass(c: char, k: CharClass) {
    match k
    case Space => IsSpace(c)
    case Digit => IsDigit(c)
    case Word => IsWordChar(c)
    case NotLineTerminator => !IsLineTerminator(c)
  }

  /** End of the longest run of `k` characters starting at `i` (a greedy `k*`). */
  function SkipRun(s: string, i: nat, k: CharClass): (r: nat)
    requires i <= |s|
    ensures i <= r <= |s|
    ensures forall j :: i <= j < r ==> InClass(s[j], k)
    ensures r == |s| || !InClass(s[r], k)
    decreases |s| - i
  {
    if i < |s| && InClass(s[i], k) then SkipRun(s, i + 1, k) else i
  }

  /** A run of `k` characters from `i` that stops at `e` is the run SkipRun takes. */
  lemma SkipRunStops(s: string, i: nat, e: nat, k: CharClass)
    requires i <= e <= |s|
    requires forall j :: i <= j < e ==> InClass(s[j], k)
    requires e == |s| || !InClass(s[e], k)
    ensures SkipRun(s, i, k) == e
  {
  }

  /** A run that ends before the end of `s` is the same run in `s + t`. */
  lemma {:induction false} SkipRunExtend(s: string, t: string, i: nat, k: CharClass)
    requires i <= |s|
    requires SkipRun(s, i, k) < |s|
    ensures SkipRun(s + t, i, k) == SkipRun(s, i, k)
    decreases |s| - i
  {
    assert (s + t)[i] == s[i];
    if InClass(s[i], k) {
      SkipRunExtend(s, t, i + 1, k);
    }
  }

  /** String.prototype.split(sep) for a non-empty separator. */
  function Split(s: string, sep: string): (r: seq<string>)
    requires |sep| > 0
    ensures |r| >= 1
    ensures Find(s, sep, 0).None? ==> r == [s]
    ensures Find(s, sep, 0).Some? ==> |r| >= 2
    decreases |s|
  {
    match Find(s, sep, 0)
    case None => [s]
    case Some(k) => [s[..k]] + Split(s[k + |sep|..], sep)
  }

  /** Array.prototype.join(sep). */
  function Join(pieces: seq<string>, sep: string): string
    decreases |pieces|
  {
    if |pieces| == 0 then ""
    else if |pieces| == 1 then pieces[0]
    else pieces[0] + sep + Join(pieces[1..], sep)
  }

  /** Splitting loses nothing: joining the pieces back gives the original text. */
  lemma {:induction false} SplitJoin(s: string, sep: string)
    requires |sep| > 0
    ensures Join(Split(s, sep), sep) == s
    decreases |s|
  {
    match Find(s, sep, 0)
    case None =>
    case Some(k) =>
      var rest := s[k + |sep|..];
      assert Split(s, sep) == [s[..k]] + Split(rest, sep);
      SplitJoin(rest, sep);
      JoinCons(s[..k], Split(rest, sep), sep);
      assert s[k..k + |sep|] == sep;
      assert s == s[..k] + s[k..k + |sep|] + rest;
  }

  /** Joining a piece in front of at least one more puts the separator between them. */
  lemma JoinCons(head: string, tail: seq<string>, sep: string)
    requires |tail| >= 1
    ensures Join([head] + tail, sep) == head + sep + Join(tail, sep)
  {
    assert ([head] + tail)[1..] == tail;
  }

  /** A slice that lies inside a prefix is the same slice of the whole text. */
  lemma SliceOfPrefix(s: string, k: nat, lo: nat, hi: nat)
    requires lo <= hi <= k <= |s|
    ensures s[..k][lo..hi] == s[lo..hi]
  {
  }

  /** The text before the first occurrence of `w` holds none. */
  lemma BeforeFirstIsFree(s: string, w: string, k: nat)
    requires |w| > 0
    requires Find(s, w, 0) == Some(k)
    ensures Find(s[..k], w, 0).None?
  {
    forall i | 0 <= i <= k
      ensures !OccursAt(s[..k], i, w)
    {
      if i + |w| <= k {
        assert !OccursAt(s, i, w);
        OccursInPrefix(s, k, i, w);
      }
    }
  }

  /** An occurrence that ends inside a prefix is an occurrence in the whole text. */
  lemma OccursInPrefix(s: string, k: nat, i: nat, w: string)
    requires i + |w| <= k <= |s|
    ensures OccursAt(s[..k], i, w) == OccursAt(s, i, w)
  {
    SliceOfPrefix(s, k, i, i + |w|);
  }

  /** No piece of a split contains the separator. */
  lemma {:induction false} SplitPiecesFree(s: string, sep: string)
    requires |sep| > 0
    ensures forall p :: p in Split(s, sep) ==> Find(p, sep, 0).None?
    decreases |s|
  {
    match Find(s, sep, 0)
    case None =>
    case Some(k) =>
      var rest := s[k + |sep|..];
      SplitPiecesFree(rest, sep);
      BeforeFirstIsFree(s, sep, k);
      assert Split(s, sep) == [s[..k]] + Split(rest, sep);
  }

  /** The digit character of a value below ten. */
  function DigitChar(d: nat): (c: char)
    requires d < 10
    ensures IsDigit(c) && c as int - '0' as int == d
  {
    ('0' as int + d) as char
  }

  /** The decimal numeral of `n`, without leading zeros. */
  function NatText(n: nat): (ds: string)
    ensures ds != [] && AllDigits(ds)
    decreases n
  {
    if n < 10 then [DigitChar(n)]
    else
      var init := NatText(n / 10);
      var ds := init + [DigitChar(n % 10)];
      assert forall i :: 0 <= i < |init| ==> ds[i] == init[i];
      ds
  }

  /** A numeral holds digits only. */
  lemma NumeralLacks(ds: string, c: char)
    requires AllDigits(ds) && !IsDigit(c)
    ensures Lacks(ds, c)
  {
  }

  /** parseInt reads back the numeral of `n`. */
  lemma {:induction false} NatTextValue(n: nat)
    ensures DigitsValue(NatText(n)) == n
    decreases n
  {
    if n >= 10 {
      NatTextValue(n / 10);
      var ds := NatText(n);
      assert ds[..|ds| - 1] == NatText(n / 10);
    }
  }

  /** The decimal value of a string of ASCII digits, as parseInt reads it. */
  function DigitsValue(ds: string): nat
    requires AllDigits(ds)
    decreases |ds|
  {
    if ds == [] then 0
    else DigitsValue(ds[..|ds| - 1]) * 10 + (ds[|ds| - 1] as int - '0' as int)
  }
}

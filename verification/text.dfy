/** String helpers shared by the classifier and the join planner: ASCII digits
    and case folding, substring tests, and the Python regular-expression
    notion of "end of string" (`$` also matches just before a final line feed). */
module Text {

  /** Option type used for "no match" / "not a multipart file". */
  datatype Option<+T> = None | Some(value: T)

  predicate IsDigit(c: char) { '0' <= c <= '9' }

  /** Character classes whose trailing runs the matchers measure. */
  datatype CharClass = Digit | NonDot | NonSlash

  predicate InClass(c: char, cls: CharClass) {
    match cls
    case Digit => IsDigit(c)
    case NonDot => c != '.'
    case NonSlash => c != '/'
  }

  predicate AllDigits(s: string) {
    forall i :: 0 <= i < |s| ==> IsDigit(s[i])
  }

  predicate NoNewline(s: string) {
    forall i :: 0 <= i < |s| ==> s[i] != '\n'
  }

  /** Decimal value of a digit string, as Python's `int()` computes it
      (leading zeros allowed: "001" is 1). */
  function DigitsValue(s: string): nat
    requires AllDigits(s)
  {
    if |s| == 0 then 0 else DigitsValue(s[..|s| - 1]) * 10 + (s[|s| - 1] as int - '0' as int)
  }

  /** ASCII lower-casing of one character. */
  function LowerChar(c: char): char {
    if 'A' <= c <= 'Z' then (c as int + 32) as char else c
  }

  /** `str.lower()` restricted to ASCII letters. */
  function Lower(s: string): (r: string)
    ensures |r| == |s|
    ensures forall i :: 0 <= i < |s| ==> r[i] == LowerChar(s[i])
  {
    seq(|s|, i requires 0 <= i < |s| => LowerChar(s[i]))
  }

  predicate StartsWith(s: string, p: string) {
    |p| <= |s| && s[..|p|] == p
  }

  predicate EndsWith(s: string, p: string) {
    |p| <= |s| && s[|s| - |p|..] == p
  }

  /** Python's `t in s` for strings. */
  predicate Contains(s: string, t: string)
    decreases |s|
  {
    StartsWith(s, t) || (|s| > 0 && Contains(s[1..], t))
  }

  /** The part of `s` a Python `$` anchor sees as "the end": `s` without one
      final line feed. */
  function Line(s: string): (l: string)
    ensures l == s || (l + "\n" == s)
  {
    if |s| > 0 && s[|s| - 1] == '\n' then s[..|s| - 1] else s
  }

  /** Length of the longest suffix of `s` whose characters are all in
      class `cls`. */
  function TrailingRun(s: string, cls: CharClass): (k: nat)
    ensures k <= |s|
  {
    if |s| > 0 && InClass(s[|s| - 1], cls) then 1 + TrailingRun(s[..|s| - 1], cls) else 0
  }

  /** Length of the longest prefix of `s` made of digits (a greedy `\d+`). */
  function LeadingDigits(s: string): (k: nat)
    ensures k <= |s|
    ensures AllDigits(s[..k])
    ensures k < |s| ==> !IsDigit(s[k])
  {
    if |s| > 0 && IsDigit(s[0]) then 1 + LeadingDigits(s[1..]) else 0
  }

  // ---------------------------------------------------------------------
  // Lemmas

  /** The run is made of `cls` characters and cannot be extended. */
  lemma {:induction false} TrailingRunIsMaximal(s: string, cls: CharClass)
    ensures forall i :: |s| - TrailingRun(s, cls) <= i < |s| ==> InClass(s[i], cls)
    ensures TrailingRun(s, cls) < |s| ==> !InClass(s[|s| - TrailingRun(s, cls) - 1], cls)
  {
    if |s| > 0 && InClass(s[|s| - 1], cls) {
      var s' := s[..|s| - 1];
      TrailingRunIsMaximal(s', cls);
      assert forall i :: 0 <= i < |s'| ==> s'[i] == s[i];
    }
  }

  /** A run that ends at a character outside the run has exactly the length
      of the appended block. */
  lemma TrailingRunOfAppend(x: string, y: string, cls: CharClass)
    requires forall i :: 0 <= i < |y| ==> InClass(y[i], cls)
    requires |x| > 0 ==> !InClass(x[|x| - 1], cls)
    ensures TrailingRun(x + y, cls) == |y|
  {
    var s := x + y;
    TrailingRunIsMaximal(s, cls);
    assert forall i :: |x| <= i < |s| ==> s[i] == y[i - |x|];
    assert |x| > 0 ==> s[|x| - 1] == x[|x| - 1];
  }

  /** A run that starts at `k`, after a character outside the class, is
      the whole trailing run. */
  lemma TrailingRunAt(s: string, k: nat, cls: CharClass)
    requires k <= |s|
    requires forall i :: k <= i < |s| ==> InClass(s[i], cls)
    requires k > 0 ==> !InClass(s[k - 1], cls)
    ensures TrailingRun(s, cls) == |s| - k
  {
    TrailingRunOfAppend(s[..k], s[k..], cls);
    assert s[..k] + s[k..] == s;
  }

  lemma LowerAppend(a: string, b: string)
    ensures Lower(a + b) == Lower(a) + Lower(b)
  {
  }

  lemma LowerOfDigits(d: string)
    requires AllDigits(d)
    ensures Lower(d) == d
  {
  }

  lemma LowerIsIdempotent(s: string)
    ensures Lower(Lower(s)) == Lower(s)
  {
  }

  /** `c` does not occur in `t` except possibly at index 0. */
  predicate LeadsOnly(t: string, c: char) {
    forall i :: 0 < i < |t| ==> t[i] != c
  }

  /** A needle whose first character occurs nowhere else in it cannot straddle
      a boundary at which that character starts the right-hand side. */
  lemma {:induction false} ContainsSplit(x: string, y: string, t: string)
    requires |t| > 0 && LeadsOnly(t, t[0])
    requires |y| > 0 && y[0] == t[0]
    ensures Contains(x + y, t) <==> Contains(x, t) || Contains(y, t)
    decreases |x|
  {
    if |x| == 0 {
      assert x + y == y;
    } else {
      assert (x + y)[1..] == x[1..] + y;
      ContainsSplit(x[1..], y, t);
      assert |t| <= |x| ==> (x + y)[..|t|] == x[..|t|];
      assert |x| < |t| <= |x + y| ==> (x + y)[..|t|][|x|] == y[0];
    }
  }

  /** A needle's first character must occur in the haystack. */
  lemma {:induction false} ContainsNeedsFirstChar(s: string, t: string)
    requires |t| > 0
    requires forall i :: 0 <= i < |s| ==> s[i] != t[0]
    ensures !Contains(s, t)
    decreases |s|
  {
    if |s| > 0 {
      assert s[0] != t[0];
      ContainsNeedsFirstChar(s[1..], t);
    }
  }

  /** A longer needle that contains `u` as its prefix can only occur where `u`
      occurs. */
  lemma {:induction false} ContainsPrefixNeedle(s: string, t: string, u: string)
    requires StartsWith(t, u)
    ensures Contains(s, t) ==> Contains(s, u)
    decreases |s|
  {
    if |s| > 0 {
      ContainsPrefixNeedle(s[1..], t, u);
    }
    if StartsWith(s, t) {
      assert s[..|u|] == s[..|t|][..|u|];
    }
  }

  lemma StartsWithAt(s: string, t: string, i: nat)
    requires i < |t|
    ensures StartsWith(s, t) ==> i < |s| && s[i] == t[i]
  {
    if StartsWith(s, t) {
      assert s[..|t|][i] == s[i];
    }
  }

  lemma EndsWithAt(s: string, t: string, i: nat)
    requires i < |t|
    ensures EndsWith(s, t) ==> |t| <= |s| && s[|s| - |t| + i] == t[i]
  {
    if EndsWith(s, t) {
      assert s[|s| - |t|..][i] == s[|s| - |t| + i];
    }
  }

  lemma Regroup(a: string, b: string, c: string, d: string, e: string)
    ensures a + b + c + d + e == a + (b + c + d + e)
    ensures a + b + c + d == a + (b + c + d)
  {
  }

  lemma StartsWithByChars(s: string, t: string)
    requires |t| <= |s| && forall i :: 0 <= i < |t| ==> s[i] == t[i]
    ensures StartsWith(s, t)
  {
    assert s[..|t|] == t;
  }

  predicate NoDot(w: string) {
    forall i :: 0 <= i < |w| ==> w[i] != '.'
  }

  /** In "." + w with a dot-free w, a needle that starts with a dot can only
      occur at the front. */
  lemma ContainsDotWord(w: string, t: string)
    requires NoDot(w)
    requires |t| > 0 && t[0] == '.'
    ensures Contains("." + w, t) <==> StartsWith("." + w, t)
  {
    assert ("." + w)[1..] == w;
    ContainsNeedsFirstChar(w, t);
  }

  /** A dot-led needle occurs in x.w1 exactly when it occurs in x or at the
      front of ".w1". */
  lemma ContainsOneWord(x: string, w1: string, t: string)
    requires NoDot(w1)
    requires |t| > 0 && t[0] == '.' && LeadsOnly(t, '.')
    ensures Contains(x + "." + w1, t) <==> Contains(x, t) || StartsWith("." + w1, t)
  {
    assert x + "." + w1 == x + ("." + w1);
    ContainsSplit(x, "." + w1, t);
    ContainsDotWord(w1, t);
  }

  /** A dot-led needle occurs in x.w1.w2 exactly when it occurs in x or at
      the front of ".w1" or ".w2". */
  lemma ContainsTwoWords(x: string, w1: string, w2: string, t: string)
    requires NoDot(w1) && NoDot(w2)
    requires |t| > 0 && t[0] == '.' && LeadsOnly(t, '.')
    ensures Contains(x + "." + w1 + "." + w2, t) <==>
              Contains(x, t) || StartsWith("." + w1, t) || StartsWith("." + w2, t)
  {
    ContainsOneWord(x + "." + w1, w2, t);
    ContainsOneWord(x, w1, t);
  }

  /** A greedy `\d+` stops at the first non-digit. */
  lemma LeadingDigitsOfAppend(d: string, rest: string)
    requires AllDigits(d)
    requires |rest| > 0 ==> !IsDigit(rest[0])
    ensures LeadingDigits(d + rest) == |d|
    decreases |d|
  {
    if |d| > 0 {
      assert (d + rest)[1..] == d[1..] + rest;
      LeadingDigitsOfAppend(d[1..], rest);
    } else {
      assert d + rest == rest;
    }
  }

  lemma DigitsValueOne()
    ensures DigitsValue("001") == 1 && DigitsValue("01") == 1 && DigitsValue("1") == 1
  {
    assert "001"[..2] == "00" && "00"[..1] == "0" && "0"[..0] == "";
    assert "01"[..1] == "0" && "1"[..0] == "";
  }
}

/** The four multipart naming conventions, tried in this order:

      1. `^(.+)\.(?:zip|rar|7z|tar|gz|bz2)\.\d+$`   e.g. file.zip.001
      2. `^(.+)\.part\d+\.(?:rar|zip)$`             e.g. file.part1.rar
      3. `^(.+)\.z\d+$`                              e.g. file.z01
      4. `^(.+)\.\d{3}$`                             e.g. file.001

    Each pattern is a greedy `(.+)` capture followed by a fixed "tail"
    language. `Tail` states the tail languages, `CapturesAt` the meaning of
    the whole regular expression under Python's `re.match` (no flags: `.`
    excludes a line feed, `$` also matches before a final line feed), and
    `Match` is the executable matcher proved equal to the greedy capture. */
module Patterns {
  import opened Text

  datatype Pattern = SplitExt | PartVolume | ZVolume | ThreeDigits

  /** The pattern list in priority order. */
  const Ordered: seq<Pattern> := [SplitExt, PartVolume, ZVolume, ThreeDigits]

  const SplitExts: seq<string> := ["zip", "rar", "7z", "tar", "gz", "bz2"]

  /** `t` is "." + e + "." + one or more digits. */
  predicate ExtDotDigits(t: string, e: string) {
    |t| > |e| + 2 && t[..|e| + 2] == "." + e + "." && AllDigits(t[|e| + 2..])
  }

  /** The language of what follows the `(.+)` group, up to `$`. */
  predicate Tail(p: Pattern, t: string) {
    match p
    case SplitExt =>
      || ExtDotDigits(t, "zip") || ExtDotDigits(t, "rar") || ExtDotDigits(t, "7z")
      || ExtDotDigits(t, "tar") || ExtDotDigits(t, "gz") || ExtDotDigits(t, "bz2")
    case PartVolume =>
      && |t| >= 10 && t[..5] == ".part"
      && (t[|t| - 4..] == ".rar" || t[|t| - 4..] == ".zip")
      && AllDigits(t[5..|t| - 4])
    case ZVolume =>
      |t| >= 3 && t[..2] == ".z" && AllDigits(t[2..])
    case ThreeDigits =>
      |t| == 4 && t[0] == '.' && AllDigits(t[1..])
  }

  /** `re.match` of pattern `p` succeeds on `s` with a group of length `n`:
      the group is non-empty and free of line feeds, and the tail reaches a
      place where `$` matches (the end, or just before a final line feed). */
  predicate CapturesAt(p: Pattern, s: string, n: int) {
    && 1 <= n <= |s|
    && NoNewline(s[..n])
    && (|| Tail(p, s[n..])
        || (s[|s| - 1] == '\n' && n <= |s| - 1 && Tail(p, s[n..|s| - 1])))
  }

  /** Pattern 1 on the anchored line `l`: the digits run to the end and a
      dot precedes them. */
  function SplitExtBase(l: string): (r: Option<string>)
    ensures r.Some? ==> 1 <= |r.value| < |l|
  {
    var m := |l| - TrailingRun(l, Digit);
    if m < |l| && m >= 1 && l[m - 1] == '.' then SplitExtHead(l[..m - 1]) else None
  }

  /** The rest of pattern 1 on what precedes the final dot: the dot-free
      word at its end is one of the split extensions, and a dot precedes
      it. */
  function SplitExtHead(h: string): (r: Option<string>)
    ensures r.Some? ==> 1 <= |r.value| < |h|
  {
    var j := |h| - TrailingRun(h, NonDot);
    if j >= 2 && h[j - 1] == '.' && h[j..] in SplitExts && NoNewline(h[..j - 1])
    then Some(h[..j - 1]) else None
  }

  /** Pattern 2 on the anchored line `l`. */
  function PartVolumeBase(l: string): (r: Option<string>)
    ensures r.Some? ==> 1 <= |r.value| < |l|
  {
    if |l| >= 4 && (l[|l| - 4..] == ".rar" || l[|l| - 4..] == ".zip") then
      var h := l[..|l| - 4];
      var m := |h| - TrailingRun(h, Digit);
      if m < |h| && m >= 6 && h[m - 5..m] == ".part" && NoNewline(h[..m - 5])
      then Some(h[..m - 5]) else None
    else None
  }

  /** Pattern 3 on the anchored line `l`. */
  function ZVolumeBase(l: string): (r: Option<string>)
    ensures r.Some? ==> 1 <= |r.value| < |l|
  {
    var m := |l| - TrailingRun(l, Digit);
    if m < |l| && m >= 3 && l[m - 2..m] == ".z" && NoNewline(l[..m - 2])
    then Some(l[..m - 2]) else None
  }

  /** Pattern 4 on the anchored line `l`. */
  function ThreeDigitBase(l: string): (r: Option<string>)
    ensures r.Some? ==> 1 <= |r.value| < |l|
  {
    if |l| >= 5 && l[|l| - 4] == '.' && AllDigits(l[|l| - 3..]) && NoNewline(l[..|l| - 4])
    then Some(l[..|l| - 4]) else None
  }

  /** Executable matcher: the captured base, or None. */
  function Match(p: Pattern, s: string): (r: Option<string>)
    ensures r.Some? ==> 1 <= |r.value| < |s|
  {
    var l := Line(s);
    match p
    case SplitExt => SplitExtBase(l)
    case PartVolume => PartVolumeBase(l)
    case ZVolume => ZVolumeBase(l)
    case ThreeDigits => ThreeDigitBase(l)
  }

  /** The first pattern, in list order, that matches. */
  function FirstMatch(ps: seq<Pattern>, s: string): (r: Option<string>)
    ensures r.Some? ==> 1 <= |r.value| < |s|
  {
    if |ps| == 0 then None
    else match Match(ps[0], s)
      case Some(b) => Some(b)
      case None => FirstMatch(ps[1..], s)
  }

  // ---------------------------------------------------------------------
  // The matcher is the greedy capture

  lemma ExtDotDigitsLastChar(t: string, e: string)
    requires ExtDotDigits(t, e)
    ensures IsDigit(t[|t| - 1])
  {
    assert t[|t| - 1] == t[|e| + 2..][|t| - |e| - 3];
  }

  /** Every tail ends in a digit or in "r"/"p" (of ".rar"/".zip"), never in a
      line feed. */
  lemma TailLastChar(p: Pattern, t: string)
    requires Tail(p, t)
    ensures |t| > 0 && (IsDigit(t[|t| - 1]) || t[|t| - 1] == 'r' || t[|t| - 1] == 'p')
  {
    match p
    case SplitExt =>
      if ExtDotDigits(t, "zip") { ExtDotDigitsLastChar(t, "zip"); }
      else if ExtDotDigits(t, "rar") { ExtDotDigitsLastChar(t, "rar"); }
      else if ExtDotDigits(t, "7z") { ExtDotDigitsLastChar(t, "7z"); }
      else if ExtDotDigits(t, "tar") { ExtDotDigitsLastChar(t, "tar"); }
      else if ExtDotDigits(t, "gz") { ExtDotDigitsLastChar(t, "gz"); }
      else { ExtDotDigitsLastChar(t, "bz2"); }
    case PartVolume =>
      assert t[|t| - 1] == t[|t| - 4..][3];
    case ZVolume =>
      assert t[|t| - 1] == t[2..][|t| - 3];
    case ThreeDigits =>
      assert t[3] == t[1..][2];
  }

  /** `$` after a tail can only be taken at the end of `Line(s)`. */
  /** No tail is empty or ends in a line feed. */
  lemma NoTailEndsInNewline(p: Pattern, t: string)
    requires |t| == 0 || t[|t| - 1] == '\n'
    ensures !Tail(p, t)
  {
    if Tail(p, t) {
      TailLastChar(p, t);
    }
  }

  lemma CapturesOnLine(p: Pattern, s: string, n: int)
    ensures CapturesAt(p, s, n) <==>
              1 <= n <= |Line(s)| && NoNewline(Line(s)[..n]) && Tail(p, Line(s)[n..])
  {
    var l := Line(s);
    if |s| > 0 && s[|s| - 1] == '\n' {
      if 1 <= n <= |s| {
        NoTailEndsInNewline(p, s[n..]);
      }
      if 1 <= n <= |l| {
        assert l[..n] == s[..n];
        assert s[n..|s| - 1] == l[n..];
      }
    }
  }

  /** Lifts a capture found on `Line(s)` to the regular expression on `s`. */
  lemma CaptureFromLine(p: Pattern, s: string, b: string)
    requires 1 <= |b| <= |Line(s)| && b == Line(s)[..|b|]
    requires NoNewline(b) && Tail(p, Line(s)[|b|..])
    ensures b == s[..|b|] && CapturesAt(p, s, |b|)
  {
    assert Line(s)[..|b|] == s[..|b|];
    CapturesOnLine(p, s, |b|);
  }

  lemma SplitExtHeadSound(h: string)
    requires SplitExtHead(h).Some?
    ensures var b := SplitExtHead(h).value;
      && b == h[..|b|] && NoNewline(b) && h[|b|] == '.'
      && h[|b| + 1..] in SplitExts
  {
  }

  /** The pieces of a pattern 1 tail, read off the line. */
  lemma ExtDotDigitsAt(l: string, n: int, e: string)
    requires 0 <= n && n + |e| + 2 < |l|
    requires l[n] == '.' && l[n + 1..n + |e| + 1] == e && l[n + |e| + 1] == '.'
    requires AllDigits(l[n + |e| + 2..])
    ensures ExtDotDigits(l[n..], e)
  {
    var t := l[n..];
    assert t[..|e| + 2] == [l[n]] + l[n + 1..n + |e| + 1] + [l[n + |e| + 1]];
    assert t[|e| + 2..] == l[n + |e| + 2..];
  }

  lemma SplitExtTail(t: string, e: string)
    requires e in SplitExts && ExtDotDigits(t, e)
    ensures Tail(SplitExt, t)
  {
  }

  lemma SplitExtBaseSound(l: string)
    requires SplitExtBase(l).Some?
    ensures var b := SplitExtBase(l).value;
      b == l[..|b|] && NoNewline(b) && Tail(SplitExt, l[|b|..])
  {
    var m := |l| - TrailingRun(l, Digit);
    TrailingRunIsMaximal(l, Digit);
    assert AllDigits(l[m..]);
    var h := l[..m - 1];
    SplitExtHeadSound(h);
    var n := |SplitExtHead(h).value|;
    var e := h[n + 1..];
    assert l[n + 1..m - 1] == e;
    ExtDotDigitsAt(l, n, e);
    SplitExtTail(l[n..], e);
    assert h[..n] == l[..n];
  }

  lemma PartVolumeBaseSound(l: string)
    requires PartVolumeBase(l).Some?
    ensures var b := PartVolumeBase(l).value;
      b == l[..|b|] && NoNewline(b) && Tail(PartVolume, l[|b|..])
  {
    var h := l[..|l| - 4];
    var m := |h| - TrailingRun(h, Digit);
    TrailingRunIsMaximal(h, Digit);
    var n := m - 5;
    var t := l[n..];
    assert t[..5] == l[n..m];
    assert h[m - 5..m] == l[n..m];
    assert t[|t| - 4..] == l[|l| - 4..];
    assert t[5..|t| - 4] == h[m..];
    assert forall i :: 0 <= i < |h[m..]| ==> h[m..][i] == h[m + i];
    assert h[..m - 5] == l[..n];
  }

  lemma ZVolumeBaseSound(l: string)
    requires ZVolumeBase(l).Some?
    ensures var b := ZVolumeBase(l).value;
      b == l[..|b|] && NoNewline(b) && Tail(ZVolume, l[|b|..])
  {
    var m := |l| - TrailingRun(l, Digit);
    TrailingRunIsMaximal(l, Digit);
    var n := m - 2;
    var t := l[n..];
    assert t[..2] == l[m - 2..m];
    assert t[2..] == l[m..];
    assert forall i :: 0 <= i < |l[m..]| ==> l[m..][i] == l[m + i];
  }

  lemma ThreeDigitBaseSound(l: string)
    requires ThreeDigitBase(l).Some?
    ensures var b := ThreeDigitBase(l).value;
      b == l[..|b|] && NoNewline(b) && Tail(ThreeDigits, l[|b|..])
  {
    var n := |l| - 4;
    assert l[n..][1..] == l[|l| - 3..];
  }

  /** Whatever the matcher returns is a capture of the regular expression. */
  lemma MatchSound(p: Pattern, s: string)
    requires Match(p, s).Some?
    ensures var b := Match(p, s).value;
      b == s[..|b|] && CapturesAt(p, s, |b|)
  {
    var l := Line(s);
    match p
    case SplitExt => SplitExtBaseSound(l); CaptureFromLine(p, s, SplitExtBase(l).value);
    case PartVolume => PartVolumeBaseSound(l); CaptureFromLine(p, s, PartVolumeBase(l).value);
    case ZVolume => ZVolumeBaseSound(l); CaptureFromLine(p, s, ZVolumeBase(l).value);
    case ThreeDigits => ThreeDigitBaseSound(l); CaptureFromLine(p, s, ThreeDigitBase(l).value);
  }

  lemma SplitExtHeadAt(h: string, n: nat, e: string)
    requires e in SplitExts
    requires 1 <= n && n + 1 + |e| == |h| && h[n] == '.' && h[n + 1..] == e && NoNewline(h[..n])
    ensures SplitExtHead(h) == Some(h[..n])
  {
    assert forall i :: n + 1 <= i < |h| ==> h[i] == e[i - n - 1];
    TrailingRunAt(h, n + 1, NonDot);
  }

  /** The pieces of a pattern 1 tail that starts at `n`. */
  lemma ExtDotDigitsParts(l: string, n: nat, e: string)
    requires n <= |l| && ExtDotDigits(l[n..], e)
    ensures n + |e| + 2 < |l|
    ensures l[n] == '.' && l[n + 1..n + |e| + 1] == e && l[n + |e| + 1] == '.'
    ensures AllDigits(l[n + |e| + 2..])
  {
    var t := l[n..];
    assert t[..|e| + 2] == "." + e + ".";
    assert l[n + 1..n + |e| + 1] == t[..|e| + 2][1..|e| + 1];
    assert t[|e| + 2..] == l[n + |e| + 2..];
  }

  lemma SplitExtBaseComplete(l: string, n: int, e: string)
    requires e in SplitExts
    requires 1 <= n <= |l| && NoNewline(l[..n]) && ExtDotDigits(l[n..], e)
    ensures SplitExtBase(l) == Some(l[..n])
  {
    ExtDotDigitsParts(l, n, e);
    var m := n + |e| + 2;
    assert forall i :: m <= i < |l| ==> l[i] == l[m..][i - m];
    TrailingRunAt(l, m, Digit);
    var h := l[..m - 1];
    assert h[n + 1..] == l[n + 1..n + |e| + 1];
    assert h[..n] == l[..n];
    SplitExtHeadAt(h, n, e);
  }

  lemma MatchCompleteSplitExt(s: string, n: int, e: string)
    requires e in SplitExts
    requires 1 <= n <= |Line(s)| && NoNewline(Line(s)[..n]) && ExtDotDigits(Line(s)[n..], e)
    ensures Match(SplitExt, s) == Some(s[..n])
  {
    SplitExtBaseComplete(Line(s), n, e);
    assert Line(s)[..n] == s[..n];
  }

  lemma PartVolumeBaseComplete(l: string, n: int)
    requires 1 <= n <= |l| && NoNewline(l[..n]) && Tail(PartVolume, l[n..])
    ensures PartVolumeBase(l) == Some(l[..n])
  {
    var t := l[n..];
    var h := l[..|l| - 4];
    var d := t[5..|t| - 4];
    var x := l[..n + 5];
    assert l[|l| - 4..] == t[|t| - 4..];
    assert h == x + d;
    assert x[|x| - 1] == t[4] == 't';
    TrailingRunOfAppend(x, d, Digit);
    assert h[n..n + 5] == t[..5];
    assert h[..n] == l[..n];
  }

  lemma MatchCompletePartVolume(s: string, n: int)
    requires 1 <= n <= |Line(s)| && NoNewline(Line(s)[..n]) && Tail(PartVolume, Line(s)[n..])
    ensures Match(PartVolume, s) == Some(s[..n])
  {
    PartVolumeBaseComplete(Line(s), n);
    assert Line(s)[..n] == s[..n];
  }

  lemma ZVolumeBaseComplete(l: string, n: int)
    requires 1 <= n <= |l| && NoNewline(l[..n]) && Tail(ZVolume, l[n..])
    ensures ZVolumeBase(l) == Some(l[..n])
  {
    var t := l[n..];
    var d := t[2..];
    var x := l[..n + 2];
    assert l == x + d;
    assert x[|x| - 1] == t[1] == 'z';
    TrailingRunOfAppend(x, d, Digit);
    assert l[n..n + 2] == t[..2];
  }

  lemma MatchCompleteZVolume(s: string, n: int)
    requires 1 <= n <= |Line(s)| && NoNewline(Line(s)[..n]) && Tail(ZVolume, Line(s)[n..])
    ensures Match(ZVolume, s) == Some(s[..n])
  {
    ZVolumeBaseComplete(Line(s), n);
    assert Line(s)[..n] == s[..n];
  }

  lemma MatchCompleteThreeDigits(s: string, n: int)
    requires 1 <= n <= |Line(s)| && NoNewline(Line(s)[..n]) && Tail(ThreeDigits, Line(s)[n..])
    ensures Match(ThreeDigits, s) == Some(s[..n])
  {
    var l := Line(s);
    assert l[|l| - 3..] == l[n..][1..];
    assert l[..n] == s[..n];
  }

  /** Every capture of the regular expression is the one the matcher
      returns; in particular a pattern captures at most one base, so the
      greedy `(.+)` and the matcher agree. */
  lemma MatchComplete(p: Pattern, s: string, n: int)
    requires CapturesAt(p, s, n)
    ensures Match(p, s) == Some(s[..n])
  {
    CapturesOnLine(p, s, n);
    var t := Line(s)[n..];
    match p
    case SplitExt =>
      if ExtDotDigits(t, "zip") { MatchCompleteSplitExt(s, n, "zip"); }
      else if ExtDotDigits(t, "rar") { MatchCompleteSplitExt(s, n, "rar"); }
      else if ExtDotDigits(t, "7z") { MatchCompleteSplitExt(s, n, "7z"); }
      else if ExtDotDigits(t, "tar") { MatchCompleteSplitExt(s, n, "tar"); }
      else if ExtDotDigits(t, "gz") { MatchCompleteSplitExt(s, n, "gz"); }
      else { MatchCompleteSplitExt(s, n, "bz2"); }
    case PartVolume => MatchCompletePartVolume(s, n);
    case ZVolume => MatchCompleteZVolume(s, n);
    case ThreeDigits => MatchCompleteThreeDigits(s, n);
  }

  /** A base free of line feeds followed by a tail of pattern `p` is
      matched with that base. */
  lemma MatchOfTail(p: Pattern, b: string, t: string)
    requires |b| > 0 && NoNewline(b) && Tail(p, t)
    ensures Match(p, b + t) == Some(b)
  {
    var s := b + t;
    assert s[..|b|] == b && s[|b|..] == t;
    MatchComplete(p, s, |b|);
  }

  /** The base a pattern captures is unique, hence the longest: greedy
      backtracking of `(.+)` has no other choice to make. */
  lemma CaptureIsUnique(p: Pattern, s: string, n: int, n': int)
    requires CapturesAt(p, s, n) && CapturesAt(p, s, n')
    ensures n == n'
  {
    MatchComplete(p, s, n);
    MatchComplete(p, s, n');
  }

  // ---------------------------------------------------------------------
  // First match in priority order

  /** Pattern `Ordered[i]` is the first in the list to match `s`, and its
      group has length `n`. */
  ghost predicate FirstCapture(s: string, i: int, n: int) {
    && 0 <= i < |Ordered|
    && CapturesAt(Ordered[i], s, n)
    && forall j, m :: 0 <= j < i ==> !CapturesAt(Ordered[j], s, m)
  }

  lemma {:induction false} FirstMatchIndex(ps: seq<Pattern>, s: string)
    ensures FirstMatch(ps, s).Some? ==>
      exists i :: 0 <= i < |ps| && Match(ps[i], s) == FirstMatch(ps, s)
                 && forall j :: 0 <= j < i ==> Match(ps[j], s).None?
    ensures FirstMatch(ps, s).None? ==> forall j :: 0 <= j < |ps| ==> Match(ps[j], s).None?
  {
    if |ps| > 0 {
      FirstMatchIndex(ps[1..], s);
      if Match(ps[0], s).None? && FirstMatch(ps, s).Some? {
        var i :| 0 <= i < |ps[1..]| && Match(ps[1..][i], s) == FirstMatch(ps[1..], s)
                 && forall j :: 0 <= j < i ==> Match(ps[1..][j], s).None?;
        assert Match(ps[i + 1], s) == FirstMatch(ps, s);
        assert forall j :: 1 <= j < i + 1 ==> Match(ps[j], s) == Match(ps[1..][j - 1], s);
      }
      if FirstMatch(ps, s).None? {
        assert forall j :: 1 <= j < |ps| ==> Match(ps[j], s) == Match(ps[1..][j - 1], s);
      }
    }
  }

  /** The base the classifier takes is the group of the first pattern in
      list order whose regular expression matches; no pattern matches
      exactly when there is no base. */
  lemma FirstMatchIsFirstCapture(s: string)
    ensures forall i, n :: FirstCapture(s, i, n) ==> FirstMatch(Ordered, s) == Some(s[..n])
    ensures FirstMatch(Ordered, s).Some? ==>
      var b := FirstMatch(Ordered, s).value;
      b == s[..|b|] && exists i :: FirstCapture(s, i, |b|)
    ensures FirstMatch(Ordered, s).None? <==> forall i, n :: 0 <= i < |Ordered| ==> !CapturesAt(Ordered[i], s, n)
  {
    FirstMatchIndex(Ordered, s);
    forall i, n | FirstCapture(s, i, n)
      ensures FirstMatch(Ordered, s) == Some(s[..n])
    {
      MatchComplete(Ordered[i], s, n);
      forall j | 0 <= j < i ensures Match(Ordered[j], s).None? {
        if Match(Ordered[j], s).Some? {
          MatchSound(Ordered[j], s);
        }
      }
      assert Ordered[1..][1..][1..] == [ThreeDigits];
    }
    if FirstMatch(Ordered, s).Some? {
      var b := FirstMatch(Ordered, s).value;
      var i :| 0 <= i < |Ordered| && Match(Ordered[i], s) == FirstMatch(Ordered, s)
               && forall j :: 0 <= j < i ==> Match(Ordered[j], s).None?;
      MatchSound(Ordered[i], s);
      forall j, m | 0 <= j < i ensures !CapturesAt(Ordered[j], s, m) {
        if CapturesAt(Ordered[j], s, m) {
          MatchComplete(Ordered[j], s, m);
        }
      }
      assert FirstCapture(s, i, |b|);
    }
    forall i, n | 0 <= i < |Ordered| && CapturesAt(Ordered[i], s, n)
      ensures FirstMatch(Ordered, s).Some?
    {
      MatchComplete(Ordered[i], s, n);
    }
  }

  /** The first match is a prefix of the name. */
  lemma FirstMatchIsPrefix(s: string)
    ensures FirstMatch(Ordered, s).Some? ==>
      FirstMatch(Ordered, s).value == s[..|FirstMatch(Ordered, s).value|]
  {
    FirstMatchIsFirstCapture(s);
  }

  /** When the patterns before position `k` fail and pattern `k` matches, the
      first match is pattern `k`'s. */
  lemma {:induction false} FirstMatchAt(ps: seq<Pattern>, s: string, k: nat)
    requires k < |ps| && Match(ps[k], s).Some?
    requires forall j :: 0 <= j < k ==> Match(ps[j], s).None?
    ensures FirstMatch(ps, s) == Match(ps[k], s)
    decreases k
  {
    if k > 0 {
      assert forall j :: 0 <= j < k - 1 ==> ps[1..][j] == ps[j + 1];
      FirstMatchAt(ps[1..], s, k - 1);
    }
  }

  /** The four patterns tried in order. */
  lemma FirstMatchInOrder(s: string)
    ensures FirstMatch(Ordered, s) ==
      if Match(SplitExt, s).Some? then Match(SplitExt, s)
      else if Match(PartVolume, s).Some? then Match(PartVolume, s)
      else if Match(ZVolume, s).Some? then Match(ZVolume, s)
      else Match(ThreeDigits, s)
  {
    var p1, p2, p3 := Ordered[1..], Ordered[2..], Ordered[3..];
    assert p1[1..] == p2 && p2[1..] == p3 && p3[1..] == [];
    assert FirstMatch(Ordered, s) == if Match(SplitExt, s).Some? then Match(SplitExt, s) else FirstMatch(p1, s);
    assert FirstMatch(p1, s) == if Match(PartVolume, s).Some? then Match(PartVolume, s) else FirstMatch(p2, s);
    assert FirstMatch(p2, s) == if Match(ZVolume, s).Some? then Match(ZVolume, s) else FirstMatch(p3, s);
    assert FirstMatch(p3, s) == if Match(ThreeDigits, s).Some? then Match(ThreeDigits, s) else FirstMatch([], s);
  }

  /** No pattern's tail is empty or a bare archive extension: a name of the
      form `base.rar`, `base.zip` or `base.7z` is never captured with group
      `base`. */
  lemma ExtensionIsNoTail(p: Pattern, t: string)
    requires t == "" || t == ".rar" || t == ".zip" || t == ".7z"
    ensures !Tail(p, t)
  {
    if t != "" {
      assert t[1..][0] == t[1] && t[2..][0] == t[2];
      assert t[..2] == ".z" ==> t[2] == 'i';
      assert |t| == 4 ==> !IsDigit(t[1]);
    }
  }

  /** A matched name never continues after its group with nothing but a
      bare archive extension. */
  lemma CaptureLeavesNoBareExtension(s: string, k: int, n: int, ext: string)
    requires FirstCapture(s, k, n)
    requires ext == "" || ext == ".rar" || ext == ".zip" || ext == ".7z"
    ensures s[n..] != ext
  {
    ExtensionIsNoTail(Ordered[k], ext);
    assert s[|s| - 1] == s[n..][|s| - 1 - n];
  }
}

/** How the classifier reads each naming convention: a name built from a
    base, a volume number and an extension is classified back into exactly
    that base and number, with the format and first-part flag the source
    derives from them. These lemmas are the inverse partner of
    `Classifier.GetMultipartInfo`. */
module NameShapes {
  import opened Text
  import opened Paths
  import opened Patterns
  import opened Classifier

  /** `base.partN.ext`, the RAR/ZIP volume convention. */
  function VolumeName(b: string, d: string, e: string): string {
    b + ".part" + d + "." + e
  }

  /** `base.ext.N`, split archives (7-Zip, HJSplit and friends). */
  function SplitName(b: string, e: string, d: string): string {
    b + "." + e + "." + d
  }

  /** `base.zN`, the WinZip split convention. */
  function ZName(b: string, d: string): string {
    b + ".z" + d
  }

  /** `base.NNN`, plain numbered pieces. */
  function NumberedName(b: string, d: string): string {
    b + "." + d
  }

  /** The format the guess settles on for `base.ext.N`: the extension names
      it, except that tar/gz/bz2 pieces count as "numbered" only with exactly
      three digits. */
  function SplitFormat(e: string, d: string): Format {
    if e == "rar" then Rar
    else if e == "zip" then Zip
    else if e == "7z" then SevenZip
    else if |d| == 3 then Numbered
    else Unknown
  }

  /** A base that mentions none of the markers the format guess searches
      for, in any letter case. */
  predicate QuietStem(b: string) {
    && |b| > 0 && NoNewline(b)
    && !Contains(Lower(b), ".part") && !Contains(Lower(b), ".rar")
    && !Contains(Lower(b), ".7z") && !Contains(Lower(b), ".z")
  }

  /** A base that does not itself end in ".zip", ".rar", … (pattern 1 would
      otherwise claim `base.NNN`). */
  predicate NoSplitExtEnding(b: string) {
    forall e :: e in SplitExts ==> !EndsWith(b, "." + e)
  }

  predicate NoUpper(w: string) {
    forall i :: 0 <= i < |w| ==> !('A' <= w[i] <= 'Z')
  }

  // ---------------------------------------------------------------------
  // Helpers

  lemma NoUpperAppend(a: string, b: string)
    requires NoUpper(a) && NoUpper(b)
    ensures NoUpper(a + b)
  {
  }

  lemma LowerOfPlainTail(b: string, w: string)
    requires NoUpper(w)
    ensures Lower(b + w) == Lower(b) + w
  {
    LowerAppend(b, w);
    assert Lower(w) == w;
  }

  lemma QuietStemLacksLongNeedles(b: string)
    requires QuietStem(b)
    ensures !Contains(Lower(b), ".zip") && !Contains(Lower(b), ".z01")
  {
    StartsWithByChars(".zip", ".z");
    StartsWithByChars(".z01", ".z");
    ContainsPrefixNeedle(Lower(b), ".zip", ".z");
    ContainsPrefixNeedle(Lower(b), ".z01", ".z");
  }

  /** A dot-free base with no line feed mentions no marker. */
  lemma DotFreeStemIsQuiet(b: string)
    requires |b| > 0 && NoNewline(b) && NoDot(b)
    ensures QuietStem(b)
  {
    var l := Lower(b);
    assert forall i :: 0 <= i < |l| ==> l[i] != '.';
    ContainsNeedsFirstChar(l, ".part");
    ContainsNeedsFirstChar(l, ".rar");
    ContainsNeedsFirstChar(l, ".7z");
    ContainsNeedsFirstChar(l, ".z");
  }

  /** Which markers ".ext" starts with, for the split extensions. */
  lemma ExtWord(e: string)
    requires e in SplitExts
    ensures NoDot(e) && NoUpper(e)
    ensures StartsWith("." + e, ".rar") <==> e == "rar"
    ensures StartsWith("." + e, ".zip") <==> e == "zip"
    ensures StartsWith("." + e, ".7z") <==> e == "7z"
    ensures StartsWith("." + e, ".z") <==> e == "zip"
    ensures !StartsWith("." + e, ".part")
  {
    var w := "." + e;
    StartsWithAt(w, ".rar", 1);
    StartsWithAt(w, ".zip", 1);
    StartsWithAt(w, ".7z", 1);
    StartsWithAt(w, ".z", 1);
    StartsWithAt(w, ".part", 1);
    StartsWithAt(w, ".zip", 2);
    StartsWithAt(w, ".7z", 2);
    StartsWithAt(w, ".rar", 2);
    StartsWithAt(w, ".rar", 3);
    if e == "rar" { StartsWithByChars(w, ".rar"); }
    if e == "zip" { StartsWithByChars(w, ".zip"); StartsWithByChars(w, ".z"); }
    if e == "7z" { StartsWithByChars(w, ".7z"); }
  }

  /** ".N" starts with no marker. */
  lemma DigitWord(d: string)
    requires |d| > 0 && AllDigits(d)
    ensures NoDot(d) && NoUpper(d)
    ensures !StartsWith("." + d, ".part") && !StartsWith("." + d, ".rar")
    ensures !StartsWith("." + d, ".zip") && !StartsWith("." + d, ".7z")
    ensures !StartsWith("." + d, ".z")
  {
    var w := "." + d;
    StartsWithAt(w, ".part", 1);
    StartsWithAt(w, ".rar", 1);
    StartsWithAt(w, ".zip", 1);
    StartsWithAt(w, ".7z", 2);
    StartsWithAt(w, ".z", 1);
  }

  /** ".partN" starts with ".part" and with no other marker. */
  lemma PartWord(d: string)
    requires |d| > 0 && AllDigits(d)
    ensures NoDot("part" + d) && NoUpper("part" + d)
    ensures StartsWith("." + ("part" + d), ".part")
    ensures !StartsWith("." + ("part" + d), ".rar") && !StartsWith("." + ("part" + d), ".zip")
    ensures !StartsWith("." + ("part" + d), ".7z") && !StartsWith("." + ("part" + d), ".z")
  {
    var w := "." + ("part" + d);
    StartsWithByChars(w, ".part");
    StartsWithAt(w, ".rar", 1);
    StartsWithAt(w, ".zip", 1);
    StartsWithAt(w, ".7z", 1);
    StartsWithAt(w, ".z", 1);
  }

  /** ".zN" starts with ".z", with ".z01" exactly when N starts with "01",
      and with no other marker. */
  lemma ZWord(d: string)
    requires |d| > 0 && AllDigits(d)
    ensures NoDot("z" + d) && NoUpper("z" + d)
    ensures StartsWith("." + ("z" + d), ".z")
    ensures StartsWith("." + ("z" + d), ".z01") <==> StartsWith(d, "01")
    ensures !StartsWith("." + ("z" + d), ".part") && !StartsWith("." + ("z" + d), ".rar")
    ensures !StartsWith("." + ("z" + d), ".zip") && !StartsWith("." + ("z" + d), ".7z")
  {
    var w := "." + ("z" + d);
    StartsWithByChars(w, ".z");
    StartsWithAt(w, ".part", 1);
    StartsWithAt(w, ".rar", 1);
    StartsWithAt(w, ".zip", 2);
    StartsWithAt(w, ".7z", 1);
    StartsWithAt(w, ".z01", 2);
    StartsWithAt(w, ".z01", 3);
    StartsWithAt(d, "01", 0);
    StartsWithAt(d, "01", 1);
    if |d| >= 2 && d[0] == '0' && d[1] == '1' {
      StartsWithByChars(d, "01");
      StartsWithByChars(w, ".z01");
    }
  }

  /** `re.search(r'\.part(\d+)', …)` skips a prefix that holds no ".part". */
  lemma {:induction false} PartDigitsSkip(x: string, y: string)
    requires !Contains(x, ".part")
    requires |y| > 0 && y[0] == '.'
    ensures PartDigits(x + y) == PartDigits(y)
    decreases |x|
  {
    if |x| > 0 {
      var s := x + y;
      assert s[1..] == x[1..] + y;
      PartDigitsSkip(x[1..], y);
      if |s| >= 6 {
        if |x| >= 5 {
          assert s[..5] == x[..5];
        } else {
          assert s[..5][|x|] == '.';
        }
      }
    } else {
      assert x + y == y;
    }
  }

  lemma PartDigitsAfterMarker(t: string)
    requires |t| > 0 && IsDigit(t[0])
    ensures PartDigits(".part" + t) == Some(t[..LeadingDigits(t)])
  {
    var y := ".part" + t;
    assert y[..5] == ".part";
    assert y[5] == t[0];
    assert y[5..] == t;
  }

  lemma PartDigitsOfVolumeTail(d: string, e: string)
    requires |d| > 0 && AllDigits(d) && |e| > 0
    ensures PartDigits(".part" + d + "." + e) == Some(d)
  {
    var t := d + ("." + e);
    assert ".part" + d + "." + e == ".part" + t;
    assert t[0] == d[0];
    PartDigitsAfterMarker(t);
    LeadingDigitsOfAppend(d, "." + e);
    assert t[..|d|] == d;
  }

  /** The end of `x.N` when `x` ends in a dot: where the digit searches land
      and which end tests succeed. */
  lemma DotDigitsTail(x: string, d: string)
    requires |x| > 0 && x[|x| - 1] == '.'
    requires |d| > 0 && AllDigits(d)
    ensures Line(x + d) == x + d
    ensures DotDigits(x + d) == Some(d)
    ensures ZDigits(x + d) == None
    ensures EndsThreeDigits(x + d) <==> |d| == 3
    ensures EndsWith(x + d, ".001") <==> d == "001"
  {
    DigitsTailLine(x, d);
    DigitsTailRun(x, d);
    DotDigitsOfTail(x, d);
    ZDigitsOfDotTail(x, d);
    ThreeDigitsOfDotTail(x, d);
    FirstNumberOfDotTail(x, d);
  }

  lemma DigitsTailLine(x: string, d: string)
    requires |d| > 0 && AllDigits(d)
    ensures Line(x + d) == x + d
  {
    var s := x + d;
    assert s[|s| - 1] == d[|d| - 1];
  }

  lemma DigitsTailRun(x: string, d: string)
    requires |x| > 0 && !IsDigit(x[|x| - 1])
    requires |d| > 0 && AllDigits(d)
    ensures TrailingRun(x + d, Digit) == |d|
  {
    var s := x + d;
    assert forall i :: |x| <= i < |s| ==> s[i] == d[i - |x|];
    assert s[|x| - 1] == x[|x| - 1];
    TrailingRunAt(s, |x|, Digit);
  }

  lemma DotDigitsOfTail(x: string, d: string)
    requires |x| > 0 && x[|x| - 1] == '.'
    requires |d| > 0 && AllDigits(d)
    requires Line(x + d) == x + d && TrailingRun(x + d, Digit) == |d|
    ensures DotDigits(x + d) == Some(d)
  {
    var s := x + d;
    assert s[|x| - 1] == '.';
    assert s[|x|..] == d;
  }

  lemma ZDigitsOfDotTail(x: string, d: string)
    requires |x| > 0 && x[|x| - 1] == '.'
    requires Line(x + d) == x + d && TrailingRun(x + d, Digit) == |d|
    ensures ZDigits(x + d) == None
  {
    var s := x + d;
    var m := |x|;
    assert m >= 2 ==> s[m - 2..m][1] == s[m - 1];
  }

  lemma ThreeDigitsOfDotTail(x: string, d: string)
    requires |x| > 0 && x[|x| - 1] == '.'
    requires |d| > 0 && AllDigits(d)
    requires Line(x + d) == x + d
    ensures EndsThreeDigits(x + d) <==> |d| == 3
  {
    var s := x + d;
    if |d| == 3 {
      assert s[|s| - 4] == '.';
      assert s[|s| - 3..] == d;
    } else if |d| > 3 {
      assert s[|s| - 4] == d[|d| - 4];
    } else if |s| >= 4 {
      assert s[|s| - 3..][2 - |d|] == '.';
    }
  }

  lemma FirstNumberOfDotTail(x: string, d: string)
    requires |x| > 0 && x[|x| - 1] == '.'
    requires |d| > 0 && AllDigits(d)
    ensures EndsWith(x + d, ".001") <==> d == "001"
  {
    var s := x + d;
    if d == "001" {
      assert s[|s| - 4..] == "." + d;
    } else if |d| > 3 {
      assert s[|s| - 4] == d[|d| - 4];
    } else if |s| >= 4 && |d| < 3 {
      assert s[|s| - 4..][3 - |d|] == '.';
    } else if |d| == 3 {
      assert s[|s| - 4..][1..] == s[|s| - 3..] == d;
      assert ".001"[1..] == "001";
    }
  }

  // ---------------------------------------------------------------------
  // base.partN.rar / base.partN.zip

  lemma VolumeLower(b: string, d: string, e: string)
    requires |d| > 0 && AllDigits(d) && (e == "rar" || e == "zip")
    ensures Lower(VolumeName(b, d, e)) == Lower(b) + "." + ("part" + d) + "." + e
  {
    PartWord(d);
    var y := "." + ("part" + d) + "." + e;
    assert VolumeName(b, d, e) == b + y;
    assert NoUpper(y);
    LowerOfPlainTail(b, y);
  }

  /** A volume name ends in a letter, so the split-extension pattern, which
      needs trailing digits, does not match it. */
  lemma VolumeNotSplitExt(b: string, d: string, e: string)
    requires (e == "rar" || e == "zip")
    ensures Match(SplitExt, VolumeName(b, d, e)).None?
  {
    var name := VolumeName(b, d, e);
    assert name[|name| - 1] == e[2];
    assert Line(name) == name;
    assert TrailingRun(name, Digit) == 0;
  }

  lemma VolumeMatch(b: string, d: string, e: string)
    requires |b| > 0 && NoNewline(b) && |d| > 0 && AllDigits(d) && (e == "rar" || e == "zip")
    ensures Match(PartVolume, VolumeName(b, d, e)) == Some(b)
  {
    VolumeTail(d, e);
    assert VolumeName(b, d, e) == b + (".part" + d + "." + e);
    MatchOfTail(PartVolume, b, ".part" + d + "." + e);
  }

  lemma VolumeTail(d: string, e: string)
    requires |d| > 0 && AllDigits(d) && (e == "rar" || e == "zip")
    ensures Tail(PartVolume, ".part" + d + "." + e)
  {
    var t := ".part" + d + "." + e;
    assert t[..5] == ".part";
    assert t[|t| - 4..] == "." + e;
    assert t[5..|t| - 4] == d;
  }

  lemma VolumeBase(b: string, d: string, e: string)
    requires |b| > 0 && NoNewline(b) && |d| > 0 && AllDigits(d) && (e == "rar" || e == "zip")
    ensures BaseOf(VolumeName(b, d, e)) == Some(b)
  {
    VolumeNotSplitExt(b, d, e);
    VolumeMatch(b, d, e);
    FirstMatchInOrder(VolumeName(b, d, e));
  }

  lemma VolumePartDigits(b: string, d: string, e: string)
    requires QuietStem(b) && |d| > 0 && AllDigits(d) && (e == "rar" || e == "zip")
    ensures PartDigits(Lower(VolumeName(b, d, e))) == Some(d)
  {
    var l := Lower(b);
    VolumeLower(b, d, e);
    var y := ".part" + d + "." + e;
    assert l + "." + ("part" + d) + "." + e == l + y;
    PartDigitsSkip(l, y);
    PartDigitsOfVolumeTail(d, e);
  }

  lemma VolumeHasPart(b: string, d: string, e: string)
    requires QuietStem(b) && |d| > 0 && AllDigits(d) && (e == "rar" || e == "zip")
    ensures Contains(Lower(VolumeName(b, d, e)), ".part")
  {
    VolumeLower(b, d, e);
    PartWord(d);
    ExtWord(e);
    ContainsTwoWords(Lower(b), "part" + d, e, ".part");
  }

  lemma VolumeNumber(b: string, d: string, e: string)
    requires QuietStem(b) && |d| > 0 && AllDigits(d) && (e == "rar" || e == "zip")
    ensures PartNumber(VolumeName(b, d, e)) == DigitsValue(d)
  {
    VolumeHasPart(b, d, e);
    VolumePartDigits(b, d, e);
  }

  lemma VolumeFormat(b: string, d: string, e: string)
    requires QuietStem(b) && |d| > 0 && AllDigits(d) && (e == "rar" || e == "zip")
    ensures FormatOf(VolumeName(b, d, e)) == if e == "rar" then Rar else Zip
  {
    var l := Lower(b);
    VolumeLower(b, d, e);
    PartWord(d);
    ExtWord(e);
    QuietStemLacksLongNeedles(b);
    ContainsTwoWords(l, "part" + d, e, ".rar");
    ContainsTwoWords(l, "part" + d, e, ".zip");
  }

  /** `base.partN.rar` and `base.partN.zip` are volume N of `base`, the
      first volume being the one numbered 1. */
  lemma VolumeNameInfo(path: string, b: string, d: string, e: string)
    requires Basename(path) == VolumeName(b, d, e)
    requires QuietStem(b) && |d| > 0 && AllDigits(d) && (e == "rar" || e == "zip")
    ensures GetMultipartInfo(path, true) ==
      Some(FileInfo(b, DigitsValue(d), if e == "rar" then Rar else Zip,
                    DigitsValue(d) == 1, path, VolumeName(b, d, e)))
  {
    VolumeBase(b, d, e);
    VolumeHasPart(b, d, e);
    VolumeNumber(b, d, e);
    VolumeFormat(b, d, e);
    InfoFromFields(path, b, DigitsValue(d), if e == "rar" then Rar else Zip, DigitsValue(d) == 1);
  }

  // ---------------------------------------------------------------------
  // base.ext.N

  lemma SplitLower(b: string, e: string, d: string)
    requires e in SplitExts && |d| > 0 && AllDigits(d)
    ensures Lower(SplitName(b, e, d)) == Lower(b) + "." + e + "." + d
  {
    ExtWord(e);
    DigitWord(d);
    NoUpperAppend(".", e);
    NoUpperAppend("." + e, ".");
    NoUpperAppend("." + e + ".", d);
    var y := "." + e + "." + d;
    Regroup(b, ".", e, ".", d);
    Regroup(Lower(b), ".", e, ".", d);
    LowerOfPlainTail(b, y);
  }

  lemma SplitMatch(b: string, e: string, d: string)
    requires |b| > 0 && NoNewline(b) && e in SplitExts && |d| > 0 && AllDigits(d)
    ensures Match(SplitExt, SplitName(b, e, d)) == Some(b)
  {
    SplitTail(e, d);
    assert SplitName(b, e, d) == b + ("." + e + "." + d);
    MatchOfTail(SplitExt, b, "." + e + "." + d);
  }

  lemma SplitTail(e: string, d: string)
    requires e in SplitExts && |d| > 0 && AllDigits(d)
    ensures Tail(SplitExt, "." + e + "." + d)
  {
    var t := "." + e + "." + d;
    assert t[..|e| + 2] == "." + e + ".";
    assert t[|e| + 2..] == d;
    SplitExtTail(t, e);
  }

  lemma SplitBase(b: string, e: string, d: string)
    requires |b| > 0 && NoNewline(b) && e in SplitExts && |d| > 0 && AllDigits(d)
    ensures BaseOf(SplitName(b, e, d)) == Some(b)
  {
    SplitMatch(b, e, d);
    FirstMatchInOrder(SplitName(b, e, d));
  }

  /** Which markers the lower-cased `base.ext.N` mentions. */
  lemma SplitMarkers(b: string, e: string, d: string)
    requires QuietStem(b) && e in SplitExts && |d| > 0 && AllDigits(d)
    ensures !Contains(Lower(SplitName(b, e, d)), ".part")
    ensures Contains(Lower(SplitName(b, e, d)), ".rar") <==> e == "rar"
    ensures Contains(Lower(SplitName(b, e, d)), ".zip") <==> e == "zip"
    ensures Contains(Lower(SplitName(b, e, d)), ".7z") <==> e == "7z"
    ensures Contains(Lower(SplitName(b, e, d)), ".z") <==> e == "zip"
  {
    var l := Lower(b);
    SplitLower(b, e, d);
    ExtWord(e);
    DigitWord(d);
    QuietStemLacksLongNeedles(b);
    ContainsTwoWords(l, e, d, ".part");
    ContainsTwoWords(l, e, d, ".rar");
    ContainsTwoWords(l, e, d, ".zip");
    ContainsTwoWords(l, e, d, ".7z");
    ContainsTwoWords(l, e, d, ".z");
  }

  lemma SplitDigits(b: string, e: string, d: string)
    requires e in SplitExts && |d| > 0 && AllDigits(d)
    ensures ZDigits(Lower(SplitName(b, e, d))) == None
    ensures DotDigits(SplitName(b, e, d)) == Some(d)
    ensures EndsThreeDigits(SplitName(b, e, d)) <==> |d| == 3
    ensures EndsWith(SplitName(b, e, d), ".001") <==> d == "001"
  {
    var l := Lower(b);
    SplitLower(b, e, d);
    assert l + "." + e + "." + d == (l + "." + e + ".") + d;
    DotDigitsTail(l + "." + e + ".", d);
    DotDigitsTail(b + "." + e + ".", d);
  }

  lemma SplitNumber(b: string, e: string, d: string)
    requires QuietStem(b) && e in SplitExts && |d| > 0 && AllDigits(d)
    ensures PartNumber(SplitName(b, e, d)) == DigitsValue(d)
  {
    SplitMarkers(b, e, d);
    SplitDigits(b, e, d);
  }

  lemma SplitFormatOf(b: string, e: string, d: string)
    requires QuietStem(b) && e in SplitExts && |d| > 0 && AllDigits(d)
    ensures FormatOf(SplitName(b, e, d)) == SplitFormat(e, d)
  {
    SplitMarkers(b, e, d);
    SplitDigits(b, e, d);
  }

  lemma SplitFirst(b: string, e: string, d: string)
    requires QuietStem(b) && e in SplitExts && |d| > 0 && AllDigits(d)
    ensures IsFirstPart(SplitName(b, e, d), SplitFormat(e, d), DigitsValue(d)) == (DigitsValue(d) == 1)
  {
    SplitMarkers(b, e, d);
    SplitDigits(b, e, d);
    DigitsValueOne();
  }

  /** `base.ext.N` is piece N of `base`; the format follows the extension,
      and the first piece is the one numbered 1. */
  lemma SplitNameInfo(path: string, b: string, e: string, d: string)
    requires Basename(path) == SplitName(b, e, d)
    requires QuietStem(b) && e in SplitExts && |d| > 0 && AllDigits(d)
    ensures GetMultipartInfo(path, true) ==
      Some(FileInfo(b, DigitsValue(d), SplitFormat(e, d), DigitsValue(d) == 1, path, SplitName(b, e, d)))
  {
    SplitBase(b, e, d);
    SplitNumber(b, e, d);
    SplitFormatOf(b, e, d);
    SplitFirst(b, e, d);
    InfoFromFields(path, b, DigitsValue(d), SplitFormat(e, d), DigitsValue(d) == 1);
  }

  // ---------------------------------------------------------------------
  // base.zN

  lemma ZLower(b: string, d: string)
    requires |d| > 0 && AllDigits(d)
    ensures Lower(ZName(b, d)) == Lower(b) + "." + ("z" + d)
  {
    ZWord(d);
    var y := "." + ("z" + d);
    assert ZName(b, d) == b + y;
    LowerOfPlainTail(b, y);
  }

  /** The digits of a final ".zN". */
  lemma ZDigitsTail(x: string, d: string)
    requires |d| > 0 && AllDigits(d)
    ensures Line(x + ".z" + d) == x + ".z" + d
    ensures ZDigits(x + ".z" + d) == Some(d)
    ensures TrailingRun(x + ".z" + d, Digit) == |d|
  {
    var h := x + ".z";
    var s := h + d;
    assert s == x + ".z" + d;
    assert s[|s| - 1] == d[|d| - 1];
    assert h[|h| - 1] == 'z';
    assert forall i :: 0 <= i < |d| ==> InClass(d[i], Digit);
    TrailingRunOfAppend(h, d, Digit);
    assert s[|h| - 2..|h|] == ".z";
    assert s[|h|..] == d;
  }

  /** Patterns 1 and 2 pass over `base.zN`. */
  lemma ZNotEarlier(b: string, d: string)
    requires |b| > 0 && |d| > 0 && AllDigits(d)
    ensures Match(SplitExt, ZName(b, d)).None? && Match(PartVolume, ZName(b, d)).None?
  {
    var name := ZName(b, d);
    ZDigitsTail(b, d);
    var m := |name| - |d|;
    assert name[m - 1] == 'z';
    assert name[|name| - 4..][3] == d[|d| - 1];
  }

  lemma ZMatch(b: string, d: string)
    requires |b| > 0 && NoNewline(b) && |d| > 0 && AllDigits(d)
    ensures Match(ZVolume, ZName(b, d)) == Some(b)
  {
    var t := ".z" + d;
    assert t[..2] == ".z" && t[2..] == d;
    assert ZName(b, d) == b + t;
    MatchOfTail(ZVolume, b, t);
  }

  lemma ZBase(b: string, d: string)
    requires |b| > 0 && NoNewline(b) && |d| > 0 && AllDigits(d)
    ensures BaseOf(ZName(b, d)) == Some(b)
  {
    ZNotEarlier(b, d);
    ZMatch(b, d);
    FirstMatchInOrder(ZName(b, d));
  }

  /** Which markers the lower-cased `base.zN` mentions. */
  lemma ZMarkers(b: string, d: string)
    requires QuietStem(b) && |d| > 0 && AllDigits(d)
    ensures !Contains(Lower(ZName(b, d)), ".part") && !Contains(Lower(ZName(b, d)), ".rar")
    ensures !Contains(Lower(ZName(b, d)), ".zip") && !Contains(Lower(ZName(b, d)), ".7z")
    ensures Contains(Lower(ZName(b, d)), ".z")
    ensures Contains(Lower(ZName(b, d)), ".z01") <==> StartsWith(d, "01")
  {
    var l := Lower(b);
    ZLower(b, d);
    ZWord(d);
    QuietStemLacksLongNeedles(b);
    ContainsOneWord(l, "z" + d, ".part");
    ContainsOneWord(l, "z" + d, ".rar");
    ContainsOneWord(l, "z" + d, ".zip");
    ContainsOneWord(l, "z" + d, ".7z");
    ContainsOneWord(l, "z" + d, ".z");
    ContainsOneWord(l, "z" + d, ".z01");
  }

  lemma ZDigitsOfName(b: string, d: string)
    requires |d| > 0 && AllDigits(d)
    ensures ZDigits(Lower(ZName(b, d))) == Some(d)
  {
    var l := Lower(b);
    ZLower(b, d);
    assert l + "." + ("z" + d) == l + ".z" + d;
    ZDigitsTail(l, d);
  }

  lemma ZFacts(b: string, d: string)
    requires QuietStem(b) && |d| > 0 && AllDigits(d)
    ensures PartNumber(ZName(b, d)) == DigitsValue(d)
    ensures FormatOf(ZName(b, d)) == ZSplit
  {
    ZMarkers(b, d);
    ZDigitsOfName(b, d);
  }

  /** `base.zN` is piece N of `base` in the "z" format; the first piece is
      recognised by the text ".z01", so "x.z1" is piece 1 yet not first. */
  lemma ZNameInfo(path: string, b: string, d: string)
    requires Basename(path) == ZName(b, d)
    requires QuietStem(b) && |d| > 0 && AllDigits(d)
    ensures GetMultipartInfo(path, true) ==
      Some(FileInfo(b, DigitsValue(d), ZSplit, StartsWith(d, "01"), path, ZName(b, d)))
  {
    ZBase(b, d);
    ZMarkers(b, d);
    ZFacts(b, d);
    InfoFromFields(path, b, DigitsValue(d), ZSplit, StartsWith(d, "01"));
  }

  // ---------------------------------------------------------------------
  // base.NNN

  /** Pattern 1 passes over `base.NNN` when the base ends in no split
      extension. */
  lemma NumberedNotSplitExt(b: string, d: string)
    requires |b| > 0 && NoSplitExtEnding(b) && |d| == 3 && AllDigits(d)
    ensures Match(SplitExt, NumberedName(b, d)).None?
  {
    var x := b + ".";
    var name := NumberedName(b, d);
    assert name == x + d;
    assert x[|x| - 1] == '.';
    DigitsTailLine(x, d);
    DigitsTailRun(x, d);
    var m := |name| - TrailingRun(name, Digit);
    assert name[..m - 1] == b && name[m - 1] == '.';
    NoSplitExtHead(b);
  }

  /** A base that ends in no split extension has no split-extension head. */
  lemma NoSplitExtHead(b: string)
    requires NoSplitExtEnding(b)
    ensures SplitExtHead(b).None?
  {
    var j := |b| - TrailingRun(b, NonDot);
    var e := b[j..];
    if j >= 2 && b[j - 1] == '.' {
      assert b[|b| - |"." + e|..] == "." + e;
      assert EndsWith(b, "." + e);
    }
  }

  /** Patterns 2 and 3 pass over `base.NNN`. */
  lemma NumberedNotVolume(b: string, d: string)
    requires |b| > 0 && |d| == 3 && AllDigits(d)
    ensures Match(PartVolume, NumberedName(b, d)).None?
    ensures Match(ZVolume, NumberedName(b, d)).None?
  {
    var name := NumberedName(b, d);
    DotDigitsTail(b + ".", d);
    assert name == b + "." + d;
    assert forall i :: 0 <= i < |d| ==> InClass(d[i], Digit);
    TrailingRunOfAppend(b + ".", d, Digit);
    var m := |b| + 1;
    assert name[|name| - 4..][3] == d[2];
    assert name[m - 2..m][1] == '.';
  }

  lemma NumberedMatch(b: string, d: string)
    requires |b| > 0 && NoNewline(b) && |d| == 3 && AllDigits(d)
    ensures Match(ThreeDigits, NumberedName(b, d)) == Some(b)
  {
    var t := "." + d;
    assert t[1..] == d;
    assert NumberedName(b, d) == b + t;
    MatchOfTail(ThreeDigits, b, t);
  }

  lemma NumberedBase(b: string, d: string)
    requires |b| > 0 && NoNewline(b) && NoSplitExtEnding(b) && |d| == 3 && AllDigits(d)
    ensures BaseOf(NumberedName(b, d)) == Some(b)
  {
    NumberedNotSplitExt(b, d);
    NumberedNotVolume(b, d);
    NumberedMatch(b, d);
    FirstMatchInOrder(NumberedName(b, d));
  }

  /** The lower-cased `base.NNN` mentions no marker. */
  lemma NumberedMarkers(b: string, d: string)
    requires QuietStem(b) && |d| == 3 && AllDigits(d)
    ensures !Contains(Lower(NumberedName(b, d)), ".part") && !Contains(Lower(NumberedName(b, d)), ".rar")
    ensures !Contains(Lower(NumberedName(b, d)), ".zip") && !Contains(Lower(NumberedName(b, d)), ".7z")
    ensures !Contains(Lower(NumberedName(b, d)), ".z")
  {
    var l := Lower(b);
    NumberedLower(b, d);
    QuietStemLacksLongNeedles(b);
    DigitsAddNoMarker(l, d, ".part");
    DigitsAddNoMarker(l, d, ".rar");
    DigitsAddNoMarker(l, d, ".zip");
    DigitsAddNoMarker(l, d, ".7z");
    DigitsAddNoMarker(l, d, ".z");
  }

  lemma NumberedLower(b: string, d: string)
    requires |d| > 0 && AllDigits(d)
    ensures Lower(NumberedName(b, d)) == Lower(b) + "." + d
  {
    DigitWord(d);
    assert NumberedName(b, d) == b + ("." + d);
    LowerOfPlainTail(b, "." + d);
    assert Lower(b) + ("." + d) == Lower(b) + "." + d;
  }

  /** Appending ".N" adds no marker. */
  lemma DigitsAddNoMarker(l: string, d: string, t: string)
    requires |d| > 0 && AllDigits(d)
    requires t in {".part", ".rar", ".zip", ".7z", ".z"}
    requires !Contains(l, t)
    ensures !Contains(l + "." + d, t)
  {
    DigitWord(d);
    ContainsOneWord(l, d, t);
  }

  lemma NumberedFacts(b: string, d: string)
    requires QuietStem(b) && |d| == 3 && AllDigits(d)
    ensures PartNumber(NumberedName(b, d)) == DigitsValue(d)
    ensures FormatOf(NumberedName(b, d)) == Numbered
    ensures EndsWith(NumberedName(b, d), ".001") <==> d == "001"
  {
    NumberedMarkers(b, d);
    DotDigitsTail(b + ".", d);
  }

  /** `base.NNN` is piece NNN of `base` in the "numbered" format when the
      base ends in no split extension; "001" is the first piece. */
  lemma NumberedNameInfo(path: string, b: string, d: string)
    requires Basename(path) == NumberedName(b, d)
    requires QuietStem(b) && NoSplitExtEnding(b) && |d| == 3 && AllDigits(d)
    ensures GetMultipartInfo(path, true) ==
      Some(FileInfo(b, DigitsValue(d), Numbered, DigitsValue(d) == 1, path, NumberedName(b, d)))
  {
    NumberedBase(b, d);
    NumberedFacts(b, d);
    DigitsValueOne();
    InfoFromFields(path, b, DigitsValue(d), Numbered, DigitsValue(d) == 1);
  }

  // ---------------------------------------------------------------------
  // Worked examples

  lemma DigitsValueTwo()
    ensures DigitsValue("2") == 2
  {
    assert "2"[..0] == "";
  }

  lemma DotFreeStemHasNoExtension(b: string)
    requires NoDot(b)
    ensures NoSplitExtEnding(b)
  {
    forall e | e in SplitExts
      ensures !EndsWith(b, "." + e)
    {
      if |"." + e| <= |b| {
        assert b[|b| - |"." + e|..][0] == b[|b| - |e| - 1];
      }
    }
  }

  // Each worked example is an instance of one of the general lemmas below;
  // the facts about its literal names are proved separately.

  lemma VolumeInfoAt(dir: string, name: string, b: string, d: string, e: string)
    requires name == VolumeName(b, d, e) && EntryName(name)
    requires QuietStem(b) && |d| > 0 && AllDigits(d) && (e == "rar" || e == "zip")
    ensures GetMultipartInfo(JoinPath(dir, name), true) ==
      Some(FileInfo(b, DigitsValue(d), if e == "rar" then Rar else Zip,
                    DigitsValue(d) == 1, JoinPath(dir, name), name))
  {
    BasenameOfJoin(dir, name);
    VolumeNameInfo(JoinPath(dir, name), b, d, e);
  }

  lemma SplitInfoAt(dir: string, name: string, b: string, e: string, d: string)
    requires name == SplitName(b, e, d) && EntryName(name)
    requires QuietStem(b) && e in SplitExts && |d| > 0 && AllDigits(d)
    ensures GetMultipartInfo(JoinPath(dir, name), true) ==
      Some(FileInfo(b, DigitsValue(d), SplitFormat(e, d), DigitsValue(d) == 1, JoinPath(dir, name), name))
  {
    BasenameOfJoin(dir, name);
    SplitNameInfo(JoinPath(dir, name), b, e, d);
  }

  lemma ZInfoAt(dir: string, name: string, b: string, d: string)
    requires name == ZName(b, d) && EntryName(name)
    requires QuietStem(b) && |d| > 0 && AllDigits(d)
    ensures GetMultipartInfo(JoinPath(dir, name), true) ==
      Some(FileInfo(b, DigitsValue(d), ZSplit, StartsWith(d, "01"), JoinPath(dir, name), name))
  {
    BasenameOfJoin(dir, name);
    ZNameInfo(JoinPath(dir, name), b, d);
  }

  lemma NumberedInfoAt(dir: string, name: string, b: string, d: string)
    requires name == NumberedName(b, d) && EntryName(name)
    requires QuietStem(b) && NoSplitExtEnding(b) && |d| == 3 && AllDigits(d)
    ensures GetMultipartInfo(JoinPath(dir, name), true) ==
      Some(FileInfo(b, DigitsValue(d), Numbered, DigitsValue(d) == 1, JoinPath(dir, name), name))
  {
    BasenameOfJoin(dir, name);
    NumberedNameInfo(JoinPath(dir, name), b, d);
  }

  lemma ArchiveZip001()
    ensures "archive.zip.001" == SplitName("archive", "zip", "001") && EntryName("archive.zip.001")
    ensures QuietStem("archive") && "zip" in SplitExts && AllDigits("001")
  {
    ArchiveZip001Name();
    ArchiveZip001Entry();
    ExampleStemIsQuiet("archive");
  }

  lemma ArchiveZip001Name()
    ensures "archive.zip.001" == SplitName("archive", "zip", "001")
  {
  }

  lemma ArchiveZip001Entry()
    ensures EntryName("archive.zip.001")
  {
  }

  /** The stems of the worked examples hold no dot, so no pattern can end inside them. */
  lemma ExampleStemIsQuiet(b: string)
    requires b == "archive" || b == "movie" || b == "backup"
    ensures QuietStem(b)
  {
    DotFreeStemIsQuiet(b);
  }

  lemma MovieVolume(d: string)
    requires d == "1" || d == "2"
    ensures ("movie.part" + d + ".rar") == VolumeName("movie", d, "rar") && EntryName("movie.part" + d + ".rar")
    ensures QuietStem("movie") && AllDigits(d)
  {
    MovieVolumeEntry(d);
    ExampleStemIsQuiet("movie");
  }

  lemma MovieVolumeEntry(d: string)
    requires d == "1" || d == "2"
    ensures EntryName("movie.part" + d + ".rar")
  {
  }

  lemma BackupZ(d: string)
    requires d == "01" || d == "1"
    ensures "backup.z" + d == ZName("backup", d) && EntryName("backup.z" + d)
    ensures QuietStem("backup") && AllDigits(d)
    ensures StartsWith(d, "01") <==> d == "01"
  {
    BackupZEntry(d);
    ExampleStemIsQuiet("backup");
    if d == "01" {
      StartsWithByChars(d, "01");
    }
  }

  lemma BackupZEntry(d: string)
    requires d == "01" || d == "1"
    ensures EntryName("backup.z" + d)
  {
  }

  lemma Film001()
    ensures "film.001" == NumberedName("film", "001") && EntryName("film.001")
    ensures QuietStem("film") && NoSplitExtEnding("film") && AllDigits("001")
  {
    DotFreeStemIsQuiet("film");
    DotFreeStemHasNoExtension("film");
  }

  /** Pattern 1 comes first, so "archive.zip.001" is piece 1 of "archive",
      not of "archive.zip". */
  lemma ExampleZipSplit(dir: string)
    ensures GetMultipartInfo(JoinPath(dir, "archive.zip.001"), true) ==
      Some(FileInfo("archive", 1, Zip, true, JoinPath(dir, "archive.zip.001"), "archive.zip.001"))
  {
    ArchiveZip001();
    DigitsValueOne();
    SplitInfoAt(dir, "archive.zip.001", "archive", "zip", "001");
  }

  lemma ExampleRarVolume(dir: string)
    ensures GetMultipartInfo(JoinPath(dir, "movie.part2.rar"), true) ==
      Some(FileInfo("movie", 2, Rar, false, JoinPath(dir, "movie.part2.rar"), "movie.part2.rar"))
  {
    MovieVolume("2");
    DigitsValueTwo();
    VolumeInfoAt(dir, "movie.part2.rar", "movie", "2", "rar");
  }

  lemma ExampleRarFirstVolume(dir: string)
    ensures GetMultipartInfo(JoinPath(dir, "movie.part1.rar"), true) ==
      Some(FileInfo("movie", 1, Rar, true, JoinPath(dir, "movie.part1.rar"), "movie.part1.rar"))
  {
    MovieVolume("1");
    DigitsValueOne();
    VolumeInfoAt(dir, "movie.part1.rar", "movie", "1", "rar");
  }

  lemma ExampleZFirst(dir: string)
    ensures GetMultipartInfo(JoinPath(dir, "backup.z01"), true) ==
      Some(FileInfo("backup", 1, ZSplit, true, JoinPath(dir, "backup.z01"), "backup.z01"))
  {
    BackupZ("01");
    DigitsValueOne();
    ZInfoAt(dir, "backup.z01", "backup", "01");
  }

  /** ".z1" is piece 1 but not the first piece: the first-part test looks
      for the text ".z01". */
  lemma ExampleZOneIsNotFirst(dir: string)
    ensures GetMultipartInfo(JoinPath(dir, "backup.z1"), true) ==
      Some(FileInfo("backup", 1, ZSplit, false, JoinPath(dir, "backup.z1"), "backup.z1"))
  {
    BackupZ("1");
    DigitsValueOne();
    ZInfoAt(dir, "backup.z1", "backup", "1");
  }

  lemma ExampleNumbered(dir: string)
    ensures GetMultipartInfo(JoinPath(dir, "film.001"), true) ==
      Some(FileInfo("film", 1, Numbered, true, JoinPath(dir, "film.001"), "film.001"))
  {
    Film001();
    DigitsValueOne();
    NumberedInfoAt(dir, "film.001", "film", "001");
  }

  /** The patterns are case-sensitive: "MOVIE.PART1.RAR" and "notes.txt" end
      in no digit, "r", "p" or line feed, so nothing classifies them. */
  lemma ExampleUnclassified(dir: string)
    ensures GetMultipartInfo(JoinPath(dir, "MOVIE.PART1.RAR"), true) == None
    ensures GetMultipartInfo(JoinPath(dir, "notes.txt"), true) == None
  {
    UnclassifiedEntry(dir, "MOVIE.PART1.RAR");
    UnclassifiedEntry(dir, "notes.txt");
  }

  lemma UnclassifiedEntry(dir: string, name: string)
    requires name == "MOVIE.PART1.RAR" || name == "notes.txt"
    ensures GetMultipartInfo(JoinPath(dir, name), true) == None
  {
    BasenameOfJoin(dir, name);
    ClassifiedNameEnding(JoinPath(dir, name), true);
  }

  /** The upper-case "A.ZIP" ends in no split extension as the patterns see
      it. */
  lemma UpperZipStem()
    ensures NoSplitExtEnding("A.ZIP")
  {
    forall e | e in SplitExts
      ensures !EndsWith("A.ZIP", "." + e)
    {
      EndsWithAt("A.ZIP", "." + e, 0);
      EndsWithAt("A.ZIP", "." + e, 1);
    }
  }

  lemma UpperZipMarkers()
    ensures Lower("A.ZIP.001") == "a" + "." + "zip" + "." + "001"
    ensures !Contains(Lower("A.ZIP.001"), ".part") && !Contains(Lower("A.ZIP.001"), ".rar")
    ensures Contains(Lower("A.ZIP.001"), ".zip")
  {
    UpperZipLower();
    ExtWord("zip");
    DigitWord("001");
    LowerZipMarker(".part");
    LowerZipMarker(".rar");
    LowerZipMarker(".zip");
  }

  lemma UpperZipLower()
    ensures Lower("A.ZIP.001") == "a" + "." + "zip" + "." + "001"
  {
    assert Lower("A.ZIP.001") == "a.zip.001";
  }

  /** Which markers "a.zip.001" mentions. */
  lemma LowerZipMarker(t: string)
    requires t == ".part" || t == ".rar" || t == ".zip"
    ensures Contains("a" + "." + "zip" + "." + "001", t) <==> t == ".zip"
  {
    ExtWord("zip");
    DigitWord("001");
    ContainsNeedsFirstChar("a", t);
    ContainsTwoWords("a", "zip", "001", t);
  }

  lemma UpperZipZDigits()
    ensures ZDigits(Lower("A.ZIP.001")) == None
  {
    assert Lower("A.ZIP.001") == "a.zip." + "001";
    DotDigitsTail("a.zip.", "001");
  }

  lemma UpperZipDotDigits()
    ensures DotDigits("A.ZIP.001") == Some("001")
  {
    assert "A.ZIP.001" == "A.ZIP." + "001";
    DotDigitsTail("A.ZIP.", "001");
  }

  lemma UpperZipBase()
    ensures Match(SplitExt, "A.ZIP.001").None?
    ensures BaseOf("A.ZIP.001") == Some("A.ZIP")
  {
    UpperZipStem();
    assert "A.ZIP.001" == NumberedName("A.ZIP", "001");
    NumberedNotSplitExt("A.ZIP", "001");
    NumberedBase("A.ZIP", "001");
  }

  lemma UpperZipFacts()
    ensures PartNumber("A.ZIP.001") == 1
    ensures FormatOf("A.ZIP.001") == Zip
    ensures IsFirstPart("A.ZIP.001", Zip, 1)
  {
    UpperZipMarkers();
    UpperZipZDigits();
    UpperZipDotDigits();
    DigitsValueOne();
  }

  /** Matching is case-sensitive: "A.ZIP.001" fails pattern 1 and is taken by
      pattern 4 with base "A.ZIP", while the lower-cased format guess still
      calls it a zip. */
  lemma ExampleUpperCaseSplit(dir: string)
    ensures Match(SplitExt, "A.ZIP.001").None?
    ensures GetMultipartInfo(JoinPath(dir, "A.ZIP.001"), true) ==
      Some(FileInfo("A.ZIP", 1, Zip, true, JoinPath(dir, "A.ZIP.001"), "A.ZIP.001"))
  {
    BasenameOfJoin(dir, "A.ZIP.001");
    UpperZipBase();
    UpperZipFacts();
  }
}

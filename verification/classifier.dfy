/** `get_multipart_info` and `is_first_part`: from a file path to
    (base name, part number, format, first-part flag), or nothing. */
module Classifier {
  import opened Text
  import opened Paths
  import Patterns

  /** The format tags of the source: "rar", "zip", "7z", "z", "numbered",
      "unknown". */
  datatype Format = Rar | Zip | SevenZip | ZSplit | Numbered | Unknown

  datatype FileInfo = FileInfo(
    baseName: string,
    partNum: nat,
    format: Format,
    isFirstPart: bool,
    fullPath: string,
    fileName: string)

  // ---------------------------------------------------------------------
  // The searches behind the part number and the format

  /** `re.search(r'\.part(\d+)', s)`: the digit group after the leftmost
      ".part" that is followed by a digit. */
  function PartDigits(s: string): (r: Option<string>)
    ensures r.Some? ==> |r.value| > 0 && AllDigits(r.value)
    decreases |s|
  {
    if |s| < 6 then None
    else if s[..5] == ".part" && IsDigit(s[5]) then
      var t := s[5..];
      Some(t[..LeadingDigits(t)])
    else PartDigits(s[1..])
  }

  /** `re.search(r'\.z(\d+)$', s)`: the digits after a final ".z". */
  function ZDigits(s: string): (r: Option<string>)
    ensures r.Some? ==> |r.value| > 0 && AllDigits(r.value)
  {
    var l := Line(s);
    TrailingRunIsMaximal(l, Digit);
    var m := |l| - TrailingRun(l, Digit);
    if m < |l| && m >= 2 && l[m - 2..m] == ".z" then Some(l[m..]) else None
  }

  /** `re.search(r'\.(\d+)$', s)`: the digits after a final dot. */
  function DotDigits(s: string): (r: Option<string>)
    ensures r.Some? ==> |r.value| > 0 && AllDigits(r.value)
  {
    var l := Line(s);
    TrailingRunIsMaximal(l, Digit);
    var m := |l| - TrailingRun(l, Digit);
    if m < |l| && m >= 1 && l[m - 1] == '.' then Some(l[m..]) else None
  }

  /** `re.search(r'\.\d{3}$', s)`. */
  predicate EndsThreeDigits(s: string) {
    var l := Line(s);
    |l| >= 4 && l[|l| - 4] == '.' && AllDigits(l[|l| - 3..])
  }

  /** The part number of a recognised name (multipart_manager.py lines
      32-43): the ".partN" digits when the lower-cased name mentions ".part"
      (1 when no digits follow), else the digits of a final ".zN", else the
      digits of a final ".N", defaulting to 1. */
  function PartNumber(name: string): nat {
    var low := Lower(name);
    if Contains(low, ".part") then
      (match PartDigits(low) case Some(d) => DigitsValue(d) case None => 1)
    else if Contains(low, ".z") && ZDigits(low).Some? then
      DigitsValue(ZDigits(low).value)
    else
      (match DotDigits(name) case Some(d) => DigitsValue(d) case None => 1)
  }

  /** The format guess (lines 46-59): the first of ".rar", ".zip", ".7z",
      ".z" found in the lower-cased name, else "numbered" for a final dot and
      three digits, else "unknown". */
  function FormatOf(name: string): Format {
    var low := Lower(name);
    if Contains(low, ".rar") then Rar
    else if Contains(low, ".zip") then Zip
    else if Contains(low, ".7z") then SevenZip
    else if Contains(low, ".z") then ZSplit
    else if EndsThreeDigits(name) then Numbered
    else Unknown
  }

  /** `is_first_part` (lines 74-83). */
  function IsFirstPart(name: string, format: Format, partNum: nat): bool {
    if (format == Rar || format == Zip) && Contains(Lower(name), ".part") then partNum == 1
    else if format == ZSplit then Contains(Lower(name), ".z01")
    else partNum == 1 || EndsWith(name, ".001")
  }

  /** The base name of the first pattern, in list order, that matches. */
  function BaseOf(name: string): (r: Option<string>)
    ensures r.Some? ==> 1 <= |r.value| < |name| && r.value == name[..|r.value|]
  {
    Patterns.FirstMatchIsPrefix(name);
    Patterns.FirstMatch(Patterns.Ordered, name)
  }

  /** The base is the group of the first pattern in list order whose regular
      expression matches the name, and there is none exactly when no
      pattern matches. */
  lemma BaseOfIsFirstCapture(name: string)
    ensures BaseOf(name).Some? ==> exists i :: Patterns.FirstCapture(name, i, |BaseOf(name).value|)
    ensures BaseOf(name).None? <==>
      forall i, n :: 0 <= i < |Patterns.Ordered| ==> !Patterns.CapturesAt(Patterns.Ordered[i], name, n)
  {
    Patterns.FirstMatchIsFirstCapture(name);
  }

  /** `get_multipart_info(path)`, with the existence test of the path as the
      input `present`. */
  function GetMultipartInfo(path: string, present: bool): (r: Option<FileInfo>)
    ensures r.None? <==> path == [] || !present || BaseOf(Basename(path)).None?
    ensures r.Some? ==>
      && r.value.fullPath == path
      && r.value.fileName == Basename(path)
      && 1 <= |r.value.baseName| < |r.value.fileName|
      && r.value.baseName == r.value.fileName[..|r.value.baseName|]
  {
    if path == [] || !present then None
    else
      var name := Basename(path);
      match BaseOf(name)
      case None => None
      case Some(base) =>
        var num := PartNumber(name);
        var format := FormatOf(name);
        Some(FileInfo(base, num, format, IsFirstPart(name, format, num), path, name))
  }

  /** The record assembled from its separately known fields. */
  lemma InfoFromFields(path: string, base: string, num: nat, format: Format, first: bool)
    requires path != []
    requires BaseOf(Basename(path)) == Some(base)
    requires PartNumber(Basename(path)) == num && FormatOf(Basename(path)) == format
    requires IsFirstPart(Basename(path), format, num) == first
    ensures GetMultipartInfo(path, true) == Some(FileInfo(base, num, format, first, path, Basename(path)))
  {
  }

  // ---------------------------------------------------------------------
  // Lemmas

  /** Every classified name ends in a digit, in the "r" of ".rar" or the "p"
      of ".zip", or in the line feed a `$` anchor may stand before. */
  lemma ClassifiedNameEnding(path: string, present: bool)
    ensures GetMultipartInfo(path, present).Some? ==>
      var name := Basename(path);
      && |name| > 0
      && (IsDigit(name[|name| - 1]) || name[|name| - 1] in {'r', 'p', '\n'})
  {
    if GetMultipartInfo(path, present).Some? {
      var name := Basename(path);
      var n := |BaseOf(name).value|;
      BaseOfIsFirstCapture(name);
      var i :| Patterns.FirstCapture(name, i, n);
      Patterns.CapturesOnLine(Patterns.Ordered[i], name, n);
      var l := Line(name);
      Patterns.TailLastChar(Patterns.Ordered[i], l[n..]);
      assert l[|l| - 1] == l[n..][|l| - n - 1];
    }
  }

  /** No classified file ends in ".part1.7z", whatever the letter case and
      whatever directory holds it. */
  lemma ClassifiedIsNoSevenZipVolume(path: string, present: bool)
    ensures GetMultipartInfo(path, present).Some? ==> !EndsWith(Lower(path), ".part1.7z")
  {
    ClassifiedNameEnding(path, present);
    BasenameIsLastComponent(path);
    var name := Basename(path);
    if |name| > 0 {
      assert path[|path| - 1] == name[|name| - 1];
      var low := Lower(path);
      assert |path| >= 9 ==> low[|path| - 9..][8] == low[|path| - 1];
    }
  }

  /** A classified file's base name is the group of the first pattern that
      matches its file name. */
  lemma ClassifiedByFirstCapture(path: string, present: bool)
    ensures var r := GetMultipartInfo(path, present);
      r.Some? ==> exists i :: Patterns.FirstCapture(r.value.fileName, i, |r.value.baseName|)
  {
    BaseOfIsFirstCapture(Basename(path));
  }
}

/** `join_multipart_files`: name the output after the base name and format,
    then either copy the first volume of a multi-volume RAR/7z archive or
    concatenate every part, in the order given, into the output. */
module Join {
  import opened Text
  import opened Paths
  import opened Files
  import opened Classifier
  import opened PartOrder

  /** How the output is produced: a copy of one volume (the extraction tool
      finds the others next to it) or the concatenation of all parts. */
  datatype JoinMode = CopyFirstVolume(source: string) | Concatenate

  /** `TooFewParts` and `JoinFailed` are both the source's `False`; they are
      kept apart because the first never touches the disk. `bytesWritten`
      is the progress counter and `sizeWarning` the "size mismatch" note of
      the final message. */
  datatype JoinOutcome =
    | TooFewParts
    | JoinFailed
    | Joined(output: string, mode: JoinMode, bytesWritten: nat, sizeWarning: bool)

  datatype JoinResult = JoinResult(outcome: JoinOutcome, fs: FileSystem)

  /** `endswith(('.001', '.01', '.1'))` on the lower-cased first part. */
  predicate EndsWithFirstNumber(low: string) {
    EndsWith(low, ".001") || EndsWith(low, ".01") || EndsWith(low, ".1")
  }

  /** The extension given to the joined file: the format's own extension
      for rar, zip and 7z; otherwise, when the first part's path ends like a
      first numbered part, the first of ".7z.", ".zip.", ".rar." the path
      mentions; otherwise none. */
  function OutputExtension(format: Format, firstPath: string): (ext: string)
    ensures ext == "" || ext == ".rar" || ext == ".zip" || ext == ".7z"
    ensures format == Rar ==> ext == ".rar"
    ensures format == Zip ==> ext == ".zip"
    ensures format == SevenZip ==> ext == ".7z"
  {
    match format
    case Rar => ".rar"
    case Zip => ".zip"
    case SevenZip => ".7z"
    case _ =>
      var low := Lower(firstPath);
      if !EndsWithFirstNumber(low) then ""
      else if Contains(low, ".7z.") then ".7z"
      else if Contains(low, ".zip.") then ".zip"
      else if Contains(low, ".rar.") then ".rar"
      else ""
  }

  /** For the other formats an extension is taken from the first part's
      path only when that path ends like a first numbered part, and then
      ".7z." wins over ".zip.", which wins over ".rar.". */
  lemma NumberedOutputExtension(format: Format, firstPath: string)
    requires format != Rar && format != Zip && format != SevenZip
    ensures var low, ext := Lower(firstPath), OutputExtension(format, firstPath);
      && (!EndsWithFirstNumber(low) ==> ext == "")
      && (ext == ".7z" <==> EndsWithFirstNumber(low) && Contains(low, ".7z."))
      && (ext == ".zip" <==> EndsWithFirstNumber(low) && !Contains(low, ".7z.") && Contains(low, ".zip."))
      && (ext == ".rar" <==>
            EndsWithFirstNumber(low) && !Contains(low, ".7z.") && !Contains(low, ".zip.") && Contains(low, ".rar."))
  {
  }

  /** Where the joined file goes: the download directory joined with the
      base name and the extension. */
  function OutputPath(dir: string, base: string, format: Format, firstPath: string): string {
    JoinPath(dir, base + OutputExtension(format, firstPath))
  }

  /** The position `next(p for p in parts if p.lower().endswith(suffix))`
      reaches: the first part whose lower-cased path ends in `suffix`, or
      `|parts|` when there is none. */
  function FirstEndingIn(parts: seq<Part>, suffix: string): (k: nat)
    ensures k <= |parts|
    ensures k < |parts| ==> EndsWith(Lower(parts[k].path), suffix)
    ensures forall j :: 0 <= j < k ==> !EndsWith(Lower(parts[j].path), suffix)
  {
    if |parts| == 0 then 0
    else if EndsWith(Lower(parts[0].path), suffix) then 0
    else
      var k := FirstEndingIn(parts[1..], suffix);
      assert forall j :: 1 <= j < |parts| ==> parts[j] == parts[1..][j - 1];
      k + 1
  }

  /** Copy-the-first-volume for ".part1.rar" RAR sets and ".part1.7z" 7z
      sets; concatenation for everything else. The source raises "first
      part not found" when its `any` test passes but its `next` search
      fails; both look for the same suffix, so that branch cannot be taken
      and has no counterpart here. */
  function ChooseMode(format: Format, parts: seq<Part>): JoinMode {
    var rar := FirstEndingIn(parts, ".part1.rar");
    var sevenZip := FirstEndingIn(parts, ".part1.7z");
    if format == Rar && rar < |parts| then CopyFirstVolume(parts[rar].path)
    else if format == SevenZip && sevenZip < |parts| then CopyFirstVolume(parts[sevenZip].path)
    else Concatenate
  }

  /** `fs'` differs from `fs` at most at path `p`. */
  ghost predicate OnlyChanged(fs: FileSystem, fs': FileSystem, p: string) {
    forall q :: q != p ==> (q in fs <==> q in fs') && (q in fs ==> fs[q] == fs'[q])
  }

  /** The join. `readFault == Some(w)` means reading the parts fails once
      `w` bytes have been copied (an I/O error; no effect when the parts
      hold no more than `w` bytes). The caller must not ask for a concatenation into one of
      the parts themselves. */
  function JoinFiles(dir: string, base: string, parts: seq<Part>, format: Format,
                     fs: FileSystem, readFault: Option<nat>): (r: JoinResult)
    requires |parts| > 1 && ChooseMode(format, parts).Concatenate? ==>
      OutputPath(dir, base, format, parts[0].path) !in PathsOf(parts)
    ensures r.outcome.TooFewParts? <==> |parts| <= 1
    ensures |parts| <= 1 || !AllExist(fs, PathsOf(parts)) ==> r.fs == fs
    ensures |parts| > 1 ==> OnlyChanged(fs, r.fs, OutputPath(dir, base, format, parts[0].path))
    ensures r.outcome.Joined? ==>
      && AllExist(fs, PathsOf(parts))
      && r.outcome.output == OutputPath(dir, base, format, parts[0].path)
      && r.outcome.output in r.fs
      && r.outcome.mode == ChooseMode(format, parts)
      && r.outcome.bytesWritten == SumSizes(Contents(fs, PathsOf(parts)))
  {
    if |parts| <= 1 then JoinResult(TooFewParts, fs)
    else
      var out := OutputPath(dir, base, format, parts[0].path);
      var paths := PathsOf(parts);
      if !AllExist(fs, paths) then JoinResult(JoinFailed, fs)
      else
        var cs := Contents(fs, paths);
        var total := SumSizes(cs);
        match ChooseMode(format, parts)
        case CopyFirstVolume(src) =>
          assert src in paths;
          if src == out then JoinResult(JoinFailed, fs)
          else JoinResult(Joined(out, CopyFirstVolume(src), total, false), fs[out := fs[src]])
        case Concatenate =>
          var joined := Flatten(cs);
          FlattenLength(cs);
          if readFault.Some? && readFault.value < |joined| then
            JoinResult(JoinFailed, fs[out := joined[..readFault.value]])
          else
            JoinResult(Joined(out, Concatenate, |joined|, |joined| != total), fs[out := joined])
  }

  // ---------------------------------------------------------------------
  // Lemmas

  /** The "size mismatch" warning can never be raised: concatenation writes
      exactly as many bytes as the parts hold. */
  lemma SizeWarningNeverRaised(dir: string, base: string, parts: seq<Part>, format: Format,
                               fs: FileSystem, readFault: Option<nat>)
    requires |parts| > 1 && ChooseMode(format, parts).Concatenate? ==>
      OutputPath(dir, base, format, parts[0].path) !in PathsOf(parts)
    ensures var r := JoinFiles(dir, base, parts, format, fs, readFault);
      r.outcome.Joined? ==> !r.outcome.sizeWarning
  {
    var r := JoinFiles(dir, base, parts, format, fs, readFault);
    if r.outcome.Joined? && r.outcome.mode.Concatenate? {
      FlattenLength(Contents(fs, PathsOf(parts)));
    }
  }

  /** A concatenating join loses nothing: the output is as long as the
      parts together, and part `i` sits in it, unchanged, at the offset
      given by the sizes of the parts before it. */
  lemma ConcatenationKeepsEveryPart(dir: string, base: string, parts: seq<Part>, format: Format,
                                    fs: FileSystem, readFault: Option<nat>, i: nat)
    requires |parts| > 1 && ChooseMode(format, parts).Concatenate? ==>
      OutputPath(dir, base, format, parts[0].path) !in PathsOf(parts)
    requires i < |parts|
    requires var r := JoinFiles(dir, base, parts, format, fs, readFault);
      r.outcome.Joined? && r.outcome.mode.Concatenate?
    ensures var r := JoinFiles(dir, base, parts, format, fs, readFault);
      var cs := Contents(fs, PathsOf(parts));
      && |r.fs[r.outcome.output]| == SumSizes(cs)
      && SumSizes(cs[..i]) + |fs[parts[i].path]| <= SumSizes(cs)
      && r.fs[r.outcome.output][SumSizes(cs[..i])..SumSizes(cs[..i]) + |fs[parts[i].path]|]
         == fs[parts[i].path]
  {
    var cs := Contents(fs, PathsOf(parts));
    FlattenLength(cs);
    FlattenSlice(cs, i);
  }

  /** A read error after `w` bytes leaves the first `w` bytes of the full
      concatenation in the output and reports failure. */
  lemma ReadFaultLeavesPrefix(dir: string, base: string, parts: seq<Part>, format: Format,
                              fs: FileSystem, w: nat)
    requires |parts| > 1 && ChooseMode(format, parts).Concatenate?
    requires OutputPath(dir, base, format, parts[0].path) !in PathsOf(parts)
    requires AllExist(fs, PathsOf(parts))
    requires w < SumSizes(Contents(fs, PathsOf(parts)))
    ensures var r := JoinFiles(dir, base, parts, format, fs, Some(w));
      var full := Flatten(Contents(fs, PathsOf(parts)));
      && r.outcome.JoinFailed?
      && w <= |full|
      && r.fs[OutputPath(dir, base, format, parts[0].path)] == full[..w]
  {
    FlattenLength(Contents(fs, PathsOf(parts)));
  }

  /** The copy branch is taken only for a RAR set with a ".part1.rar"
      volume or a 7z set with a ".part1.7z" volume, it copies the first such
      volume in list order, and the output then holds exactly its bytes. */
  lemma CopyIsOfFirstVolume(dir: string, base: string, parts: seq<Part>, format: Format,
                            fs: FileSystem, readFault: Option<nat>)
    requires |parts| > 1 && ChooseMode(format, parts).Concatenate? ==>
      OutputPath(dir, base, format, parts[0].path) !in PathsOf(parts)
    ensures var r := JoinFiles(dir, base, parts, format, fs, readFault);
      r.outcome.Joined? && r.outcome.mode.CopyFirstVolume? ==>
        var src := r.outcome.mode.source;
        var suffix := if format == Rar then ".part1.rar" else ".part1.7z";
        && (format == Rar || format == SevenZip)
        && EndsWith(Lower(src), suffix)
        && (forall i :: 0 <= i < |parts| && EndsWith(Lower(parts[i].path), suffix) ==>
              exists j :: 0 <= j <= i && parts[j].path == src)
        && src in fs
        && r.fs[r.outcome.output] == fs[src]
  {
    var r := JoinFiles(dir, base, parts, format, fs, readFault);
    if r.outcome.Joined? && r.outcome.mode.CopyFirstVolume? {
      var src := r.outcome.mode.source;
      var i :| 0 <= i < |parts| && parts[i].path == src;
      assert PathsOf(parts)[i] == src;
    }
  }

  /** A join with at least two parts, all present, succeeds exactly when no
      fault strikes: no read error within the parts and, when copying, the
      volume is not copied onto itself. */
  lemma JoinSucceedsExactlyWithoutFaults(dir: string, base: string, parts: seq<Part>, format: Format,
                                         fs: FileSystem, readFault: Option<nat>)
    requires |parts| > 1 && AllExist(fs, PathsOf(parts))
    requires ChooseMode(format, parts).Concatenate? ==>
      OutputPath(dir, base, format, parts[0].path) !in PathsOf(parts)
    ensures var r := JoinFiles(dir, base, parts, format, fs, readFault);
      var out := OutputPath(dir, base, format, parts[0].path);
      r.outcome.Joined? <==>
        match ChooseMode(format, parts)
        case CopyFirstVolume(src) => src != out
        case Concatenate =>
          readFault.None? || readFault.value >= SumSizes(Contents(fs, PathsOf(parts)))
  {
    FlattenLength(Contents(fs, PathsOf(parts)));
  }

  /** With at least two parts, all present, an output that is not one of
      them and no read error, the join succeeds, whichever mode it picks. */
  lemma JoinSucceedsWithoutFaults(dir: string, base: string, parts: seq<Part>, format: Format, fs: FileSystem)
    requires |parts| > 1 && AllExist(fs, PathsOf(parts))
    requires OutputPath(dir, base, format, parts[0].path) !in PathsOf(parts)
    ensures JoinFiles(dir, base, parts, format, fs, None).outcome.Joined?
  {
    JoinSucceedsExactlyWithoutFaults(dir, base, parts, format, fs, None);
    CopySourceIsAPart(format, parts);
  }

  /** The volume the copy branch copies is one of the parts. */
  lemma CopySourceIsAPart(format: Format, parts: seq<Part>)
    ensures ChooseMode(format, parts).CopyFirstVolume? ==> ChooseMode(format, parts).source in PathsOf(parts)
  {
    var rar := FirstEndingIn(parts, ".part1.rar");
    var sevenZip := FirstEndingIn(parts, ".part1.7z");
    assert rar < |parts| ==> PathsOf(parts)[rar] == parts[rar].path;
    assert sevenZip < |parts| ==> PathsOf(parts)[sevenZip] == parts[sevenZip].path;
  }
}

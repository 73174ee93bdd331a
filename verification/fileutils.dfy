/** The stand-alone file utilities: `binary_concat_files`, the stricter
    chunked concatenation, and the two small classifiers
    `get_multipart_type` and `is_self_extracting_archive`. */
module FileUtils {
  import opened Text
  import opened Paths
  import opened Files
  import opened PartOrder
  import opened Helpers

  /** The default `chunk_size`: 8 MiB per read. */
  const DefaultChunkSize: int := 8 * 1024 * 1024

  function Min(a: int, b: int): int { if a <= b then a else b }

  // ---------------------------------------------------------------------
  // binary_concat_files

  /** An I/O error: opening or reading the part at position `part` of the
      sorted list raises on its read number `atRead` (counting from 0), so
      `atRead` chunks of that part have been copied when it strikes. */
  datatype ReadFault = ReadFault(part: nat, atRead: nat)

  /** A size a binary file's `read` accepts: it raises `ValueError` for
      any size below -1. */
  predicate ValidChunkSize(chunkSize: int) {
    chunkSize >= -1
  }

  /** `read(chunk_size)` at offset `pos`: at most `chunkSize` bytes when it
      is positive, the rest of the file for -1, nothing for 0, and `None`
      when the size is below -1 and the read raises. */
  function ReadChunk(c: seq<byte>, pos: nat, chunkSize: int): (chunk: Option<seq<byte>>)
    requires pos <= |c|
    ensures chunk.None? <==> !ValidChunkSize(chunkSize)
    ensures chunk.Some? ==> pos + |chunk.value| <= |c| && chunk.value == c[pos..pos + |chunk.value|]
    ensures chunk.Some? ==> (chunk.value == [] <==> chunkSize == 0 || pos == |c|)
    ensures chunk.Some? && chunkSize == -1 ==> pos + |chunk.value| == |c|
  {
    if !ValidChunkSize(chunkSize) then None
    else if chunkSize == 0 then Some([])
    else if chunkSize == -1 then Some(c[pos..])
    else Some(c[pos..Min(pos + chunkSize, |c|)])
  }

  /** How far one read advances through a file of `n` bytes. */
  function Step(chunkSize: int, n: nat): nat
    requires chunkSize != 0
  {
    if chunkSize > 0 then chunkSize else n
  }

  /** Whether the copy loop of a file of `n` bytes makes read number `j`:
      the first read always happens, each later one only after a read that
      returned bytes. */
  predicate ReadHappens(n: nat, chunkSize: int, j: nat) {
    j == 0 || (chunkSize != 0 && ValidChunkSize(chunkSize) && (j - 1) * Step(chunkSize, n) < n)
  }

  /** The bytes of a file of `n` bytes copied before its read number `j`. */
  function CopiedBefore(n: nat, chunkSize: int, j: nat): nat {
    if chunkSize == 0 || !ValidChunkSize(chunkSize) then 0 else Min(j * Step(chunkSize, n), n)
  }

  /** The offset in the output at which the copy stops with an error: at 0
      when the chunk size makes the first read raise, otherwise where
      `fault` strikes, when the read it names is made at all. */
  function FaultStop(cs: seq<seq<byte>>, chunkSize: int, fault: Option<ReadFault>): Option<nat> {
    if !ValidChunkSize(chunkSize) then (if |cs| > 0 then Some(0) else None)
    else if fault.Some? && fault.value.part < |cs|
       && ReadHappens(|cs[fault.value.part]|, chunkSize, fault.value.atRead)
    then
      if chunkSize == 0 then Some(0)
      else Some(SumSizes(cs[..fault.value.part])
                + CopiedBefore(|cs[fault.value.part]|, chunkSize, fault.value.atRead))
    else None
  }

  /** The copy loop of one part: read chunks and append them to the output
      until a read comes back empty. `failAt == Some(j)` makes read number
      `j` raise, and a chunk size below -1 makes the first read raise.
      Returns the bytes appended and whether a read raised. */
  method CopyPart(c: seq<byte>, chunkSize: int, failAt: Option<nat>) returns (copied: seq<byte>, failed: bool)
    ensures !ValidChunkSize(chunkSize) ==> failed && copied == []
    ensures ValidChunkSize(chunkSize) ==> (failed <==> failAt.Some? && ReadHappens(|c|, chunkSize, failAt.value))
    ensures ValidChunkSize(chunkSize) && failed ==> copied == c[..CopiedBefore(|c|, chunkSize, failAt.value)]
    ensures !failed ==> copied == if chunkSize == 0 then [] else c
  {
    copied := [];
    var r: nat := 0;
    while true
      invariant |copied| <= |c|
      invariant |copied| == CopiedBefore(|c|, chunkSize, r)
      invariant copied == c[..|copied|]
      invariant ReadHappens(|c|, chunkSize, r)
      invariant failAt.Some? ==> failAt.value >= r
      decreases |c| - |copied|
    {
      if failAt == Some(r) {
        return copied, true;
      }
      var chunk := ReadChunk(c, |copied|, chunkSize);
      if chunk.None? {
        return copied, true;
      }
      if chunk.value == [] {
        NoReadAfterEnd(|c|, chunkSize, r);
        return copied, false;
      }
      ReadAdvances(|c|, chunkSize, r);
      copied := copied + chunk.value;
      r := r + 1;
    }
  }

  /** `binary_concat_files(parts, output_path, chunk_size)`. The parts are
      sorted by part number first (the caller's list is sorted in place,
      returned as `sorted`); a part missing when the sizes are totalled
      gives `(false, 0)` before the output is opened; otherwise the output
      is created and every part copied into it chunk by chunk. A fault stops
      the copy and gives `false` with the bytes written so far; a finished
      copy is `true` exactly when the output is as large as the parts
      together, which with a non-zero chunk size it always is. A chunk size
      below -1 makes the first read raise: `(false, 0)` with an empty
      output. The output must not be one of the parts. */
  method BinaryConcatFiles(parts: seq<Part>, output: string, fs: FileSystem,
                           chunkSize: int, fault: Option<ReadFault>)
    returns (ok: bool, written: nat, sorted: seq<Part>, fs': FileSystem)
    requires forall i :: 0 <= i < |parts| ==> parts[i].path != output
    ensures sorted == SortParts(parts)
    ensures !AllExist(fs, PathsOf(sorted)) ==> !ok && written == 0 && fs' == fs
    ensures AllExist(fs, PathsOf(sorted)) ==>
      var cs := Contents(fs, PathsOf(sorted));
      var stop := FaultStop(cs, chunkSize, fault);
      && |Flatten(cs)| == SumSizes(cs)
      && written <= SumSizes(cs)
      && fs' == fs[output := Flatten(cs)[..written]]
      && (stop.Some? ==> !ok && written == stop.value)
      && (stop.None? ==> written == (if chunkSize == 0 then 0 else SumSizes(cs)))
      && (stop.None? ==> (ok <==> written == SumSizes(cs)))
    ensures AllExist(fs, PathsOf(sorted)) && !ValidChunkSize(chunkSize) && |parts| > 0 ==>
      !ok && written == 0 && fs' == fs[output := []]
    ensures ok ==> IsFileComplete(output, Some(written), fs')
  {
    sorted := SortParts(parts);
    var paths := PathsOf(sorted);
    if !AllExist(fs, paths) {
      return false, 0, sorted, fs;
    }
    var cs := Contents(fs, paths);
    FlattenLength(cs);
    var out: seq<byte> := [];
    var i := 0;
    while i < |cs|
      invariant i <= |cs|
      invariant out == if chunkSize == 0 then [] else Flatten(cs[..i])
      invariant !ValidChunkSize(chunkSize) ==> i == 0
      invariant !(fault.Some? && fault.value.part < i
                  && ReadHappens(|cs[fault.value.part]|, chunkSize, fault.value.atRead))
    {
      var failAt := if fault.Some? && fault.value.part == i then Some(fault.value.atRead) else None;
      var copied, failed := CopyPart(cs[i], chunkSize, failAt);
      if failed {
        if ValidChunkSize(chunkSize) {
          FaultLeavesPrefix(cs, i, chunkSize, fault.value.atRead, out, copied);
        }
        out := out + copied;
        return false, |out|, sorted, fs[output := out];
      }
      if chunkSize != 0 {
        FlattenInit(cs, i);
        assert out + copied == Flatten(cs[..i + 1]);
      }
      out := out + copied;
      i := i + 1;
    }
    assert cs[..i] == cs;
    assert out == Flatten(cs)[..|out|];
    ok := |out| == SumSizes(cs);
    written := |out|;
    fs' := fs[output := out];
  }

  // ---------------------------------------------------------------------
  // get_multipart_type

  datatype MultipartType = UnknownType | Volumed | Split | Standard

  /** The lower-cased basename of part `i`, as the type test sees it. */
  function SampleName(parts: seq<Part>, i: nat): string
    requires i < |parts|
  {
    Lower(Basename(parts[i].path))
  }

  predicate SplitName(name: string) {
    EndsWith(name, ".001") || EndsWith(name, ".002") || EndsWith(name, ".r01") || EndsWith(name, ".r02")
  }

  /** The lower-cased basenames of the first three parts. */
  function Sample(parts: seq<Part>): (names: seq<string>)
    ensures |names| == Min(3, |parts|)
    ensures forall i :: 0 <= i < |names| ==> names[i] == SampleName(parts, i)
  {
    seq(Min(3, |parts|), i requires 0 <= i < Min(3, |parts|) => SampleName(parts, i))
  }

  /** The type read off the sampled names. */
  function TypeOfSample(names: seq<string>): MultipartType {
    if exists i :: 0 <= i < |names| && Contains(names[i], ".part") then Volumed
    else if exists i :: 0 <= i < |names| && SplitName(names[i]) then Split
    else Standard
  }

  /** `get_multipart_type(parts)`: "unknown" for no parts; otherwise
      "volumed" when one of the first three names mentions ".part",
      "split" when one of them ends like a numbered or ".rNN" piece, and
      "standard" else. */
  function GetMultipartType(parts: seq<Part>): (t: MultipartType)
    ensures t == UnknownType <==> |parts| == 0
    ensures t == Volumed <==>
      exists i :: 0 <= i < Min(3, |parts|) && Contains(SampleName(parts, i), ".part")
    ensures t == Split <==>
      && (forall i :: 0 <= i < Min(3, |parts|) ==> !Contains(SampleName(parts, i), ".part"))
      && (exists i :: 0 <= i < Min(3, |parts|) && SplitName(SampleName(parts, i)))
  {
    if |parts| == 0 then UnknownType else TypeOfSample(Sample(parts))
  }

  // ---------------------------------------------------------------------
  // is_self_extracting_archive

  /** The "MZ" signature of a Windows executable. */
  const ExecutableSignature: seq<byte> := [0x4D, 0x5A]

  predicate ExecutableSuffix(path: string) {
    Lower(Suffix(path)) == ".exe" || Lower(Suffix(path)) == ".sfx"
  }

  /** `is_self_extracting_archive(path)`. `readFails` stands for an error
      raised while reading the header, which the source swallows. */
  function IsSelfExtractingArchive(path: string, fs: FileSystem, readFails: bool): (r: bool)
    ensures path !in fs ==> !r
    ensures path in fs && ExecutableSuffix(path) ==> r
    ensures path in fs && !ExecutableSuffix(path) ==>
      (r <==> !readFails && |fs[path]| >= 2 && fs[path][..2] == ExecutableSignature)
  {
    if path !in fs then false
    else if ExecutableSuffix(path) then true
    else if readFails then false
    else
      var header := fs[path][..Min(8, |fs[path]|)];
      |header| >= 2 && header[..2] == ExecutableSignature
  }

  // ---------------------------------------------------------------------
  // Lemmas

  lemma FlattenInit(cs: seq<seq<byte>>, i: nat)
    requires i < |cs|
    ensures Flatten(cs[..i + 1]) == Flatten(cs[..i]) + cs[i]
  {
    assert cs[..i + 1][..i] == cs[..i];
  }

  /** The bytes of the first `k` files start the bytes of all of them. */
  lemma {:induction false} FlattenPrefixOfAll(cs: seq<seq<byte>>, k: nat)
    requires k <= |cs|
    ensures Flatten(cs[..k]) <= Flatten(cs)
    decreases |cs|
  {
    if k < |cs| {
      var init := cs[..|cs| - 1];
      FlattenPrefixOfAll(init, k);
      assert init[..k] == cs[..k];
    } else {
      assert cs[..k] == cs;
    }
  }

  /** Stopping inside file `i` after `p` of its bytes leaves a prefix of the
      full concatenation. */
  lemma FlattenPrefix(cs: seq<seq<byte>>, i: nat, p: nat)
    requires i < |cs| && p <= |cs[i]|
    ensures |Flatten(cs[..i])| + p <= |Flatten(cs)|
    ensures Flatten(cs[..i]) + cs[i][..p] == Flatten(cs)[..|Flatten(cs[..i])| + p]
  {
    FlattenInit(cs, i);
    FlattenPrefixOfAll(cs, i + 1);
  }

  /** A fault inside part `i` leaves the output a prefix of the full
      concatenation, as long as the fault's offset says. */
  lemma FaultLeavesPrefix(cs: seq<seq<byte>>, i: nat, chunkSize: int, j: nat, out: seq<byte>, copied: seq<byte>)
    requires ValidChunkSize(chunkSize)
    requires i < |cs| && ReadHappens(|cs[i]|, chunkSize, j)
    requires out == if chunkSize == 0 then [] else Flatten(cs[..i])
    requires copied == cs[i][..CopiedBefore(|cs[i]|, chunkSize, j)]
    ensures FaultStop(cs, chunkSize, Some(ReadFault(i, j))) == Some(|out + copied|)
    ensures |out + copied| <= |Flatten(cs)|
    ensures out + copied == Flatten(cs)[..|out + copied|]
  {
    FlattenLength(cs[..i]);
    if chunkSize != 0 {
      FlattenPrefix(cs, i, CopiedBefore(|cs[i]|, chunkSize, j));
    }
  }

  /** A read that returned bytes moves the copy position one step on and
      allows the next read. */
  lemma ReadAdvances(n: nat, chunkSize: int, r: nat)
    requires chunkSize != 0 && ValidChunkSize(chunkSize)
    requires CopiedBefore(n, chunkSize, r) < n
    ensures ReadHappens(n, chunkSize, r + 1)
    ensures CopiedBefore(n, chunkSize, r + 1)
         == if chunkSize > 0 then Min(CopiedBefore(n, chunkSize, r) + chunkSize, n) else n
  {
    var s := Step(chunkSize, n);
    assert (r + 1) * s == r * s + s;
  }

  lemma MulMonotone(a: nat, b: nat, s: nat)
    requires a <= b
    ensures a * s <= b * s
  {
    assert b * s == a * s + (b - a) * s;
  }

  /** Once a read comes back empty, no later read is made. */
  lemma NoReadAfterEnd(n: nat, chunkSize: int, r: nat)
    requires chunkSize == 0 || CopiedBefore(n, chunkSize, r) == n
    ensures forall j :: r < j ==> !ReadHappens(n, chunkSize, j)
  {
    if chunkSize != 0 {
      var s := Step(chunkSize, n);
      assert r * s >= n;
      forall j | r < j
        ensures !ReadHappens(n, chunkSize, j)
      {
        MulMonotone(r, j - 1, s);
      }
    }
  }

  /** The type depends only on the lower-cased basenames of the first three
      parts: the rest of the list, the directories and the letter case do
      not matter. */
  lemma TypeSamplesFirstThree(a: seq<Part>, b: seq<Part>)
    requires |a| == 0 <==> |b| == 0
    requires Min(3, |a|) == Min(3, |b|)
    requires forall i :: 0 <= i < Min(3, |a|) ==> SampleName(a, i) == SampleName(b, i)
    ensures GetMultipartType(a) == GetMultipartType(b)
  {
    assert Sample(a) == Sample(b);
  }

  /** An executable suffix decides alone: neither the bytes on disk nor a
      read error change the answer. */
  lemma ExecutableSuffixNeedsNoRead(path: string, fs: FileSystem, bytes: seq<byte>, readFails: bool)
    requires ExecutableSuffix(path)
    ensures IsSelfExtractingArchive(path, fs[path := bytes], readFails)
  {
  }

  /** Only the first two bytes of the header matter. */
  lemma SignatureIsTwoBytes(path: string, fs: FileSystem, rest: seq<byte>)
    requires !ExecutableSuffix(path)
    ensures IsSelfExtractingArchive(path, fs[path := ExecutableSignature + rest], false)
  {
    assert (ExecutableSignature + rest)[..2] == ExecutableSignature;
  }
}

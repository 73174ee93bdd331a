/** Byte contents and a snapshot of the download directory as a map from
    path to the bytes of the regular file stored there. */
module Files {

  newtype byte = b: int | 0 <= b < 256

  /** Regular files on disk, keyed by path. A path that is not a key does not
      exist. */
  type FileSystem = map<string, seq<byte>>

  /** The bytes of several files written one after the other. */
  function Flatten(cs: seq<seq<byte>>): seq<byte> {
    if |cs| == 0 then [] else Flatten(cs[..|cs| - 1]) + cs[|cs| - 1]
  }

  /** Sum of the sizes of several files. */
  function SumSizes(cs: seq<seq<byte>>): nat {
    if |cs| == 0 then 0 else SumSizes(cs[..|cs| - 1]) + |cs[|cs| - 1]|
  }

  predicate AllExist(fs: FileSystem, paths: seq<string>) {
    forall i :: 0 <= i < |paths| ==> paths[i] in fs
  }

  /** The contents of the named files, in the given order. */
  function Contents(fs: FileSystem, paths: seq<string>): (cs: seq<seq<byte>>)
    requires AllExist(fs, paths)
    ensures |cs| == |paths|
    ensures forall i :: 0 <= i < |paths| ==> cs[i] == fs[paths[i]]
  {
    seq(|paths|, i requires 0 <= i < |paths| => fs[paths[i]])
  }

  // ---------------------------------------------------------------------
  // Lemmas

  /** Writing files one after the other produces as many bytes as they hold
      together. */
  lemma {:induction false} FlattenLength(cs: seq<seq<byte>>)
    ensures |Flatten(cs)| == SumSizes(cs)
  {
    if |cs| > 0 {
      FlattenLength(cs[..|cs| - 1]);
    }
  }

  lemma {:induction false} SumSizesPrefixMonotone(cs: seq<seq<byte>>, i: nat, j: nat)
    requires i <= j <= |cs|
    ensures SumSizes(cs[..i]) <= SumSizes(cs[..j])
    decreases j - i
  {
    if i < j {
      SumSizesPrefixMonotone(cs, i, j - 1);
      assert cs[..j][..j - 1] == cs[..j - 1];
    }
  }

  /** Concatenation is lossless: file `i` can be cut back out of the joined
      bytes at the offset given by the sizes of the files before it. */
  lemma {:induction false} FlattenSlice(cs: seq<seq<byte>>, i: nat)
    requires i < |cs|
    ensures SumSizes(cs[..i]) + |cs[i]| == SumSizes(cs[..i + 1])
    ensures SumSizes(cs[..i + 1]) <= |Flatten(cs)|
    ensures Flatten(cs)[SumSizes(cs[..i])..SumSizes(cs[..i + 1])] == cs[i]
    decreases |cs|
  {
    var n := |cs|;
    assert cs[..i + 1][..i] == cs[..i];
    assert cs[..n] == cs;
    FlattenLength(cs);
    FlattenLength(cs[..n - 1]);
    if i == n - 1 {
      FlattenLength(cs[..i]);
    } else {
      var init := cs[..n - 1];
      FlattenSlice(init, i);
      assert init[..i] == cs[..i];
      assert init[..i + 1] == cs[..i + 1];
      assert init[i] == cs[i];
    }
  }

  /** Appending one more file extends the joined bytes. */
  lemma FlattenSnoc(cs: seq<seq<byte>>, c: seq<byte>)
    ensures Flatten(cs + [c]) == Flatten(cs) + c
    ensures SumSizes(cs + [c]) == SumSizes(cs) + |c|
  {
    assert (cs + [c])[..|cs|] == cs;
  }
}

/** `is_file_complete`: a file counts as complete when it exists and, if a
    size is expected, has exactly that size. */
module Helpers {
  import opened Text
  import opened Files

  function IsFileComplete(path: string, expectedSize: Option<int>, fs: FileSystem): (r: bool)
    ensures path !in fs ==> !r
    ensures path in fs && expectedSize.None? ==> r
    ensures path in fs && expectedSize.Some? ==> (r <==> |fs[path]| == expectedSize.value)
  {
    if path !in fs then false
    else if expectedSize.Some? && |fs[path]| != expectedSize.value then false
    else true
  }

  // ---------------------------------------------------------------------
  // Lemmas

  /** A file written as the concatenation of several files is complete
      against the sum of their sizes, and against no other size. */
  lemma ConcatenationIsComplete(path: string, cs: seq<seq<byte>>, fs: FileSystem, n: int)
    ensures IsFileComplete(path, Some(n), fs[path := Flatten(cs)]) <==> n == SumSizes(cs)
  {
    FlattenLength(cs);
  }
}

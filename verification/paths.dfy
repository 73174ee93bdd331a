/** POSIX path helpers as Python's `posixpath` and `pathlib` compute them on
    plain strings. */
module Paths {
  import opened Text

  /** A name as `os.listdir` returns it: non-empty and free of '/'. */
  predicate EntryName(n: string) {
    |n| > 0 && forall i :: 0 <= i < |n| ==> n[i] != '/'
  }

  /** `os.path.join(dir, name)` for two components. */
  function JoinPath(dir: string, name: string): string {
    if StartsWith(name, "/") then name
    else if dir == [] || EndsWith(dir, "/") then dir + name
    else dir + "/" + name
  }

  /** `os.path.basename(p)`: everything after the last '/'. */
  function Basename(p: string): string {
    p[|p| - TrailingRun(p, NonSlash)..]
  }

  /** `pathlib.PurePath(p).suffix`: the last component's final ".ext", empty
      when the only dot leads the name or ends it. */
  function Suffix(p: string): string
  {
    var name := Basename(p);
    var i := |name| - TrailingRun(name, NonDot) - 1;
    if 0 < i < |name| - 1 then name[i..] else []
  }

  // ---------------------------------------------------------------------
  // Lemmas

  /** The basename is the longest slash-free tail of the path. */
  lemma BasenameIsLastComponent(p: string)
    ensures EndsWith(p, Basename(p))
    ensures forall i :: 0 <= i < |Basename(p)| ==> Basename(p)[i] != '/'
    ensures |Basename(p)| < |p| ==> p[|p| - |Basename(p)| - 1] == '/'
  {
    TrailingRunIsMaximal(p, NonSlash);
  }

  /** Joining a directory entry onto its directory and taking the basename
      gives the entry back. */
  lemma BasenameOfJoin(dir: string, name: string)
    requires EntryName(name)
    ensures Basename(JoinPath(dir, name)) == name
  {
    assert name[0] != '/';
    assert !StartsWith(name, "/");
    if dir == [] || EndsWith(dir, "/") {
      assert dir != [] ==> dir[|dir| - 1] == dir[|dir| - 1..][0];
      BasenameAfterSlash(dir, name);
    } else {
      assert dir + "/" + name == (dir + "/") + name;
      BasenameAfterSlash(dir + "/", name);
    }
  }

  /** After a '/' the basename is whatever follows it. */
  lemma BasenameAfterSlash(pre: string, name: string)
    requires EntryName(name) && (|pre| > 0 ==> pre[|pre| - 1] == '/')
    ensures Basename(pre + name) == name
  {
    var p := pre + name;
    assert forall i :: |pre| <= i < |p| ==> InClass(p[i], NonSlash) by {
      forall i | |pre| <= i < |p| ensures InClass(p[i], NonSlash) {
        assert p[i] == name[i - |pre|];
      }
    }
    assert |pre| > 0 ==> !InClass(p[|pre| - 1], NonSlash);
    TrailingRunAt(p, |pre|, NonSlash);
    assert p[|pre|..] == name;
  }

  /** Two entries of the same directory have the same path only if they are
      the same entry. */
  lemma JoinPathInjective(dir: string, a: string, b: string)
    requires EntryName(a) && EntryName(b)
    requires JoinPath(dir, a) == JoinPath(dir, b)
    ensures a == b
  {
    BasenameOfJoin(dir, a);
    BasenameOfJoin(dir, b);
  }

  /** The last dot of `stem.ext` is the one before `ext`. */
  lemma LastDotBeforeExtension(stem: string, ext: string)
    requires forall i :: 0 <= i < |ext| ==> ext[i] != '.'
    ensures TrailingRun(stem + "." + ext, NonDot) == |ext|
  {
    var head := stem + ".";
    assert stem + "." + ext == head + ext;
    assert head[|head| - 1] == '.';
    assert forall i :: 0 <= i < |ext| ==> InClass(ext[i], NonDot);
    TrailingRunOfAppend(head, ext, NonDot);
  }

  lemma SuffixOfBasename(p: string, stem: string, ext: string)
    requires Basename(p) == stem + "." + ext
    requires |stem| > 0 && |ext| > 0 && forall i :: 0 <= i < |ext| ==> ext[i] != '.'
    ensures Suffix(p) == "." + ext
  {
    LastDotBeforeExtension(stem, ext);
    assert (stem + "." + ext)[|stem|..] == "." + ext;
  }

  /** The suffix of `stem.ext` is ".ext" when the stem is non-empty and the
      extension holds no dot. */
  lemma SuffixOfEntry(dir: string, stem: string, ext: string)
    requires EntryName(stem + "." + ext)
    requires |stem| > 0 && |ext| > 0 && forall i :: 0 <= i < |ext| ==> ext[i] != '.'
    ensures Suffix(JoinPath(dir, stem + "." + ext)) == "." + ext
  {
    BasenameOfJoin(dir, stem + "." + ext);
    SuffixOfBasename(JoinPath(dir, stem + "." + ext), stem, ext);
  }
}

/** Two parts of one archive finishing less than three seconds apart. As
    written, the first check finds the second part still downloading, the
    second check falls inside the debounce of the first, and nothing ever
    checks again: the archive is never joined although every part is on
    disk and complete. With the retry the archive is joined. */
module LostJoin {
  import opened Text
  import opened Paths
  import opened Files
  import opened Classifier
  import opened Gate
  import opened Downloads
  import opened NameShapes

  /** Both parts on disk. */
  function Disk(dir: string, n1: string, n2: string): FileSystem {
    map[JoinPath(dir, n1) := [1 as byte], JoinPath(dir, n2) := [2 as byte]]
  }

  /** Nothing checked yet, both downloads running. */
  function Start(dir: string, n1: string, n2: string): RunState {
    RunState(map[], [Record(n1, false), Record(n2, false)], Disk(dir, n1, n2), [])
  }

  /** The first part complete, its check stamped. */
  function AfterFirst(dir: string, n1: string, n2: string, base: string, t1: real): RunState {
    RunState(map[base := t1], [Record(n1, true), Record(n2, false)], Disk(dir, n1, n2), [PendingParts])
  }

  /** Part 1 finishes at `t1`. */
  function FirstDone(t1: real): (cs: seq<Completion>)
    ensures |cs| == 1 && cs[0] == Completion(0, t1)
    ensures forall records: seq<Record> | |records| == 2 :: Registered(records, cs)
  {
    [Completion(0, t1)]
  }

  /** Part 1 finishes at `t1`, then part 2 at `t2`. */
  function BothDone(t1: real, t2: real): (cs: seq<Completion>)
    ensures |cs| == 2 && cs[..1] == FirstDone(t1) && cs[1] == Completion(1, t2)
    ensures forall records: seq<Record> | |records| == 2 :: Registered(records, cs)
  {
    [Completion(0, t1), Completion(1, t2)]
  }

  /** Two distinct regular files of the download directory, both parts of
      the archive `base`. */
  predicate TwoParts(dir: string, n1: string, n2: string, base: string) {
    && EntryNames([n1, n2])
    && n1 != n2
    && JoinPath(dir, n1) != JoinPath(dir, n2)
    && ClassifiedAs(JoinPath(dir, n1), true, base)
    && ClassifiedAs(JoinPath(dir, n2), true, base)
  }

  lemma PairFacts<T>(a: T, b: T)
    ensures [a, b] == [a] + [b] && [a, b][..1] == [a] && [a][..0] == []
    ensures [a] + [] == [a] && [b] + [] == [b]
  {
  }

  /** With every download complete, nothing is pending. */
  lemma NothingPending(dir: string, records: seq<Record>, fs: FileSystem, base: string)
    requires forall i :: 0 <= i < |records| ==> records[i].complete
    ensures !HasPendingPart(dir, records, fs, base)
  {
  }

  lemma MarkPair(n1: string, n2: string, done1: bool, done2: bool, id: nat)
    requires id < 2
    ensures MarkComplete([Record(n1, done1), Record(n2, done2)], id)
         == [Record(n1, done1 || id == 0), Record(n2, done2 || id == 1)]
  {
  }

  /** The first part finishes: its check sees the second one still
      downloading and stamps the base. */
  lemma FirstCompletion(dir: string, n1: string, n2: string, base: string, t1: real)
    requires TwoParts(dir, n1, n2, base)
    ensures RunAsWritten(dir, [n1, n2], Start(dir, n1, n2), FirstDone(t1)) == AfterFirst(dir, n1, n2, base, t1)
  {
    var s := Start(dir, n1, n2);
    var c := Completion(0, t1);
    RunOfOne(dir, [n1, n2], s, FirstDone(t1));
    MarkPair(n1, n2, false, false, 0);
    PendingFinish(dir, [n1, n2], s, c, GetMultipartInfo(JoinPath(dir, n1), true).value, 1);
  }

  /** The second part finishes less than three seconds later: its check is
      dropped by the debounce. */
  lemma SecondCompletion(dir: string, n1: string, n2: string, base: string, t1: real, t2: real)
    requires TwoParts(dir, n1, n2, base)
    requires t2 - t1 < DebounceSeconds
    ensures FinishDownload(dir, [n1, n2], AfterFirst(dir, n1, n2, base, t1), Completion(1, t2)).run
        == RunState(map[base := t1], [Record(n1, true), Record(n2, true)], Disk(dir, n1, n2), [PendingParts, TooSoon])
  {
    SecondPartInfo(dir, n1, n2, base, t1);
    SecondCompletionOf(dir, n1, n2, base, t1, t2, GetMultipartInfo(JoinPath(dir, n2), true).value);
  }

  lemma SecondCompletionOf(dir: string, n1: string, n2: string, base: string, t1: real, t2: real, info: FileInfo)
    requires EntryNames([n1, n2])
    requires GetMultipartInfo(JoinPath(dir, n2), true) == Some(info) && info.baseName == base
    requires t2 - t1 < DebounceSeconds
    ensures FinishDownload(dir, [n1, n2], AfterFirst(dir, n1, n2, base, t1), Completion(1, t2)).run
        == RunState(map[base := t1], [Record(n1, true), Record(n2, true)], Disk(dir, n1, n2), [PendingParts, TooSoon])
  {
    var s := AfterFirst(dir, n1, n2, base, t1);
    assert JoinPath(dir, s.records[1].fileName) in s.fs;
    MarkPair(n1, n2, true, false, 1);
    DebouncedFinish(dir, [n1, n2], s, Completion(1, t2), info);
  }

  /** Both parts are collected. */
  lemma BothPartsCollected(dir: string, n1: string, n2: string, base: string)
    requires TwoParts(dir, n1, n2, base)
    ensures |CollectParts(dir, [n1, n2], Disk(dir, n1, n2), base)| == 2
  {
    PairFacts(n1, n2);
    CollectPartsAppend(dir, [n1], [n2], Disk(dir, n1, n2), base);
    CollectPartsLeading(dir, n1, [], Disk(dir, n1, n2), base);
    CollectPartsLeading(dir, n2, [], Disk(dir, n1, n2), base);
  }

  /** As written, the two checks run and neither joins; afterwards both
      parts are complete and on disk, and no further check is scheduled. */
  lemma {:induction false} LostJoinAsWritten(dir: string, n1: string, n2: string, base: string, t1: real, t2: real)
    requires TwoParts(dir, n1, n2, base)
    requires t2 - t1 < DebounceSeconds
    ensures var r := RunAsWritten(dir, [n1, n2], Start(dir, n1, n2), BothDone(t1, t2));
      && r.log == [PendingParts, TooSoon]
      && r.records == [Record(n1, true), Record(n2, true)]
      && r.fs == Disk(dir, n1, n2)
      && |CollectParts(dir, [n1, n2], r.fs, base)| == 2
  {
    FirstCompletion(dir, n1, n2, base, t1);
    SecondCompletion(dir, n1, n2, base, t1, t2);
    BothPartsCollected(dir, n1, n2, base);
    RunOfTwo(dir, [n1, n2], Start(dir, n1, n2), BothDone(t1, t2));
  }

  /** With the retry, a third check five seconds after the second joins the
      archive. */
  lemma {:induction false} LostJoinFixedByRetry(dir: string, n1: string, n2: string, base: string, t1: real, t2: real)
    requires TwoParts(dir, n1, n2, base)
    requires t1 <= t2 && t2 - t1 < DebounceSeconds
    ensures var log := RunWithRetry(dir, [n1, n2], Start(dir, n1, n2), BothDone(t1, t2)).log;
      |log| == 3 && log[..2] == [PendingParts, TooSoon] && Succeeded(log[2])
  {
    RetryRunReachesSecond(dir, n1, n2, base, t1, t2);
    SecondCompletion(dir, n1, n2, base, t1, t2);
    SecondCompletionRetried(dir, n1, n2, base, t1, t2);
  }

  /** With the retry the first completion runs as written. */
  lemma RetryRunReachesSecond(dir: string, n1: string, n2: string, base: string, t1: real, t2: real)
    requires TwoParts(dir, n1, n2, base)
    ensures RunWithRetry(dir, [n1, n2], Start(dir, n1, n2), BothDone(t1, t2))
         == FinishWithRetry(dir, [n1, n2], AfterFirst(dir, n1, n2, base, t1), Completion(1, t2))
  {
    FirstCompletion(dir, n1, n2, base, t1);
  }

  /** The dropped check of the second part is retried and joins. */
  lemma SecondCompletionRetried(dir: string, n1: string, n2: string, base: string, t1: real, t2: real)
    requires TwoParts(dir, n1, n2, base)
    requires t1 <= t2 && t2 - t1 < DebounceSeconds
    ensures var log := FinishWithRetry(dir, [n1, n2], AfterFirst(dir, n1, n2, base, t1), Completion(1, t2)).log;
      |log| == 3 && Succeeded(log[2])
  {
    var s := AfterFirst(dir, n1, n2, base, t1);
    var info := GetMultipartInfo(JoinPath(dir, n2), true).value;
    SecondCheckDebounced(dir, n1, n2, base, t1, t2);
    SecondCheckFindsBoth(dir, n1, n2, base, t1);
    DebouncedCheckIsRetried(dir, [n1, n2], s, Completion(1, t2), info);
  }

  /** When the second part finishes, its check falls in the debounce. */
  lemma SecondCheckDebounced(dir: string, n1: string, n2: string, base: string, t1: real, t2: real)
    requires TwoParts(dir, n1, n2, base)
    requires t1 <= t2 && t2 - t1 < DebounceSeconds
    ensures var s := AfterFirst(dir, n1, n2, base, t1);
      var path := JoinPath(dir, n2);
      && EntryNames([n1, n2])
      && (forall b :: b in s.lastCheck ==> s.lastCheck[b] <= t2)
      && GetMultipartInfo(path, path in s.fs) == Some(GetMultipartInfo(path, true).value)
      && TooRecent(GateState({}, s.lastCheck), GetMultipartInfo(path, true).value.baseName, t2)
  {
    SecondPartInfo(dir, n1, n2, base, t1);
    StampOfFirst(dir, n1, n2, base, t1, t2);
  }

  /** The only stamp after the first check is the first part's. */
  lemma StampOfFirst(dir: string, n1: string, n2: string, base: string, t1: real, t2: real)
    requires t1 <= t2 && t2 - t1 < DebounceSeconds
    ensures var s := AfterFirst(dir, n1, n2, base, t1);
      && (forall b :: b in s.lastCheck ==> s.lastCheck[b] <= t2)
      && TooRecent(GateState({}, s.lastCheck), base, t2)
  {
  }

  /** When the second part finishes, nothing is pending and both parts are
      found. */
  lemma SecondCheckFindsBoth(dir: string, n1: string, n2: string, base: string, t1: real)
    requires TwoParts(dir, n1, n2, base)
    ensures var s := AfterFirst(dir, n1, n2, base, t1);
      var info := GetMultipartInfo(JoinPath(dir, n2), true).value;
      && |s.log| == 1
      && !HasPendingPart(dir, MarkComplete(s.records, 1), s.fs, info.baseName)
      && |CollectParts(dir, [n1, n2], s.fs, info.baseName)| > 1
  {
    SecondPartInfo(dir, n1, n2, base, t1);
    NothingPendingAfterSecond(dir, n1, n2, base, t1);
    BothPartsCollected(dir, n1, n2, base);
  }

  /** The second part, as classified when it finishes. */
  lemma SecondPartInfo(dir: string, n1: string, n2: string, base: string, t1: real)
    requires TwoParts(dir, n1, n2, base)
    ensures var path := JoinPath(dir, n2);
      GetMultipartInfo(path, path in AfterFirst(dir, n1, n2, base, t1).fs) == Some(GetMultipartInfo(path, true).value)
    ensures GetMultipartInfo(JoinPath(dir, n2), true).value.baseName == base
  {
  }

  /** When the second part finishes, no part is still downloading. */
  lemma NothingPendingAfterSecond(dir: string, n1: string, n2: string, base: string, t1: real)
    ensures var before := AfterFirst(dir, n1, n2, base, t1);
      !HasPendingPart(dir, MarkComplete(before.records, 1), before.fs, base)
  {
    MarkPair(n1, n2, true, false, 1);
    NothingPending(dir, [Record(n1, true), Record(n2, true)], Disk(dir, n1, n2), base);
  }

  /** The two volumes of a RAR archive. */
  lemma RarVolumesArePartsOfMovie(dir: string)
    ensures TwoParts(dir, "movie.part1.rar", "movie.part2.rar", "movie")
  {
    ExampleRarFirstVolume(dir);
    ExampleRarVolume(dir);
    RarVolumesAreDistinctEntries(dir);
  }

  lemma RarVolumesAreDistinctEntries(dir: string)
    ensures EntryNames(["movie.part1.rar", "movie.part2.rar"])
    ensures JoinPath(dir, "movie.part1.rar") != JoinPath(dir, "movie.part2.rar")
  {
    var n1, n2 := "movie.part1.rar", "movie.part2.rar";
    assert EntryName(n1) && EntryName(n2);
    assert n1[10] != n2[10];
    if JoinPath(dir, n1) == JoinPath(dir, n2) {
      JoinPathInjective(dir, n1, n2);
    }
  }

  /** "movie.part1.rar" finishes at 10 s and "movie.part2.rar" at 12 s:
      as written the archive is never joined, with the retry it is. */
  lemma LostJoinExample(dir: string)
    ensures EntryNames(["movie.part1.rar", "movie.part2.rar"])
    ensures var n1, n2 := "movie.part1.rar", "movie.part2.rar";
      var cs := BothDone(10.0, 12.0);
      && RunAsWritten(dir, [n1, n2], Start(dir, n1, n2), cs).log == [PendingParts, TooSoon]
      && |RunWithRetry(dir, [n1, n2], Start(dir, n1, n2), cs).log| > 2
      && Succeeded(RunWithRetry(dir, [n1, n2], Start(dir, n1, n2), cs).log[2])
  {
    RarVolumesArePartsOfMovie(dir);
    LostJoinAsWritten(dir, "movie.part1.rar", "movie.part2.rar", "movie", 10.0, 12.0);
    LostJoinFixedByRetry(dir, "movie.part1.rar", "movie.part2.rar", "movie", 10.0, 12.0);
  }
}

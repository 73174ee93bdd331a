/** What happens around the gate when downloads finish
    (src/download_manager.py): the record is marked complete and, for a
    multipart file, a freshly built manager runs one check of its base.
    Only the module-wide timestamps survive from one download to the next.

    `RunAsWritten` is that behaviour. `RunWithRetry` adds the retry five
    seconds after the check that config/multipart_manager.py defines in
    `process_multipart_files` and `retry_multipart_check` but never calls;
    with it, the last finished part always leads to a join. */
module Downloads {
  import opened Text
  import opened Paths
  import opened Files
  import opened Classifier
  import opened PartOrder
  import opened Join
  import opened Gate

  /** The download `id` finishes; its check runs at `at`. The id is the
      index of the download's own record, standing for the source's
      `file_id`: two downloads saved under one name have two records. */
  datatype Completion = Completion(id: nat, at: real)

  /** The module-wide timestamps, the download records, the files, and the
      decisions of the checks so far. */
  datatype RunState = RunState(lastCheck: map<string, real>, records: seq<Record>, fs: FileSystem, log: seq<Decision>)

  /** The run after one finished download, the state of the manager built
      for it, and the base it checked, if any. */
  datatype Finished = Finished(run: RunState, manager: GateState, checked: Option<string>)

  /** The retry waits this long after the check. */
  const RetryDelay: real := 5.0

  predicate EntryNames(listing: seq<string>) {
    forall j :: 0 <= j < |listing| ==> EntryName(listing[j])
  }

  /** Every completion is of a download that has a record. */
  predicate Registered(records: seq<Record>, cs: seq<Completion>) {
    forall i :: 0 <= i < |cs| ==> cs[i].id < |records|
  }

  /** The records once download `id` has finished: its own record is
      complete, every other one is as it was, even when it is saved under
      the same name (`TwinDownloadStaysPending`). */
  function MarkComplete(records: seq<Record>, id: nat): (r: seq<Record>)
    requires id < |records|
    ensures |r| == |records|
    ensures r[id].fileName == records[id].fileName && r[id].complete
    ensures forall i :: 0 <= i < |r| && i != id ==> r[i] == records[i]
  {
    records[id := records[id].(complete := true)]
  }

  /** One finished download: its record is marked complete and, when its
      file is a multipart file, a fresh manager checks its base; the
      decision of that check is logged, and nothing else happens. */
  function FinishDownload(dir: string, listing: seq<string>, s: RunState, c: Completion): (f: Finished)
    requires EntryNames(listing)
    requires c.id < |s.records|
    ensures f.run.records == MarkComplete(s.records, c.id)
    ensures s.log <= f.run.log && |f.run.log| <= |s.log| + 1
  {
    var records := MarkComplete(s.records, c.id);
    var path := JoinPath(dir, s.records[c.id].fileName);
    match GetMultipartInfo(path, path in s.fs)
    case None => Finished(s.(records := records), GateState({}, s.lastCheck), None)
    case Some(info) =>
      var r := Check(GateState({}, s.lastCheck), dir, listing, records, s.fs, info, c.at, None);
      Finished(RunState(r.state.lastCheck, records, r.fs, s.log + [r.decision]), r.state, Some(info.baseName))
  }

  /** Downloads finishing one after the other, as the source handles them. */
  function RunAsWritten(dir: string, listing: seq<string>, s: RunState, cs: seq<Completion>): (r: RunState)
    requires EntryNames(listing)
    requires Registered(s.records, cs)
    ensures s.log <= r.log
    ensures |r.records| == |s.records|
    ensures forall i :: 0 <= i < |r.records| ==> r.records[i].fileName == s.records[i].fileName
  {
    if |cs| == 0 then s
    else
      var prev := RunAsWritten(dir, listing, s, cs[..|cs| - 1]);
      FinishDownload(dir, listing, prev, cs[|cs| - 1]).run
  }

  /** The directory entry `name` is a regular file classified as a part of
      `base`. */
  predicate IsListedPart(dir: string, fs: FileSystem, base: string, name: string) {
    JoinPath(dir, name) in fs && ClassifiedAs(JoinPath(dir, name), true, base)
  }

  /** The index of the first `true`, or `|flags|` when there is none. */
  function FirstTrue(flags: seq<bool>): (k: nat)
    ensures k <= |flags|
  {
    if |flags| == 0 || flags[0] then 0 else 1 + FirstTrue(flags[1..])
  }

  /** Which entries of the listing are parts of `base`. */
  function PartFlags(dir: string, listing: seq<string>, fs: FileSystem, base: string): (flags: seq<bool>)
    ensures |flags| == |listing|
  {
    if |listing| == 0 then [] else [IsListedPart(dir, fs, base, listing[0])] + PartFlags(dir, listing[1..], fs, base)
  }

  /** The index of the first entry of the listing that is a part of `base`,
      as `retry_multipart_check` looks for it; `|listing|` when there is
      none. */
  function FirstListedPart(dir: string, listing: seq<string>, fs: FileSystem, base: string): (k: nat)
    ensures k <= |listing|
  {
    FirstTrue(PartFlags(dir, listing, fs, base))
  }

  /** What `get_multipart_info` reports for a regular file `path` known to
      be a part of `base` (`RetryTriggerIsClassification`). */
  function PartInfo(path: string, base: string): FileInfo {
    var name := Basename(path);
    var num := PartNumber(name);
    var format := FormatOf(name);
    FileInfo(base, num, format, IsFirstPart(name, format, num), path, name)
  }

  /** The retry: the same manager checks `base` again at `at`, triggered by
      the first listed part, which is the first part collected
      (`RetryTriggerIsFirstListed`). */
  function Retry(dir: string, listing: seq<string>, s: RunState, manager: GateState, base: string, at: real): (r: RunState)
    requires EntryNames(listing)
    ensures s.log <= r.log
  {
    var found := CollectParts(dir, listing, s.fs, base);
    if |found| == 0 then s
    else
      var r := Check(manager, dir, listing, s.records, s.fs, PartInfo(found[0].path, base), at, None);
      RunState(r.state.lastCheck, s.records, r.fs, s.log + [r.decision])
  }

  /** One finished download followed, when it is a multipart file, by the
      retry of its base. */
  function FinishWithRetry(dir: string, listing: seq<string>, s: RunState, c: Completion): (r: RunState)
    requires EntryNames(listing)
    requires c.id < |s.records|
    ensures FinishDownload(dir, listing, s, c).run.log <= r.log
  {
    var f := FinishDownload(dir, listing, s, c);
    if f.checked.None? then f.run
    else Retry(dir, listing, f.run, f.manager, f.checked.value, c.at + RetryDelay)
  }

  /** The corrected run: as written, and the last finished multipart file's
      check is followed by its retry. */
  function RunWithRetry(dir: string, listing: seq<string>, s: RunState, cs: seq<Completion>): RunState
    requires EntryNames(listing)
    requires Registered(s.records, cs)
    requires |cs| > 0
  {
    FinishWithRetry(dir, listing, RunAsWritten(dir, listing, s, cs[..|cs| - 1]), cs[|cs| - 1])
  }

  // ---------------------------------------------------------------------
  // Lemmas

  /** Every manager starts with an empty `completed_joins`, so as written
      no check is ever declined as "already joined": the registry never
      prevents a second join. */
  lemma {:induction false} AsWrittenNeverAlreadyJoined(dir: string, listing: seq<string>, s: RunState, cs: seq<Completion>)
    requires EntryNames(listing)
    requires Registered(s.records, cs)
    ensures forall i :: |s.log| <= i < |RunAsWritten(dir, listing, s, cs).log| ==>
      !RunAsWritten(dir, listing, s, cs).log[i].AlreadyJoined?
  {
    if |cs| > 0 {
      var prev := RunAsWritten(dir, listing, s, cs[..|cs| - 1]);
      AsWrittenNeverAlreadyJoined(dir, listing, s, cs[..|cs| - 1]);
      FinishDownloadStep(dir, listing, prev, cs[|cs| - 1]);
      var r := RunAsWritten(dir, listing, s, cs);
      assert r == FinishDownload(dir, listing, prev, cs[|cs| - 1]).run;
      assert forall i :: |s.log| <= i < |prev.log| ==> r.log[i] == prev.log[i];
    }
  }

  /** The timestamps are times of checks: none is later than the latest
      completion, when none was to begin with. */
  lemma {:induction false} StampsNeverInFuture(dir: string, listing: seq<string>, s: RunState, cs: seq<Completion>, t: real)
    requires EntryNames(listing)
    requires Registered(s.records, cs)
    requires forall b :: b in s.lastCheck ==> s.lastCheck[b] <= t
    requires forall i :: 0 <= i < |cs| ==> cs[i].at <= t
    ensures forall b :: b in RunAsWritten(dir, listing, s, cs).lastCheck ==> RunAsWritten(dir, listing, s, cs).lastCheck[b] <= t
  {
    if |cs| > 0 {
      StampsNeverInFuture(dir, listing, s, cs[..|cs| - 1], t);
      var prev := RunAsWritten(dir, listing, s, cs[..|cs| - 1]);
      FinishDownloadStep(dir, listing, prev, cs[|cs| - 1]);
      assert RunAsWritten(dir, listing, s, cs) == FinishDownload(dir, listing, prev, cs[|cs| - 1]).run;
    }
  }

  /** `FirstTrue` finds the first `true`. */
  lemma {:induction false} FirstTrueIsFirst(flags: seq<bool>)
    ensures var k := FirstTrue(flags);
      && (k < |flags| ==> flags[k])
      && forall j :: 0 <= j < k ==> !flags[j]
  {
    if |flags| > 0 && !flags[0] {
      FirstTrueIsFirst(flags[1..]);
      assert forall j :: 1 <= j < |flags| ==> flags[j] == flags[1..][j - 1];
    }
  }

  /** `FirstListedPart` finds the first part of `base` in the listing. */
  lemma FirstListedPartIsFirst(dir: string, listing: seq<string>, fs: FileSystem, base: string)
    ensures var k := FirstListedPart(dir, listing, fs, base);
      && (k < |listing| ==> IsListedPart(dir, fs, base, listing[k]))
      && forall j :: 0 <= j < k ==> !IsListedPart(dir, fs, base, listing[j])
  {
    FirstTrueIsFirst(PartFlags(dir, listing, fs, base));
    forall j | 0 <= j < |listing| ensures PartFlags(dir, listing, fs, base)[j] == IsListedPart(dir, fs, base, listing[j]) {
      PartFlagsAt(dir, listing, fs, base, j);
    }
  }

  lemma {:induction false} PartFlagsAt(dir: string, listing: seq<string>, fs: FileSystem, base: string, j: nat)
    requires j < |listing|
    ensures PartFlags(dir, listing, fs, base)[j] == IsListedPart(dir, fs, base, listing[j])
  {
    if j > 0 {
      PartFlagsAt(dir, listing[1..], fs, base, j - 1);
    }
  }

  /** A fresh manager never answers "already joined", and it stamps the
      base with the time of its check or leaves the stamps alone. */
  lemma FinishDownloadStep(dir: string, listing: seq<string>, s: RunState, c: Completion)
    requires EntryNames(listing)
    requires c.id < |s.records|
    ensures forall i :: |s.log| <= i < |FinishDownload(dir, listing, s, c).run.log| ==>
      !FinishDownload(dir, listing, s, c).run.log[i].AlreadyJoined?
    ensures forall b :: b in FinishDownload(dir, listing, s, c).run.lastCheck ==>
      || (b in s.lastCheck && FinishDownload(dir, listing, s, c).run.lastCheck[b] == s.lastCheck[b])
      || FinishDownload(dir, listing, s, c).run.lastCheck[b] == c.at
  {
    var path := JoinPath(dir, s.records[c.id].fileName);
    var info := GetMultipartInfo(path, path in s.fs);
    if info.Some? {
      CheckStampsOnlyPastDebounce(GateState({}, s.lastCheck), dir, listing, MarkComplete(s.records, c.id), s.fs, info.value, c.at, None);
    }
  }

  /** After download `id` finishes, its base is still pending exactly when
      some other download is: another download saved under the same name,
      unfinished, keeps the check at "pending". */
  lemma TwinDownloadStaysPending(dir: string, records: seq<Record>, fs: FileSystem, base: string, id: nat)
    requires id < |records|
    ensures HasPendingPart(dir, MarkComplete(records, id), fs, base)
        <==> exists j :: 0 <= j < |records| && j != id && IsPending(dir, fs, records[j], base)
  {
  }

  /** What one finished download does: a file the classifier rejects
      changes nothing but the records; a multipart file gets exactly one
      check of its base by a fresh manager, whose decision is logged. */
  lemma FinishDownloadDecision(dir: string, listing: seq<string>, s: RunState, c: Completion)
    requires EntryNames(listing)
    requires c.id < |s.records|
    ensures var f := FinishDownload(dir, listing, s, c);
      var path := JoinPath(dir, s.records[c.id].fileName);
      var info := GetMultipartInfo(path, path in s.fs);
      && (f.checked.Some? <==> info.Some?)
      && (info.None? ==> f.run.log == s.log && f.run.lastCheck == s.lastCheck && f.run.fs == s.fs)
      && (info.Some? ==>
            && f.checked == Some(info.value.baseName)
            && |f.run.log| == |s.log| + 1
            && f.run.log[|s.log|]
               == Check(GateState({}, s.lastCheck), dir, listing, f.run.records, s.fs, info.value, c.at, None).decision
            && !f.run.log[|s.log|].AlreadyJoined?
            && f.manager.completed <= {info.value.baseName}
            && f.run.lastCheck == f.manager.lastCheck)
  {
  }

  /** A run of one or two completions is those completions in order. */
  lemma RunOfOne(dir: string, listing: seq<string>, s: RunState, cs: seq<Completion>)
    requires EntryNames(listing)
    requires |cs| == 1 && Registered(s.records, cs)
    ensures RunAsWritten(dir, listing, s, cs) == FinishDownload(dir, listing, s, cs[0]).run
  {
    assert cs[..0] == [];
  }

  lemma RunOfTwo(dir: string, listing: seq<string>, s: RunState, cs: seq<Completion>)
    requires EntryNames(listing)
    requires |cs| == 2 && Registered(s.records, cs)
    ensures RunAsWritten(dir, listing, s, cs)
         == FinishDownload(dir, listing, RunAsWritten(dir, listing, s, cs[..1]), cs[1]).run
  {
  }

  /** The parts of a concatenated listing are those of its halves. */
  lemma {:induction false} CollectPartsAppend(dir: string, a: seq<string>, b: seq<string>, fs: FileSystem, base: string)
    ensures CollectParts(dir, a + b, fs, base) == CollectParts(dir, a, fs, base) + CollectParts(dir, b, fs, base)
    decreases |b|
  {
    if |b| == 0 {
      assert a + b == a;
    } else {
      var b' := b[..|b| - 1];
      CollectPartsAppend(dir, a, b', fs, base);
      assert (a + b)[..|a + b| - 1] == a + b';
      assert (a + b)[|a + b| - 1] == b[|b| - 1];
      AppendAssoc(CollectParts(dir, a, fs, base), CollectParts(dir, b', fs, base), EntryPart(dir, fs, base, b[|b| - 1]));
    }
  }

  /** A listing without parts of `base` yields none. */
  lemma {:induction false} CollectPartsNone(dir: string, a: seq<string>, fs: FileSystem, base: string)
    requires forall j :: 0 <= j < |a| ==> !IsListedPart(dir, fs, base, a[j])
    ensures CollectParts(dir, a, fs, base) == []
  {
    if |a| > 0 {
      CollectPartsNone(dir, a[..|a| - 1], fs, base);
    }
  }

  /** The file that `retry_multipart_check` picks, the first listed part of
      `base`, is the first part the gate collects. */
  lemma RetryTriggerIsFirstListed(dir: string, listing: seq<string>, fs: FileSystem, base: string)
    requires |CollectParts(dir, listing, fs, base)| > 0
    ensures FirstListedPart(dir, listing, fs, base) < |listing|
    ensures CollectParts(dir, listing, fs, base)[0].path == JoinPath(dir, listing[FirstListedPart(dir, listing, fs, base)])
  {
    FirstListedPartIsFirst(dir, listing, fs, base);
    var k := FirstListedPart(dir, listing, fs, base);
    if k == |listing| {
      CollectPartsNone(dir, listing, fs, base);
      assert false;
    }
    var pre, rest := listing[..k], listing[k + 1..];
    SplitAround(listing, k);
    CollectPartsNone(dir, pre, fs, base);
    CollectPartsAppend(dir, pre, [listing[k]] + rest, fs, base);
    CollectPartsLeading(dir, listing[k], rest, fs, base);
  }

  lemma SplitAround(s: seq<string>, k: nat)
    requires k < |s|
    ensures s == s[..k] + ([s[k]] + s[k + 1..])
  {
  }

  /** A listing that starts with a part of `base` yields it first. */
  lemma CollectPartsLeading(dir: string, x: string, rest: seq<string>, fs: FileSystem, base: string)
    requires IsListedPart(dir, fs, base, x)
    ensures |CollectParts(dir, [x] + rest, fs, base)| == 1 + |CollectParts(dir, rest, fs, base)|
    ensures CollectParts(dir, [x] + rest, fs, base)[0].path == JoinPath(dir, x)
  {
    CollectPartsAppend(dir, [x], rest, fs, base);
    assert [x][..0] == [];
  }

  /** The retry's trigger is what `get_multipart_info` reports for the
      file the retry picks. */
  lemma RetryTriggerIsClassification(dir: string, listing: seq<string>, fs: FileSystem, base: string)
    requires |CollectParts(dir, listing, fs, base)| > 0
    ensures var path := CollectParts(dir, listing, fs, base)[0].path;
      GetMultipartInfo(path, true) == Some(PartInfo(path, base))
  {
    CollectedPartsAreListed(dir, listing, fs, base);
    ListedPartIsClassified(dir, listing, fs, base, CollectParts(dir, listing, fs, base)[0]);
  }

  /** The retry of a base whose parts are all finished and whose last
      check is at least three seconds old joins it. */
  lemma RetryJoins(dir: string, listing: seq<string>, s: RunState, manager: GateState, base: string, at: real)
    requires EntryNames(listing)
    requires base !in manager.completed && !TooRecent(manager, base, at)
    requires !HasPendingPart(dir, s.records, s.fs, base)
    requires |CollectParts(dir, listing, s.fs, base)| > 1
    ensures var r := Retry(dir, listing, s, manager, base, at);
      |r.log| == |s.log| + 1 && Succeeded(r.log[|s.log|])
  {
    var info := PartInfo(CollectParts(dir, listing, s.fs, base)[0].path, base);
    CheckReachesJoin(manager, dir, listing, s.records, s.fs, info, at);
  }

  /** A debounced check changes nothing but the records and the log. */
  lemma DebouncedFinish(dir: string, listing: seq<string>, s: RunState, c: Completion, info: FileInfo)
    requires EntryNames(listing)
    requires c.id < |s.records|
    requires GetMultipartInfo(JoinPath(dir, s.records[c.id].fileName), JoinPath(dir, s.records[c.id].fileName) in s.fs) == Some(info)
    requires TooRecent(GateState({}, s.lastCheck), info.baseName, c.at)
    ensures FinishDownload(dir, listing, s, c)
         == Finished(s.(records := MarkComplete(s.records, c.id), log := s.log + [TooSoon]), GateState({}, s.lastCheck),
                     Some(info.baseName))
  {
    CheckStampsOnlyPastDebounce(GateState({}, s.lastCheck), dir, listing, MarkComplete(s.records, c.id), s.fs, info, c.at, None);
  }

  /** A check that finds a part of its base still downloading stamps the
      base and changes nothing else. */
  lemma PendingFinish(dir: string, listing: seq<string>, s: RunState, c: Completion, info: FileInfo, i: nat)
    requires EntryNames(listing)
    requires c.id < |s.records|
    requires GetMultipartInfo(JoinPath(dir, s.records[c.id].fileName), JoinPath(dir, s.records[c.id].fileName) in s.fs) == Some(info)
    requires !TooRecent(GateState({}, s.lastCheck), info.baseName, c.at)
    requires i < |s.records| && IsPending(dir, s.fs, MarkComplete(s.records, c.id)[i], info.baseName)
    ensures FinishDownload(dir, listing, s, c)
         == Finished(RunState(s.lastCheck[info.baseName := c.at], MarkComplete(s.records, c.id), s.fs, s.log + [PendingParts]),
                     GateState({}, s.lastCheck[info.baseName := c.at]), Some(info.baseName))
  {
    var records := MarkComplete(s.records, c.id);
    assert HasPendingPart(dir, records, s.fs, info.baseName);
    CheckStampsOnlyPastDebounce(GateState({}, s.lastCheck), dir, listing, records, s.fs, info, c.at, None);
  }

  /** A check debounced by a stamp no later than its own time is followed
      by a retry that gets past the debounce. */
  lemma DebouncedCheckIsRetried(dir: string, listing: seq<string>, s: RunState, c: Completion, info: FileInfo)
    requires EntryNames(listing)
    requires c.id < |s.records|
    requires forall b :: b in s.lastCheck ==> s.lastCheck[b] <= c.at
    requires GetMultipartInfo(JoinPath(dir, s.records[c.id].fileName), JoinPath(dir, s.records[c.id].fileName) in s.fs) == Some(info)
    requires TooRecent(GateState({}, s.lastCheck), info.baseName, c.at)
    requires !HasPendingPart(dir, MarkComplete(s.records, c.id), s.fs, info.baseName)
    requires |CollectParts(dir, listing, s.fs, info.baseName)| > 1
    ensures |FinishWithRetry(dir, listing, s, c).log| == |s.log| + 2
    ensures Succeeded(FinishWithRetry(dir, listing, s, c).log[|s.log| + 1])
  {
    DebouncedFinish(dir, listing, s, c, info);
    var s' := s.(records := MarkComplete(s.records, c.id), log := s.log + [TooSoon]);
    assert !TooRecent(GateState({}, s.lastCheck), info.baseName, c.at + RetryDelay);
    RetryJoins(dir, listing, s', GateState({}, s.lastCheck), info.baseName, c.at + RetryDelay);
  }

  /** A check past the debounce joins at once. */
  lemma UndebouncedCheckJoins(dir: string, listing: seq<string>, s: RunState, c: Completion, info: FileInfo)
    requires EntryNames(listing)
    requires c.id < |s.records|
    requires GetMultipartInfo(JoinPath(dir, s.records[c.id].fileName), JoinPath(dir, s.records[c.id].fileName) in s.fs) == Some(info)
    requires !TooRecent(GateState({}, s.lastCheck), info.baseName, c.at)
    requires !HasPendingPart(dir, MarkComplete(s.records, c.id), s.fs, info.baseName)
    requires |CollectParts(dir, listing, s.fs, info.baseName)| > 1
    ensures |FinishDownload(dir, listing, s, c).run.log| == |s.log| + 1
    ensures Succeeded(FinishDownload(dir, listing, s, c).run.log[|s.log|])
  {
    CheckReachesJoin(GateState({}, s.lastCheck), dir, listing, MarkComplete(s.records, c.id), s.fs, info, c.at);
  }

  /** With the retry, the archive is joined once the last of its parts has
      finished: when the last finished download is a part of `base`, no
      part of `base` is still downloading, two or more parts are on disk
      and no timestamp lies after the last completion, then either the last
      check or its retry joins `base`. */
  lemma RetryJoinsFinishedArchive(dir: string, listing: seq<string>, s: RunState, cs: seq<Completion>, info: FileInfo)
    requires EntryNames(listing)
    requires Registered(s.records, cs)
    requires |cs| > 0
    requires forall i :: 0 <= i < |cs| ==> cs[i].at <= cs[|cs| - 1].at
    requires forall b :: b in s.lastCheck ==> s.lastCheck[b] <= cs[|cs| - 1].at
    requires var before := RunAsWritten(dir, listing, s, cs[..|cs| - 1]);
      var path := JoinPath(dir, before.records[cs[|cs| - 1].id].fileName);
      GetMultipartInfo(path, path in before.fs) == Some(info)
    requires var before := RunAsWritten(dir, listing, s, cs[..|cs| - 1]);
      !HasPendingPart(dir, MarkComplete(before.records, cs[|cs| - 1].id), before.fs, info.baseName)
    requires |CollectParts(dir, listing, RunAsWritten(dir, listing, s, cs[..|cs| - 1]).fs, info.baseName)| > 1
    ensures var n := |RunAsWritten(dir, listing, s, cs[..|cs| - 1]).log|;
      var log := RunWithRetry(dir, listing, s, cs).log;
      |log| > n && (Succeeded(log[n]) || (|log| > n + 1 && Succeeded(log[n + 1])))
  {
    var before := RunAsWritten(dir, listing, s, cs[..|cs| - 1]);
    var c := cs[|cs| - 1];
    StampsNeverInFuture(dir, listing, s, cs[..|cs| - 1], c.at);
    if TooRecent(GateState({}, before.lastCheck), info.baseName, c.at) {
      DebouncedCheckIsRetried(dir, listing, before, c, info);
    } else {
      UndebouncedCheckJoins(dir, listing, before, c, info);
    }
  }
}

/** `MultipartManager.check_and_process_multipart_files` as a step function:
    a check triggered by one classified file either declines (already
    joined, checked too recently, parts still downloading, nothing found) or
    collects the base's parts from the directory listing, sorts them by
    part number and runs the join. */
module Gate {
  import opened Text
  import opened Paths
  import opened Files
  import Patterns
  import opened Classifier
  import opened PartOrder
  import opened Join

  /** A download record: the file name it is saved under and whether the
      download finished. The record's file exists when its path is in the
      file system. */
  datatype Record = Record(fileName: string, complete: bool)

  /** `completed` is the manager's `completed_joins`; `lastCheck` is the
      module-wide `pending_multipart_checks`, base name to time of the last
      check that got past the debounce. */
  datatype GateState = GateState(completed: set<string>, lastCheck: map<string, real>)

  datatype Decision =
    | AlreadyJoined
    | TooSoon
    | PendingParts
    | NoParts
    | JoinRan(parts: seq<Part>, format: Format, outcome: JoinOutcome)

  datatype StepResult = StepResult(decision: Decision, state: GateState, fs: FileSystem)

  /** Checks of one base closer together than this are dropped. */
  const DebounceSeconds: real := 3.0

  /** The file at `path` is classified with base name `base`. */
  predicate ClassifiedAs(path: string, present: bool, base: string) {
    var info := GetMultipartInfo(path, present);
    info.Some? && info.value.baseName == base
  }

  /** An unfinished download whose file already exists and is a part of
      `base`. */
  predicate IsPending(dir: string, fs: FileSystem, rec: Record, base: string) {
    var path := JoinPath(dir, rec.fileName);
    path in fs && !rec.complete && ClassifiedAs(path, true, base)
  }

  predicate HasPendingPart(dir: string, records: seq<Record>, fs: FileSystem, base: string) {
    exists i :: 0 <= i < |records| && IsPending(dir, fs, records[i], base)
  }

  /** A check of `base` at `now` is dropped by the debounce. */
  predicate TooRecent(st: GateState, base: string, now: real) {
    base in st.lastCheck && now - st.lastCheck[base] < DebounceSeconds
  }

  /** The parts the entries of the listing contribute to the collection of
      `base`. */
  function ListedParts(dir: string, listing: seq<string>, fs: FileSystem, base: string): set<Part>
    decreases |listing|
  {
    if |listing| == 0 then {}
    else
      var e := EntryPart(dir, fs, base, listing[|listing| - 1]);
      ListedParts(dir, listing[..|listing| - 1], fs, base) + (if |e| == 1 then {e[0]} else {})
  }

  /** `p` is the part some entry of the listing contributes to the
      collection of `base`. */
  predicate ListedPart(dir: string, listing: seq<string>, fs: FileSystem, base: string, p: Part) {
    p in ListedParts(dir, listing, fs, base)
  }

  /** `path` is the path of an entry of the listing. */
  ghost predicate Listed(dir: string, listing: seq<string>, path: string) {
    exists j :: 0 <= j < |listing| && path == JoinPath(dir, listing[j])
  }

  /** What the directory entry `name` contributes to the collection: its
      part, when it is a regular file classified as a part of `base`. */
  function EntryPart(dir: string, fs: FileSystem, base: string, name: string): (ps: seq<Part>)
    ensures |ps| <= 1
  {
    var path := JoinPath(dir, name);
    if path in fs && ClassifiedAs(path, true, base) then
      [Part(GetMultipartInfo(path, true).value.partNum, path)]
    else []
  }

  /** The parts of `base` among the regular files of the listing, in listing
      order. */
  function CollectParts(dir: string, listing: seq<string>, fs: FileSystem, base: string): (ps: seq<Part>)
    ensures |ps| <= |listing|
  {
    if |listing| == 0 then []
    else CollectParts(dir, listing[..|listing| - 1], fs, base) + EntryPart(dir, fs, base, listing[|listing| - 1])
  }

  /** One step of the collection: the last entry adds its part, if any. */
  lemma CollectPartsStep(dir: string, listing: seq<string>, fs: FileSystem, base: string)
    requires |listing| > 0
    ensures CollectParts(dir, listing, fs, base)
         == CollectParts(dir, listing[..|listing| - 1], fs, base) + EntryPart(dir, fs, base, listing[|listing| - 1])
  {
  }

  /** The last entry contributes its own part, and does when it is a
      regular file that is a part of `base`. */
  lemma LastEntryPart(dir: string, listing: seq<string>, fs: FileSystem, base: string)
    requires |listing| > 0
    ensures var e := EntryPart(dir, fs, base, listing[|listing| - 1]);
      && (|e| == 1 ==> ListedPart(dir, listing, fs, base, e[0]) && e[0].path == JoinPath(dir, listing[|listing| - 1]))
      && (JoinPath(dir, listing[|listing| - 1]) in fs && ClassifiedAs(JoinPath(dir, listing[|listing| - 1]), true, base) ==> |e| == 1)
  {
  }

  /** A listed part is a regular file of the listing classified as a part
      of `base`, numbered as the classifier numbers it. */
  lemma {:induction false} ListedPartIsClassified(dir: string, listing: seq<string>, fs: FileSystem, base: string, p: Part)
    requires ListedPart(dir, listing, fs, base, p)
    ensures p.path in fs && ClassifiedAs(p.path, true, base)
    ensures GetMultipartInfo(p.path, true).value.partNum == p.num
    ensures Listed(dir, listing, p.path)
    decreases |listing|
  {
    var init := listing[..|listing| - 1];
    if p in ListedParts(dir, init, fs, base) {
      ListedPartIsClassified(dir, init, fs, base, p);
      var j :| 0 <= j < |init| && p.path == JoinPath(dir, init[j]);
      assert init[j] == listing[j];
    } else {
      var e := EntryPart(dir, fs, base, listing[|listing| - 1]);
      assert p == e[0];
      assert p.path == JoinPath(dir, listing[|listing| - 1]);
    }
  }

  /** Everything collected is a regular file of the listing that is a part
      of `base`, numbered as the classifier numbers it. */
  lemma {:induction false} CollectedPartsAreListed(dir: string, listing: seq<string>, fs: FileSystem, base: string)
    ensures forall i :: 0 <= i < |CollectParts(dir, listing, fs, base)| ==>
      ListedPart(dir, listing, fs, base, CollectParts(dir, listing, fs, base)[i])
    decreases |listing|
  {
    if |listing| > 0 {
      var init := listing[..|listing| - 1];
      var prev := CollectParts(dir, init, fs, base);
      var e := EntryPart(dir, fs, base, listing[|listing| - 1]);
      CollectedPartsAreListed(dir, init, fs, base);
      CollectPartsStep(dir, listing, fs, base);
      LastEntryPart(dir, listing, fs, base);
      var listed := p => ListedPart(dir, listing, fs, base, p);
      assert forall i :: 0 <= i < |prev| ==> listed(prev[i]);
      AllOfShort(listed, e);
      AllOfAppend(listed, prev, e);
    }
  }

  /** A regular file of the listing that is a part of `base` is collected. */
  lemma {:induction false} CollectPartsIsComplete(dir: string, listing: seq<string>, fs: FileSystem,
                                                  base: string, j: nat)
    requires j < |listing|
    requires JoinPath(dir, listing[j]) in fs && ClassifiedAs(JoinPath(dir, listing[j]), true, base)
    ensures JoinPath(dir, listing[j]) in PathsOf(CollectParts(dir, listing, fs, base))
    decreases |listing|
  {
    var init := listing[..|listing| - 1];
    var e := EntryPart(dir, fs, base, listing[|listing| - 1]);
    CollectPartsStep(dir, listing, fs, base);
    PathsOfAppend(CollectParts(dir, init, fs, base), e);
    if j < |listing| - 1 {
      assert init[j] == listing[j];
      CollectPartsIsComplete(dir, init, fs, base, j);
    } else {
      LastEntryPart(dir, listing, fs, base);
      assert PathsOf(e)[0] == JoinPath(dir, listing[j]);
    }
  }

  /** Sorting keeps every element. */
  lemma SortedElementIsOriginal(s: seq<Part>, i: nat)
    requires i < |SortParts(s)|
    ensures exists k :: 0 <= k < |s| && s[k] == SortParts(s)[i]
  {
    assert SortParts(s)[i] in multiset(SortParts(s));
  }

  /** A prefix of a directory entry followed by an archive extension is a
      directory entry too. */
  lemma EntryOfPrefix(n: string, base: string, ext: string)
    requires EntryName(n) && 1 <= |base| <= |n| && base == n[..|base|]
    requires ext == "" || ext == ".rar" || ext == ".zip" || ext == ".7z"
    ensures EntryName(base + ext)
  {
    assert forall i :: 0 <= i < |ext| ==> ext[i] != '/';
  }

  /** A part of `base` in directory `dir` is not `base` plus an archive
      extension in the same directory. */
  lemma PartIsNotBaseWithExtension(dir: string, n: string, base: string, ext: string)
    requires EntryName(n)
    requires ClassifiedAs(JoinPath(dir, n), true, base)
    requires ext == "" || ext == ".rar" || ext == ".zip" || ext == ".7z"
    ensures JoinPath(dir, n) != JoinPath(dir, base + ext)
  {
    var path := JoinPath(dir, n);
    BasenameOfJoin(dir, n);
    var info := GetMultipartInfo(path, true).value;
    assert info.fileName == n;
    assert 1 <= |base| < |n| && base == n[..|base|];
    ClassifiedByFirstCapture(path, true);
    var k :| Patterns.FirstCapture(n, k, |base|);
    Patterns.CaptureLeavesNoBareExtension(n, k, |base|, ext);
    if path == JoinPath(dir, base + ext) {
      EntryOfPrefix(n, base, ext);
      JoinPathInjective(dir, n, base + ext);
    }
  }

  /** The joined output is never one of the parts it is joined from: a part
      of `base` has a longer name than `base`, and `base.rar`, `base.zip`
      and `base.7z` are not parts of `base`. */
  lemma OutputIsNoPart(dir: string, listing: seq<string>, fs: FileSystem, base: string,
                       format: Format, firstPath: string, parts: seq<Part>)
    requires forall j :: 0 <= j < |listing| ==> EntryName(listing[j])
    requires forall i :: 0 <= i < |parts| ==> ListedPart(dir, listing, fs, base, parts[i])
    ensures OutputPath(dir, base, format, firstPath) !in PathsOf(parts)
  {
    var ext := OutputExtension(format, firstPath);
    forall i | 0 <= i < |parts| ensures PathsOf(parts)[i] != JoinPath(dir, base + ext) {
      ListedPartIsClassified(dir, listing, fs, base, parts[i]);
      var j :| 0 <= j < |listing| && parts[i].path == JoinPath(dir, listing[j]);
      PartIsNotBaseWithExtension(dir, listing[j], base, ext);
    }
  }

  /** The parts the gate hands to the join, in the order it hands them. */
  function GateParts(dir: string, listing: seq<string>, fs: FileSystem, base: string): seq<Part> {
    SortParts(CollectParts(dir, listing, fs, base))
  }

  /** Every part handed to the join is a listed part of the base. */
  lemma GatePartsAreListed(dir: string, listing: seq<string>, fs: FileSystem, base: string)
    ensures forall i :: 0 <= i < |GateParts(dir, listing, fs, base)| ==>
      ListedPart(dir, listing, fs, base, GateParts(dir, listing, fs, base)[i])
    ensures AllExist(fs, PathsOf(GateParts(dir, listing, fs, base)))
  {
    var found := CollectParts(dir, listing, fs, base);
    CollectedPartsAreListed(dir, listing, fs, base);
    forall i | 0 <= i < |SortParts(found)|
      ensures ListedPart(dir, listing, fs, base, SortParts(found)[i]) && SortParts(found)[i].path in fs
    {
      SortedElementIsOriginal(found, i);
      ListedPartIsClassified(dir, listing, fs, base, SortParts(found)[i]);
    }
  }

  /** The gate never asks the join to write over one of the parts. */
  lemma GateOutputIsNoPart(dir: string, listing: seq<string>, fs: FileSystem, base: string, format: Format)
    requires forall j :: 0 <= j < |listing| ==> EntryName(listing[j])
    requires |GateParts(dir, listing, fs, base)| > 0
    ensures var parts := GateParts(dir, listing, fs, base);
      OutputPath(dir, base, format, parts[0].path) !in PathsOf(parts)
  {
    var parts := GateParts(dir, listing, fs, base);
    GatePartsAreListed(dir, listing, fs, base);
    OutputIsNoPart(dir, listing, fs, base, format, parts[0].path, parts);
  }

  /** No part handed to the join ends in ".part1.7z". */
  lemma GatePartsHoldNoSevenZipVolume(dir: string, listing: seq<string>, fs: FileSystem, base: string)
    ensures var parts := GateParts(dir, listing, fs, base);
      FirstEndingIn(parts, ".part1.7z") == |parts|
  {
    var parts := GateParts(dir, listing, fs, base);
    var k := FirstEndingIn(parts, ".part1.7z");
    if k < |parts| {
      GatePartsAreListed(dir, listing, fs, base);
      ListedPartIsClassified(dir, listing, fs, base, parts[k]);
      ClassifiedIsNoSevenZipVolume(parts[k].path, true);
    }
  }

  /** One check, triggered by the file described by `trigger`, at clock
      reading `now`, against the directory `dir` whose entries are
      `listing`, the download records and the files. `readFault` is passed
      on to the join. */
  function Check(st: GateState, dir: string, listing: seq<string>, records: seq<Record>,
                 fs: FileSystem, trigger: FileInfo, now: real, readFault: Option<nat>): (r: StepResult)
    requires forall j :: 0 <= j < |listing| ==> EntryName(listing[j])
    ensures var base := trigger.baseName;
      && (r.decision.AlreadyJoined? <==> base in st.completed)
      && (r.decision.TooSoon? <==> base !in st.completed && TooRecent(st, base, now))
      && (r.decision.PendingParts? <==>
            base !in st.completed && !TooRecent(st, base, now) && HasPendingPart(dir, records, fs, base))
      && (r.decision.NoParts? ==> |CollectParts(dir, listing, fs, base)| == 0)
      && r.state.completed == st.completed + (if Succeeded(r.decision) then {base} else {})
  {
    var base := trigger.baseName;
    if base in st.completed then StepResult(AlreadyJoined, st, fs)
    else if TooRecent(st, base, now) then StepResult(TooSoon, st, fs)
    else
      var stamped := st.(lastCheck := st.lastCheck[base := now]);
      if HasPendingPart(dir, records, fs, base) then StepResult(PendingParts, stamped, fs)
      else
        var found := CollectParts(dir, listing, fs, base);
        if |found| == 0 then StepResult(NoParts, stamped, fs)
        else
          var parts := GateParts(dir, listing, fs, base);
          GateOutputIsNoPart(dir, listing, fs, base, trigger.format);
          var jr := JoinFiles(dir, base, parts, trigger.format, fs, readFault);
          var completed := if jr.outcome.Joined? then st.completed + {base} else st.completed;
          StepResult(JoinRan(parts, trigger.format, jr.outcome), GateState(completed, stamped.lastCheck), jr.fs)
  }

  /** The check got as far as the join and the join succeeded. */
  predicate Succeeded(d: Decision) {
    d.JoinRan? && d.outcome.Joined?
  }

  // ---------------------------------------------------------------------
  // Lemmas

  /** `completed_joins` only grows, and it gains the base name exactly when
      the check's join succeeds. */
  lemma RegistryGrowsOnlyOnSuccess(st: GateState, dir: string, listing: seq<string>, records: seq<Record>,
                                   fs: FileSystem, trigger: FileInfo, now: real, readFault: Option<nat>)
    requires forall j :: 0 <= j < |listing| ==> EntryName(listing[j])
    ensures var r := Check(st, dir, listing, records, fs, trigger, now, readFault);
      && st.completed <= r.state.completed
      && r.state.completed == st.completed + (if Succeeded(r.decision) then {trigger.baseName} else {})
      && (trigger.baseName in r.state.completed <==> trigger.baseName in st.completed || Succeeded(r.decision))
  {
  }

  /** A declined check changes nothing when the base was already joined or
      checked too recently (the timestamp is not refreshed); every other
      check stamps the base with `now`, touches no other base's stamp, and
      only a join touches the disk. */
  lemma CheckStampsOnlyPastDebounce(st: GateState, dir: string, listing: seq<string>, records: seq<Record>,
                                    fs: FileSystem, trigger: FileInfo, now: real, readFault: Option<nat>)
    requires forall j :: 0 <= j < |listing| ==> EntryName(listing[j])
    ensures var r := Check(st, dir, listing, records, fs, trigger, now, readFault);
      && (r.decision.AlreadyJoined? || r.decision.TooSoon? ==> r.state == st && r.fs == fs)
      && (!r.decision.AlreadyJoined? && !r.decision.TooSoon? ==>
            r.state.lastCheck == st.lastCheck[trigger.baseName := now])
      && (!r.decision.JoinRan? ==> r.fs == fs)
  {
  }

  /** A join is run with the parts of the base found in the listing, sorted
      by part number with ties in listing order, and with the trigger's own
      format. */
  lemma JoinGetsSortedParts(st: GateState, dir: string, listing: seq<string>, records: seq<Record>,
                            fs: FileSystem, trigger: FileInfo, now: real, readFault: Option<nat>)
    requires forall j :: 0 <= j < |listing| ==> EntryName(listing[j])
    ensures var r := Check(st, dir, listing, records, fs, trigger, now, readFault);
      r.decision.JoinRan? ==>
        && !HasPendingPart(dir, records, fs, trigger.baseName)
        && r.decision.format == trigger.format
        && |r.decision.parts| > 0
        && SortedByNum(r.decision.parts)
        && SameGroups(r.decision.parts, CollectParts(dir, listing, fs, trigger.baseName))
  {
    SortPartsIsStableSort(CollectParts(dir, listing, fs, trigger.baseName));
  }

  /** A single part on disk is passed to the join, which refuses it: nothing
      is written and nothing is recorded. */
  lemma LonePartIsNotJoined(st: GateState, dir: string, listing: seq<string>, records: seq<Record>,
                            fs: FileSystem, trigger: FileInfo, now: real, readFault: Option<nat>)
    requires forall j :: 0 <= j < |listing| ==> EntryName(listing[j])
    requires |CollectParts(dir, listing, fs, trigger.baseName)| == 1
    ensures var r := Check(st, dir, listing, records, fs, trigger, now, readFault);
      && !Succeeded(r.decision)
      && r.fs == fs
      && r.state.completed == st.completed
  {
  }

  /** The 7z volume copy is never chosen by the gate: no part of any base
      ends in ".part1.7z". Copies happen only for RAR volume sets. */
  lemma GateNeverCopiesSevenZipVolumes(st: GateState, dir: string, listing: seq<string>, records: seq<Record>,
                                       fs: FileSystem, trigger: FileInfo, now: real, readFault: Option<nat>)
    requires forall j :: 0 <= j < |listing| ==> EntryName(listing[j])
    ensures var r := Check(st, dir, listing, records, fs, trigger, now, readFault);
      r.decision.JoinRan? && ChooseMode(r.decision.format, r.decision.parts).CopyFirstVolume? ==>
        r.decision.format == Rar
  {
    GatePartsHoldNoSevenZipVolume(dir, listing, fs, trigger.baseName);
  }

  /** Once a base is joined, the same manager declines every later check
      of it, at any time. */
  lemma JoinedBaseIsNotJoinedAgain(st: GateState, dir: string, listing: seq<string>, records: seq<Record>,
                                   fs: FileSystem, trigger: FileInfo, now: real, readFault: Option<nat>,
                                   listing': seq<string>, records': seq<Record>, fs': FileSystem,
                                   trigger': FileInfo, now': real, readFault': Option<nat>)
    requires forall j :: 0 <= j < |listing| ==> EntryName(listing[j])
    requires forall j :: 0 <= j < |listing'| ==> EntryName(listing'[j])
    requires trigger'.baseName == trigger.baseName
    requires Succeeded(Check(st, dir, listing, records, fs, trigger, now, readFault).decision)
    ensures var st' := Check(st, dir, listing, records, fs, trigger, now, readFault).state;
      Check(st', dir, listing', records', fs', trigger', now', readFault').decision == AlreadyJoined
  {
  }

  /** A check that gets past the debounce without joining makes every check
      of the same base less than three seconds later a no-op. */
  lemma DebounceDropsQuickRecheck(st: GateState, dir: string, listing: seq<string>, records: seq<Record>,
                                  fs: FileSystem, trigger: FileInfo, now: real, readFault: Option<nat>,
                                  listing': seq<string>, records': seq<Record>, fs': FileSystem,
                                  trigger': FileInfo, now': real, readFault': Option<nat>)
    requires forall j :: 0 <= j < |listing| ==> EntryName(listing[j])
    requires forall j :: 0 <= j < |listing'| ==> EntryName(listing'[j])
    requires trigger'.baseName == trigger.baseName
    requires now' - now < DebounceSeconds
    requires var d := Check(st, dir, listing, records, fs, trigger, now, readFault).decision;
      !d.AlreadyJoined? && !d.TooSoon? && !Succeeded(d)
    ensures var st' := Check(st, dir, listing, records, fs, trigger, now, readFault).state;
      var r := Check(st', dir, listing', records', fs', trigger', now', readFault');
      r.decision == TooSoon && r.state == st' && r.fs == fs'
  {
  }

  /** The join is reached when the base is not yet joined, its last check
      is at least three seconds old, none of its parts is still downloading
      and at least one part is on disk; with two or more parts and no read
      error, it succeeds and the base is recorded. */
  lemma CheckReachesJoin(st: GateState, dir: string, listing: seq<string>, records: seq<Record>,
                         fs: FileSystem, trigger: FileInfo, now: real)
    requires forall j :: 0 <= j < |listing| ==> EntryName(listing[j])
    requires trigger.baseName !in st.completed && !TooRecent(st, trigger.baseName, now)
    requires !HasPendingPart(dir, records, fs, trigger.baseName)
    requires |CollectParts(dir, listing, fs, trigger.baseName)| > 0
    ensures var r := Check(st, dir, listing, records, fs, trigger, now, None);
      && r.decision.JoinRan?
      && (|CollectParts(dir, listing, fs, trigger.baseName)| > 1 ==> Succeeded(r.decision))
      && (|CollectParts(dir, listing, fs, trigger.baseName)| > 1 ==> trigger.baseName in r.state.completed)
  {
    var base := trigger.baseName;
    var parts := GateParts(dir, listing, fs, base);
    GateOutputIsNoPart(dir, listing, fs, base, trigger.format);
    var jr := JoinFiles(dir, base, parts, trigger.format, fs, None);
    var r := Check(st, dir, listing, records, fs, trigger, now, None);
    assert r.decision == JoinRan(parts, trigger.format, jr.outcome);
    assert r.state.completed == if jr.outcome.Joined? then st.completed + {base} else st.completed;
    if |parts| > 1 {
      GatePartsAreListed(dir, listing, fs, base);
      JoinSucceedsWithoutFaults(dir, base, parts, trigger.format, fs);
    }
  }
}

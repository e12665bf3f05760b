/**
 * Every run of one transfer at the receiver: chunks of any content lost, repeated, reordered or
 * corrupted, requests retried, restarts from chunk 0, file operations that fail midway, completions
 * and errors at any moment, and any other edit of the history item in between.
 */
module TransferRuns {
  import opened Wrappers
  import opened Archive
  import opened History
  import opened Receiver

  datatype Event =
    | Admit(manifest: Manifest, item: HistoryItem)
    | Chunk(c: FileChunk, io: ChunkIO)
    | Complete(m: FileComplete, cio: CompleteIO)
    | Error(reason: string)
    | Request(copy: HistoryItem, manifest: Manifest, sendOK: bool)
    | Touch(edit: Edit)
    | Evict

  datatype Timed = Timed(event: Event, now: Time)

  /** The item enters the history and the transfer is registered, unless they already exist. */
  function AdmitStep(w: World, manifest: Manifest, item: HistoryItem): World {
    var x := if w.item.Some? then w.item.value else item;
    w.(item := Some(x),
       inc := if w.inc.Some? then Some(w.inc.value.(manifest := manifest)) else Some(FreshIncoming(manifest, x.lastChunkIdx)))
  }

  function Step(w: World, t: Timed, cfg: Setup): World {
    match t.event
    case Admit(manifest, item) => AdmitStep(w, manifest, item)
    case Chunk(c, io) => ChunkStep(w, c, cfg, io, t.now)
    case Complete(m, io) => CompleteStep(w, m, io, t.now)
    case Error(reason) => Fail(w, reason, t.now)
    case Request(x, manifest, sendOK) => RequestStep(w, x, manifest, cfg.sessionID, sendOK, t.now).w
    case Touch(edit) => w.(item := EditedOrSame(w.item, edit, t.now))
    case Evict => w.(item := None)
  }

  function RunFrom(w: World, run: seq<Timed>, cfg: Setup): World {
    if run == [] then w else Step(RunFrom(w, run[..|run| - 1], cfg), run[|run| - 1], cfg)
  }

  const START: World := World(None, map[], map[], None)

  function After(run: seq<Timed>, cfg: Setup): World {
    RunFrom(START, run, cfg)
  }

  /** Announced again, a transfer keeps its item and everything stored for it; only the manifest is the new one. */
  lemma AnnouncedAgain(w: World, manifest: Manifest, item: HistoryItem)
    ensures var w' := AdmitStep(w, manifest, item);
            && w'.item.Some? && w'.inc.Some? && w'.inc.value.manifest == manifest
            && (w.item.Some? ==> w'.item == w.item)
            && (w.inc.Some? ==> w'.inc.value.(manifest := w.inc.value.manifest) == w.inc.value)
            && (w.inc.None? ==> w'.inc.value.lastChunkIdx == w'.item.value.lastChunkIdx && w'.inc.value.baseDir == ""
                                && !w'.inc.value.requestActive && !w'.inc.value.completed)
  {
  }

  // ---------------------------------------------------------------- what the program itself does

  ghost predicate KeepsProgress(edit: Edit) {
    forall x: HistoryItem :: edit(x).Ok? ==> edit(x).value.lastChunkIdx == x.lastChunkIdx
  }

  /**
   * Nothing is asked of messages. The program's own calls: one transfer id, an announced item and a copy
   * of an item whose transfer was never registered show no chunk, other edits leave the progress alone.
   */
  ghost predicate Lawful(w: World, e: Event, id: string) {
    match e
    case Admit(manifest, item) => manifest.transferID == id && item.lastChunkIdx == -1
    case Request(x, manifest, _) => manifest.transferID == id && (w.inc.None? ==> x.lastChunkIdx == -1)
    case Touch(edit) => KeepsProgress(edit)
    case _ => true
  }

  ghost predicate LawfulRun(run: seq<Timed>, cfg: Setup, id: string) {
    forall i :: 0 <= i < |run| ==> Lawful(After(run[..i], cfg), run[i].event, id)
  }

  lemma LawfulFront(run: seq<Timed>, cfg: Setup, id: string)
    requires LawfulRun(run, cfg, id) && run != []
    ensures var front := run[..|run| - 1];
            LawfulRun(front, cfg, id) && Lawful(After(front, cfg), run[|run| - 1].event, id)
  {
    hide Lawful, After;
    var front := run[..|run| - 1];
    forall i | 0 <= i < |front|
      ensures Lawful(After(front[..i], cfg), front[i].event, id)
    {
      assert front[..i] == run[..i];
    }
  }

  // ---------------------------------------------------------------- the bodies accepted

  /** The chunk is next, opens, passes its digest and every write it needs succeeds. */
  predicate Stores(t: Incoming, temp: map<string, string>, c: FileChunk, cfg: Setup, io: ChunkIO) {
    var mode := NormalMode(c.mode);
    var t2 := if c.index == 0 then Restarted(t, mode) else t;
    var temp2 := if c.index == 0 then RestartedTemp(t, mode, temp) else temp;
    var v := Judge(t, c, cfg.e2ee);
    v.Fresh? && Place(t2, temp2, v.raw, c.index, cfg.threshold, io).ok
  }

  /** The record as the chunk handler judges the chunk, if it gets that far. */
  function Facing(w: World, c: FileChunk, io: ChunkIO): Option<Incoming> {
    if w.inc.None? || w.inc.value.completed || (w.inc.value.baseDir == "" && io.tempDir == "") then None
    else Some(WithStorage(w.inc.value, NormalMode(c.mode), io.tempDir))
  }

  /** Chunk 0, unless it is a repeat, forgets all earlier bodies. */
  predicate Restarts(w: World, e: Event, cfg: Setup) {
    e.Chunk? && e.c.index == 0 && Facing(w, e.c, e.io).Some? && !Judge(Facing(w, e.c, e.io).value, e.c, cfg.e2ee).Repeat?
  }

  predicate Adds(w: World, e: Event, cfg: Setup) {
    e.Chunk? && Facing(w, e.c, e.io).Some? && Stores(Facing(w, e.c, e.io).value, w.temp, e.c, cfg, e.io)
  }

  /** The bodies of the chunks accepted since the last restart, in order of acceptance. */
  ghost function Accepted(run: seq<Timed>, cfg: Setup): seq<string> {
    if run == [] then []
    else
      var front := run[..|run| - 1];
      var e := run[|run| - 1].event;
      AcceptedAfter(After(front, cfg), e, cfg, Accepted(front, cfg))
  }

  function AcceptedAfter(w: World, e: Event, cfg: Setup, parts: seq<string>): seq<string> {
    var kept := if Restarts(w, e, cfg) then [] else parts;
    if Adds(w, e, cfg) then kept + [Judge(Facing(w, e.c, e.io).value, e.c, cfg.e2ee).raw] else kept
  }

  /** Position of the last event that restarted the transfer; 0 if there was none. */
  ghost function LastRestart(run: seq<Timed>, cfg: Setup): (k: nat)
    ensures k <= |run|
  {
    if run == [] then 0
    else if Restarts(After(run[..|run| - 1], cfg), run[|run| - 1].event, cfg) then |run| - 1
    else LastRestart(run[..|run| - 1], cfg)
  }

  function Joined(parts: seq<string>): string {
    if parts == [] then "" else Joined(parts[..|parts| - 1]) + parts[|parts| - 1]
  }

  lemma JoinedSnoc(parts: seq<string>, last: string)
    ensures Joined(parts + [last]) == Joined(parts) + last
    ensures parts == [] ==> Joined(parts) == ""
  {
    assert (parts + [last])[..|parts|] == parts;
  }

  // ---------------------------------------------------------------- the invariant

  /** The copy StorageMode names. */
  function KeptCopy(t: Incoming, temp: map<string, string>): Option<string> {
    if t.storageMode == Memory then Some(t.archiveBytes)
    else if t.archivePath in temp then Some(temp[t.archivePath])
    else None
  }

  /** The fields of an open record fit together. */
  predicate Shaped(t: Incoming, threshold: nat) {
    && t.lastChunkIdx >= -1
    && |t.archiveBytes| <= threshold
    && (t.storageMode != Memory || t.lastChunkIdx == -1 ==> t.archiveBytes == "")
    && (t.lastChunkIdx == -1 ==> t.totalChunks == 0)
    && (t.baseDir == "" ==> t.lastChunkIdx == -1 && t.archivePath == "")
    && (t.baseDir == "" <==> t.storageMode == Unset)
    && (t.baseDir == "" <==> t.archiveMode == Unset)
    && (t.storageMode == Disk ==> t.archivePath != "")
  }

  predicate HoldsCopy(t: Incoming, temp: map<string, string>, copy: string) {
    if t.lastChunkIdx == -1 then copy == "" else KeptCopy(t, temp) == Some(copy)
  }

  /** As many bodies as the index says, and the copy is these bodies joined. */
  predicate Keeps(t: Incoming, temp: map<string, string>, parts: seq<string>) {
    |parts| == t.lastChunkIdx + 1 && HoldsCopy(t, temp, Joined(parts))
  }

  predicate Safe(w: World, cfg: Setup, id: string, parts: seq<string>) {
    && (w.inc.None? ==> parts == [])
    && (w.inc.None? && w.item.Some? ==> w.item.value.lastChunkIdx == -1)
    && (w.inc.Some? ==> w.inc.value.manifest.transferID == id)
    && (w.inc.Some? && !w.inc.value.completed ==> Shaped(w.inc.value, cfg.threshold) && Keeps(w.inc.value, w.temp, parts))
  }

  lemma PathNotEmpty(baseDir: string, manifest: Manifest)
    ensures PayloadPath(baseDir, manifest) != ""
  {
  }

  lemma StorageStaysRight(t: Incoming, mode: Mode, tempDir: string, threshold: nat)
    requires Shaped(t, threshold)
    requires mode == Memory || mode == Disk
    requires t.baseDir != "" || tempDir != ""
    ensures Shaped(WithStorage(t, mode, tempDir), threshold)
    ensures WithStorage(t, mode, tempDir).baseDir != ""
    ensures WithStorage(t, mode, tempDir).lastChunkIdx == t.lastChunkIdx
    ensures t.lastChunkIdx >= 0 ==> WithStorage(t, mode, tempDir) == t
  {
    PathNotEmpty(tempDir, t.manifest);
  }

  lemma RestartIsRight(t: Incoming, mode: Mode, temp: map<string, string>, threshold: nat)
    requires Shaped(t, threshold) && t.baseDir != ""
    requires mode == Memory || mode == Disk
    ensures Shaped(Restarted(t, mode), threshold)
  {
    PathNotEmpty(t.baseDir, t.manifest);
  }

  /** What an attempt to store the next body leaves: it is added to the copy, or nothing is. */
  predicate PlacedRight(p: Placed, index: int, raw: string, threshold: nat, copy: string) {
    if p.ok then
      var t := p.t.(lastChunkIdx := index);
      Shaped(t, threshold) && HoldsCopy(t, p.temp, copy + raw)
    else Shaped(p.t, threshold) && HoldsCopy(p.t, p.temp, copy)
  }

  lemma MemoryPlaceStaysRight(t: Incoming, temp: map<string, string>, raw: string, index: int, threshold: nat, io: ChunkIO, copy: string)
    requires Shaped(t, threshold) && HoldsCopy(t, temp, copy) && t.storageMode == Memory && t.lastChunkIdx + 1 == index
    requires |t.archiveBytes| + |raw| <= threshold
    ensures PlacedRight(Place(t, temp, raw, index, threshold, io), index, raw, threshold, copy)
  {
    assert t.archiveBytes == copy;
  }

  lemma SpillStaysRight(t: Incoming, temp: map<string, string>, raw: string, index: int, threshold: nat, io: ChunkIO, copy: string)
    requires Shaped(t, threshold) && HoldsCopy(t, temp, copy) && t.storageMode == Memory && t.lastChunkIdx + 1 == index
    requires |t.archiveBytes| + |raw| > threshold && t.baseDir != ""
    ensures PlacedRight(Place(t, temp, raw, index, threshold, io), index, raw, threshold, copy)
  {
    hide PayloadPath;
    PathNotEmpty(t.baseDir, t.manifest);
    assert t.archiveBytes == copy;
  }

  lemma DiskPlaceStaysRight(t: Incoming, temp: map<string, string>, raw: string, index: int, threshold: nat, io: ChunkIO, copy: string)
    requires Shaped(t, threshold) && HoldsCopy(t, temp, copy) && t.storageMode == Disk && t.lastChunkIdx + 1 == index
    ensures PlacedRight(Place(t, temp, raw, index, threshold, io), index, raw, threshold, copy)
  {
    assert copy == "" ==> copy + raw == raw;
  }

  /** Storing the next body, or failing to, keeps the copy right, in memory, spilled or on disk. */
  lemma PlaceStaysRight(t: Incoming, temp: map<string, string>, raw: string, index: int, threshold: nat, io: ChunkIO, copy: string)
    requires Shaped(t, threshold) && HoldsCopy(t, temp, copy) && t.baseDir != "" && t.lastChunkIdx + 1 == index
    ensures var p := Place(t, temp, raw, index, threshold, io);
            && PlacedRight(p, index, raw, threshold, copy)
            && p.t.manifest == t.manifest && p.t.completed == t.completed && p.t.lastChunkIdx == t.lastChunkIdx
  {
    if t.storageMode == Memory && |t.archiveBytes| + |raw| <= threshold {
      MemoryPlaceStaysRight(t, temp, raw, index, threshold, io, copy);
    } else if t.storageMode == Memory {
      SpillStaysRight(t, temp, raw, index, threshold, io, copy);
    } else {
      DiskPlaceStaysRight(t, temp, raw, index, threshold, io, copy);
    }
  }

  lemma FailStaysSafe(w: World, reason: string, now: Time, cfg: Setup, id: string, parts: seq<string>)
    requires Safe(w, cfg, id, parts)
    ensures Safe(Fail(w, reason, now), cfg, id, parts)
  {
  }

  lemma KeepStaysSafe(w: World, t: Incoming, raw: string, c: FileChunk, cfg: Setup, io: ChunkIO, now: Time, id: string,
                      parts: seq<string>)
    requires w.inc == Some(t) && Safe(w, cfg, id, parts) && !t.completed && t.baseDir != "" && t.lastChunkIdx + 1 == c.index
    ensures var ok := Place(t, w.temp, raw, c.index, cfg.threshold, io).ok;
            Safe(KeepStep(w, t, raw, c, cfg, io, now), cfg, id, if ok then parts + [raw] else parts)
  {
    hide Place, Fail, Edited, Joined;
    PlaceStaysRight(t, w.temp, raw, c.index, cfg.threshold, io, Joined(parts));
    JoinedSnoc(parts, raw);
    var p := Place(t, w.temp, raw, c.index, cfg.threshold, io);
    if !p.ok {
      FailStaysSafe(w.(inc := Some(p.t), temp := p.temp), "write failed", now, cfg, id, parts);
    }
  }

  lemma JudgedStaysSafe(w: World, t: Incoming, c: FileChunk, cfg: Setup, io: ChunkIO, now: Time, id: string, parts: seq<string>)
    requires w.inc.Some? && t.manifest.transferID == id && !t.completed && t.baseDir != ""
    requires Shaped(t, cfg.threshold) && Keeps(t, w.temp, parts)
    ensures var v := Judge(t, c, cfg.e2ee);
            var kept := if c.index == 0 && !v.Repeat? then [] else parts;
            Safe(JudgedStep(w, t, c, cfg, io, now), cfg, id, if Stores(t, w.temp, c, cfg, io) then kept + [v.raw] else kept)
  {
    hide Place, Fail, Edited, RestartedTemp, KeepStep;
    var mode := NormalMode(c.mode);
    var t2, temp2, kept := t, w.temp, parts;
    if c.index == 0 {
      RestartIsRight(t, mode, w.temp, cfg.threshold);
      t2, temp2, kept := Restarted(t, mode), RestartedTemp(t, mode, w.temp), [];
    }
    var w2 := w.(inc := Some(t2), temp := temp2);
    match Judge(t, c, cfg.e2ee)
    case Repeat =>
    case ModeChanged => FailStaysSafe(w.(inc := Some(t)), "unexpected archive mode change", now, cfg, id, parts);
    case OutOfOrder => FailStaysSafe(w2, "unexpected chunk index", now, cfg, id, kept);
    case BadBytes => FailStaysSafe(w2, "bad chunk data", now, cfg, id, kept);
    case Fresh(raw) => KeepStaysSafe(w2, t2, raw, c, cfg, io, now, id, kept);
  }

  lemma ChunkStaysSafe(w: World, c: FileChunk, cfg: Setup, io: ChunkIO, now: Time, id: string, parts: seq<string>)
    requires Safe(w, cfg, id, parts)
    ensures Safe(ChunkStep(w, c, cfg, io, now), cfg, id, AcceptedAfter(w, Chunk(c, io), cfg, parts))
  {
    hide JudgedStep, Judge, Stores, Fail, WithStorage;
    if w.inc.None? {
      FailStaysSafe(w, "incoming transfer not found", now, cfg, id, parts);
    } else if w.inc.value.completed {
    } else if w.inc.value.baseDir == "" && io.tempDir == "" {
      FailStaysSafe(w, "no temp dir", now, cfg, id, parts);
    } else {
      StorageKeeps(w.inc.value, w.temp, NormalMode(c.mode), io.tempDir, cfg.threshold, parts);
      JudgedStaysSafe(w, WithStorage(w.inc.value, NormalMode(c.mode), io.tempDir), c, cfg, io, now, id, parts);
    }
  }

  lemma StorageKeeps(t: Incoming, temp: map<string, string>, mode: Mode, tempDir: string, threshold: nat, parts: seq<string>)
    requires Shaped(t, threshold) && Keeps(t, temp, parts)
    requires mode == Memory || mode == Disk
    requires t.baseDir != "" || tempDir != ""
    ensures var t' := WithStorage(t, mode, tempDir);
            && Shaped(t', threshold) && Keeps(t', temp, parts) && t'.baseDir != ""
            && t'.manifest == t.manifest && t'.completed == t.completed
  {
    StorageStaysRight(t, mode, tempDir, threshold);
  }

  /** A landing that fails has not touched the transfer's own files. */
  lemma LandingKeepsTemp(t: Incoming, w: World, copy: string, io: CompleteIO)
    ensures Land(t, w, copy, io).paths.None? ==> Land(t, w, copy, io).temp == w.temp
  {
  }

  lemma CompleteStaysSafe(w: World, m: FileComplete, cfg: Setup, io: CompleteIO, now: Time, id: string, parts: seq<string>)
    requires Safe(w, cfg, id, parts)
    ensures Safe(CompleteStep(w, m, io, now), cfg, id, parts)
  {
    hide Fail, Land, Keeps, HashedCopy;
    if w.inc.Some? && !w.inc.value.completed && !w.inc.value.completing {
      var t := w.inc.value.(completing := true);
      var w1 := w.(inc := Some(t));
      SameBytesKept(w.inc.value, t, w.temp, parts);
      match Checked(t, w.temp, m, io.hashOK)
      case None => FailStaysSafe(w1, "archive mismatch", now, cfg, id, parts);
      case Some(copy) =>
        match WithReserved(w1, io.planned, now)
        case None => FailStaysSafe(w1, "no target", now, cfg, id, parts);
        case Some(w2) =>
          LandingKeepsTemp(t, w2, copy, io);
          var landed := Land(t, w2, copy, io);
          if landed.paths.None? {
            FailStaysSafe(w2.(temp := landed.temp, targets := landed.targets), "landing failed", now, cfg, id, parts);
          }
    }
  }

  lemma SameBytesKept(t: Incoming, t': Incoming, temp: map<string, string>, parts: seq<string>)
    requires t'.lastChunkIdx == t.lastChunkIdx && t'.storageMode == t.storageMode
    requires t'.archiveBytes == t.archiveBytes && t'.archivePath == t.archivePath
    ensures Keeps(t', temp, parts) <==> Keeps(t, temp, parts)
  {
  }

  lemma FreshKeepsNothing(t: Incoming, temp: map<string, string>)
    ensures t.lastChunkIdx == -1 ==> Keeps(t, temp, [])
  {
  }

  /** A request touches no file and, of an existing record, only the manifest, the resume index and the flag. */
  lemma RequestRecord(w: World, x: HistoryItem, manifest: Manifest, sessionID: string, sendOK: bool, now: Time)
    ensures var w' := RequestStep(w, x, manifest, sessionID, sendOK, now).w;
            && w'.temp == w.temp && w'.targets == w.targets && w'.inc.Some?
            && w'.inc.value == WithRequest(w.inc, manifest, x, ResumeIndex(x)).(requestActive := w'.inc.value.requestActive)
  {
    hide Edited, EditedOrSame;
  }

  lemma RequestStaysSafe(w: World, x: HistoryItem, manifest: Manifest, cfg: Setup, sendOK: bool, now: Time, id: string,
                         parts: seq<string>)
    requires Safe(w, cfg, id, parts) && manifest.transferID == id && (w.inc.None? ==> x.lastChunkIdx == -1)
    ensures Safe(RequestStep(w, x, manifest, cfg.sessionID, sendOK, now).w, cfg, id, parts)
  {
    hide RequestStep, ResumeIndex, Keeps;
    RequestRecord(w, x, manifest, cfg.sessionID, sendOK, now);
    var t' := RequestStep(w, x, manifest, cfg.sessionID, sendOK, now).w.inc.value;
    if w.inc.Some? {
      SameBytesKept(w.inc.value, t', w.temp, parts);
    } else {
      FreshKeepsNothing(t', w.temp);
    }
  }

  lemma StepStaysSafe(w: World, t: Timed, cfg: Setup, id: string, parts: seq<string>)
    requires Safe(w, cfg, id, parts) && Lawful(w, t.event, id)
    ensures Safe(Step(w, t, cfg), cfg, id, AcceptedAfter(w, t.event, cfg, parts))
  {
    hide ChunkStep, CompleteStep, RequestStep, Fail, Judge, Stores, Joined;
    match t.event
    case Admit(manifest, item) => FreshKeepsNothing(AdmitStep(w, manifest, item).inc.value, w.temp);
    case Chunk(c, io) => ChunkStaysSafe(w, c, cfg, io, t.now, id, parts);
    case Complete(m, io) => CompleteStaysSafe(w, m, cfg, io, t.now, id, parts);
    case Error(reason) => FailStaysSafe(w, reason, t.now, cfg, id, parts);
    case Request(x, manifest, sendOK) => RequestStaysSafe(w, x, manifest, cfg, sendOK, t.now, id, parts);
    case Touch(edit) =>
    case Evict =>
  }

  lemma {:induction false} RunsAreSafe(run: seq<Timed>, cfg: Setup, id: string)
    requires LawfulRun(run, cfg, id)
    ensures Safe(After(run, cfg), cfg, id, Accepted(run, cfg))
  {
    hide Safe, Step, AcceptedAfter, Lawful, LawfulRun;
    if run != [] {
      var front := run[..|run| - 1];
      LawfulFront(run, cfg, id);
      RunsAreSafe(front, cfg, id);
      StepStaysSafe(After(front, cfg), run[|run| - 1], cfg, id, Accepted(front, cfg));
    } else {
      assert Safe(START, cfg, id, []) by { StartIsSafe(cfg, id); }
    }
  }

  lemma StartIsSafe(cfg: Setup, id: string)
    ensures Safe(START, cfg, id, [])
  {
  }

  /** The completion check digests the kept copy whenever there is anything in it. */
  lemma CheckReadsTheCopy(t: Incoming, temp: map<string, string>, threshold: nat, copy: string)
    requires Shaped(t, threshold) && HoldsCopy(t, temp, copy) && copy != ""
    ensures HashedCopy(t, temp, true) == KeptCopy(t, temp) == Some(copy)
  {
  }

  /**
   * Main result. In every run, whatever chunks came: while the transfer is open the copy StorageMode
   * names is exactly the bodies accepted since the last restart, joined, one for each index so far;
   * memory held stays within the threshold; and the completion check digests that very copy.
   */
  lemma StoredBytesAreWhatWasAccepted(run: seq<Timed>, cfg: Setup, id: string)
    requires LawfulRun(run, cfg, id)
    ensures var w := After(run, cfg);
            w.inc.Some? && !w.inc.value.completed ==>
            var t := w.inc.value;
            var parts := Accepted(run, cfg);
            && |t.archiveBytes| <= cfg.threshold
            && |parts| == t.lastChunkIdx + 1
            && (parts != [] ==> KeptCopy(t, w.temp) == Some(Joined(parts)))
            && (Joined(parts) != "" ==> HashedCopy(t, w.temp, true) == KeptCopy(t, w.temp))
  {
    hide Joined, Accepted, After, LawfulRun;
    RunsAreSafe(run, cfg, id);
    var w := After(run, cfg);
    if w.inc.Some? && !w.inc.value.completed && Joined(Accepted(run, cfg)) != "" {
      CheckReadsTheCopy(w.inc.value, w.temp, cfg.threshold, Joined(Accepted(run, cfg)));
    }
  }

  // ---------------------------------------------------------------- chunks of one archive

  /** A chunk that opens and passes its digest is one of the archive's chunks; any other is noise. */
  predicate Genuine(c: FileChunk, archive: string, e2ee: bool, id: string) {
    var body := Opened(c.data, e2ee, id, c.index);
    body.Some? && c.sha == Sha256(body.value) ==>
      0 <= c.index < ChunkCount(|archive|) && body.value == ChunkAt(archive, c.index)
  }

  /** Each accepted body came in a chunk message of that index, after the last restart. */
  lemma {:induction false} AcceptedBodiesArrived(run: seq<Timed>, cfg: Setup, id: string, i: nat) returns (j: nat)
    requires LawfulRun(run, cfg, id) && i < |Accepted(run, cfg)|
    ensures LastRestart(run, cfg) <= j < |run| && run[j].event.Chunk?
    ensures var c := run[j].event.c;
            c.index == i && Opened(c.data, cfg.e2ee, id, c.index) == Some(Accepted(run, cfg)[i])
            && c.sha == Sha256(Accepted(run, cfg)[i])
  {
    hide After, Safe, Stores, LawfulRun;
    LawfulFront(run, cfg, id);
    var front := run[..|run| - 1];
    var last := run[|run| - 1];
    var w := After(front, cfg);
    RunsAreSafe(front, cfg, id);
    var parts := Accepted(run, cfg);
    if Adds(w, last.event, cfg) && i == |parts| - 1 {
      j := |run| - 1;
      AddedBody(w, last.event, cfg, id, Accepted(front, cfg));
    } else {
      assert !Restarts(w, last.event, cfg);
      j := AcceptedBodiesArrived(front, cfg, id, i);
    }
  }

  /** An added body is the one of the message at hand, and it takes the place of that message's index. */
  lemma AddedBody(w: World, e: Event, cfg: Setup, id: string, parts: seq<string>)
    requires Safe(w, cfg, id, parts) && Adds(w, e, cfg)
    ensures var after := AcceptedAfter(w, e, cfg, parts);
            && after != [] && e.c.index == |after| - 1
            && Opened(e.c.data, cfg.e2ee, id, e.c.index) == Some(after[|after| - 1])
            && e.c.sha == Sha256(after[|after| - 1])
  {
    hide Joined, Place;
  }

  predicate IsChunk(archive: string, i: nat, body: string) {
    i < ChunkCount(|archive|) && body == ChunkAt(archive, i)
  }

  lemma {:induction false} JoinedChunks(archive: string, parts: seq<string>)
    requires forall i :: 0 <= i < |parts| ==> IsChunk(archive, i, parts[i])
    ensures Joined(parts) == Before(archive, |parts|)
    ensures parts != [] ==> Joined(parts) != ""
  {
    if parts == [] {
      ChunkGeometry(archive, 0);
    } else {
      JoinedChunks(archive, parts[..|parts| - 1]);
      assert IsChunk(archive, |parts| - 1, parts[|parts| - 1]);
      ChunkGeometry(archive, |parts| - 1);
    }
  }

  /**
   * Main result. If every chunk since the last restart is a chunk of the archive being sent, or noise,
   * and chunk k was the last one accepted, the kept copy is exactly the archive's bytes before chunk
   * k + 1, and the completion check digests it. Chunks before the restart may be of anything.
   */
  lemma StoredBytesAreThePrefix(run: seq<Timed>, cfg: Setup, archive: string, id: string)
    requires LawfulRun(run, cfg, id)
    requires forall j :: LastRestart(run, cfg) <= j < |run| && run[j].event.Chunk? ==> Genuine(run[j].event.c, archive, cfg.e2ee, id)
    requires After(run, cfg).inc.Some? && !After(run, cfg).inc.value.completed
    ensures var w := After(run, cfg);
            var t := w.inc.value;
            t.lastChunkIdx >= 0 ==>
              && t.lastChunkIdx < ChunkCount(|archive|)
              && KeptCopy(t, w.temp) == Some(Before(archive, t.lastChunkIdx + 1))
              && HashedCopy(t, w.temp, true) == KeptCopy(t, w.temp)
  {
    hide Joined, Accepted, After, LawfulRun, LastRestart, ChunkAt, Before, HashedCopy, KeptCopy;
    StoredBytesAreWhatWasAccepted(run, cfg, id);
    var parts := Accepted(run, cfg);
    forall i | 0 <= i < |parts|
      ensures IsChunk(archive, i, parts[i])
    {
      var j := AcceptedBodiesArrived(run, cfg, id, i);
      assert Genuine(run[j].event.c, archive, cfg.e2ee, id);
    }
    JoinedChunks(archive, parts);
    if parts != [] {
      assert IsChunk(archive, |parts| - 1, parts[|parts| - 1]);
    }
  }

  // ---------------------------------------------------------------- when a restart is possible

  /** Whether chunk 0 may start over: the last request asked for a later chunk and none was stored since. */
  ghost function ResumePending(run: seq<Timed>, cfg: Setup): bool {
    if run == [] then false
    else
      var front := run[..|run| - 1];
      match run[|run| - 1].event
      case Request(x, _, _) => x.state == Failed && x.lastChunkIdx >= 0
      case Chunk(_, _) => ResumePending(front, cfg) && !Adds(After(front, cfg), run[|run| - 1].event, cfg)
      case _ => ResumePending(front, cfg)
  }

  predicate FlagIs(w: World, pending: bool) {
    if w.inc.None? then !pending else w.inc.value.requestedResumeFrom > 0 <==> pending
  }

  lemma FailKeepsFlag(w: World, reason: string, now: Time, pending: bool)
    requires FlagIs(w, pending)
    ensures FlagIs(Fail(w, reason, now), pending)
  {
  }

  lemma PlaceKeepsFlag(t: Incoming, temp: map<string, string>, raw: string, index: int, threshold: nat, io: ChunkIO)
    ensures Place(t, temp, raw, index, threshold, io).t.requestedResumeFrom == t.requestedResumeFrom
  {
  }

  lemma JudgedFlag(w: World, t: Incoming, c: FileChunk, cfg: Setup, io: ChunkIO, now: Time, pending: bool)
    requires w.inc.Some? && FlagIs(w.(inc := Some(t)), pending)
    ensures FlagIs(JudgedStep(w, t, c, cfg, io, now), pending && !Stores(t, w.temp, c, cfg, io))
  {
    hide Place, Fail, RestartedTemp, Edited;
    var mode := NormalMode(c.mode);
    var t2 := if c.index == 0 then Restarted(t, mode) else t;
    var temp2 := if c.index == 0 then RestartedTemp(t, mode, w.temp) else w.temp;
    var w2 := w.(inc := Some(t2), temp := temp2);
    match Judge(t, c, cfg.e2ee)
    case Repeat =>
    case ModeChanged => FailKeepsFlag(w.(inc := Some(t)), "unexpected archive mode change", now, pending);
    case OutOfOrder => FailKeepsFlag(w2, "unexpected chunk index", now, pending);
    case BadBytes => FailKeepsFlag(w2, "bad chunk data", now, pending);
    case Fresh(raw) =>
      var p := Place(t2, temp2, raw, c.index, cfg.threshold, io);
      PlaceKeepsFlag(t2, temp2, raw, c.index, cfg.threshold, io);
      if !p.ok {
        FailKeepsFlag(w.(inc := Some(p.t), temp := p.temp), "write failed", now, pending);
      }
  }

  lemma ChunkFlag(w: World, c: FileChunk, cfg: Setup, io: ChunkIO, now: Time, pending: bool)
    requires FlagIs(w, pending)
    ensures FlagIs(ChunkStep(w, c, cfg, io, now), pending && !Adds(w, Chunk(c, io), cfg))
  {
    hide JudgedStep, Stores, Fail;
    if w.inc.None? {
      FailKeepsFlag(w, "incoming transfer not found", now, pending);
    } else if w.inc.value.completed {
    } else if w.inc.value.baseDir == "" && io.tempDir == "" {
      FailKeepsFlag(w, "no temp dir", now, pending);
    } else {
      JudgedFlag(w, WithStorage(w.inc.value, NormalMode(c.mode), io.tempDir), c, cfg, io, now, pending);
    }
  }

  lemma CompleteFlag(w: World, m: FileComplete, io: CompleteIO, now: Time, pending: bool)
    requires FlagIs(w, pending)
    ensures FlagIs(CompleteStep(w, m, io, now), pending)
  {
    hide Fail, Land, Checked;
    if w.inc.Some? && !w.inc.value.completed && !w.inc.value.completing {
      var t := w.inc.value.(completing := true);
      var w1 := w.(inc := Some(t));
      match Checked(t, w.temp, m, io.hashOK)
      case None => FailKeepsFlag(w1, "archive mismatch", now, pending);
      case Some(copy) =>
        match WithReserved(w1, io.planned, now)
        case None => FailKeepsFlag(w1, "no target", now, pending);
        case Some(w2) =>
          var landed := Land(t, w2, copy, io);
          if landed.paths.None? {
            FailKeepsFlag(w2.(temp := landed.temp, targets := landed.targets), "landing failed", now, pending);
          }
    }
  }

  /** The flag in the record is what the run says: a stored chunk ends a pending resume, only a request starts one. */
  lemma {:induction false} FlagIsResumePending(run: seq<Timed>, cfg: Setup)
    ensures FlagIs(After(run, cfg), ResumePending(run, cfg))
  {
    hide ChunkStep, CompleteStep, RequestStep, Fail, Adds;
    if run != [] {
      var front, last := run[..|run| - 1], run[|run| - 1];
      var w, pending := After(front, cfg), ResumePending(front, cfg);
      FlagIsResumePending(front, cfg);
      match last.event
      case Chunk(c, io) => ChunkFlag(w, c, cfg, io, last.now, pending);
      case Complete(m, io) => CompleteFlag(w, m, io, last.now, pending);
      case Error(reason) => FailKeepsFlag(w, reason, last.now, pending);
      case Request(x, manifest, sendOK) => RequestRecord(w, x, manifest, cfg.sessionID, sendOK, last.now);
      case _ =>
    }
  }

  /** An open record that is set up, has chunk k, and awaits no restart. */
  predicate Settled(t: Incoming, k: int) {
    && !t.completed && t.baseDir != "" && t.archiveMode != Unset && t.storageMode != Unset
    && t.lastChunkIdx == k && t.requestedResumeFrom == 0
  }

  lemma KeepSettles(w: World, t: Incoming, raw: string, c: FileChunk, cfg: Setup, io: ChunkIO, now: Time)
    requires Place(t, w.temp, raw, c.index, cfg.threshold, io).ok
    requires !t.completed && t.baseDir != "" && t.archiveMode != Unset && t.storageMode != Unset
    ensures var w' := KeepStep(w, t, raw, c, cfg, io, now);
            w'.inc.Some? && Settled(w'.inc.value, c.index)
  {
  }

  lemma AddingSettles(w: World, c: FileChunk, io: ChunkIO, now: Time, cfg: Setup)
    requires w.inc.Some? && Shaped(w.inc.value, cfg.threshold) && Adds(w, Chunk(c, io), cfg)
    ensures var w' := ChunkStep(w, c, cfg, io, now);
            c.index >= 0 && w'.inc.Some? && Settled(w'.inc.value, c.index)
  {
    hide Place, KeepStep, RestartedTemp, PayloadPath;
    var mode := NormalMode(c.mode);
    var t := Facing(w, c, io).value;
    StorageStaysRight(w.inc.value, mode, io.tempDir, cfg.threshold);
    var t2 := if c.index == 0 then Restarted(t, mode) else t;
    var temp2 := if c.index == 0 then RestartedTemp(t, mode, w.temp) else w.temp;
    KeepSettles(w.(inc := Some(t2), temp := temp2), t2, Judge(t, c, cfg.e2ee).raw, c, cfg, io, now);
  }

  /** Once a chunk was stored, a repeat of chunk 0 does nothing until somebody asks for a resume again. */
  lemma StoredChunkEndsResume(w: World, c: FileChunk, io: ChunkIO, now: Time, c0: FileChunk, io0: ChunkIO, now0: Time, cfg: Setup)
    requires w.inc.Some? && Shaped(w.inc.value, cfg.threshold) && Adds(w, Chunk(c, io), cfg)
    requires c0.index == 0
    ensures var w' := ChunkStep(w, c, cfg, io, now);
            ChunkStep(w', c0, cfg, io0, now0) == w'
  {
    hide Adds;
    AddingSettles(w, c, io, now, cfg);
    SettledIgnoresZero(ChunkStep(w, c, cfg, io, now), c.index, c0, io0, now0, cfg);
  }

  lemma SettledIgnoresZero(w: World, k: int, c0: FileChunk, io0: ChunkIO, now0: Time, cfg: Setup)
    requires w.inc.Some? && Settled(w.inc.value, k) && k >= 0 && c0.index == 0
    ensures ChunkStep(w, c0, cfg, io0, now0) == w
  {
    assert WithStorage(w.inc.value, NormalMode(c0.mode), io0.tempDir) == w.inc.value;
  }

  // ---------------------------------------------------------------- repeats are invisible

  /**
   * A chunk already accepted - chunk 0 only while no resume is pending - or anything but a request after
   * the transfer was closed.
   */
  ghost predicate IsRepeat(w: World, pending: bool, e: Event) {
    w.inc.Some? &&
    var t := w.inc.value;
    match e
    case Chunk(c, _) => t.completed || (t.lastChunkIdx >= 0 && c.index <= t.lastChunkIdx && (c.index != 0 || !pending))
    case Complete(_, _) => t.completed
    case _ => false
  }

  lemma RepeatChangesNothing(w: World, pending: bool, t: Timed, cfg: Setup)
    requires IsRepeat(w, pending, t.event) && FlagIs(w, pending)
    requires w.inc.value.completed || Shaped(w.inc.value, cfg.threshold)
    ensures Step(w, t, cfg) == w
  {
  }

  /** The run with every repeat taken out; which they are is read off the original run. */
  ghost function Stripped(run: seq<Timed>, cfg: Setup): seq<Timed> {
    if run == [] then []
    else
      var front := run[..|run| - 1];
      if IsRepeat(After(front, cfg), ResumePending(front, cfg), run[|run| - 1].event) then Stripped(front, cfg)
      else Stripped(front, cfg) + [run[|run| - 1]]
  }

  /** Main result: transfer, files and history are as if no repeat had ever arrived. */
  lemma {:induction false} RepeatsAreInvisible(run: seq<Timed>, cfg: Setup, id: string)
    requires LawfulRun(run, cfg, id)
    ensures After(Stripped(run, cfg), cfg) == After(run, cfg)
  {
    hide Step, IsRepeat, Accepted, Keeps, Shaped, LawfulRun, FlagIs, ResumePending;
    if run != [] {
      LawfulFront(run, cfg, id);
      var front := run[..|run| - 1];
      var last := run[|run| - 1];
      RepeatsAreInvisible(front, cfg, id);
      RunsAreSafe(front, cfg, id);
      FlagIsResumePending(front, cfg);
      if IsRepeat(After(front, cfg), ResumePending(front, cfg), last.event) {
        RepeatHasRecord(After(front, cfg), ResumePending(front, cfg), last.event);
        RepeatChangesNothing(After(front, cfg), ResumePending(front, cfg), last, cfg);
      } else {
        var kept := Stripped(front, cfg) + [last];
        assert kept[..|kept| - 1] == Stripped(front, cfg);
      }
    }
  }

  lemma RepeatHasRecord(w: World, pending: bool, e: Event)
    requires IsRepeat(w, pending, e)
    ensures w.inc.Some?
  {
  }
}

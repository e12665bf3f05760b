/**
 * What becomes of one chunk at an open record: it is stored, silently ignored, or the transfer fails. Each
 * case is told from the message and the record alone, and so is where the bytes end up.
 */
module ChunkFacts {
  import opened Wrappers
  import opened Archive
  import opened History
  import opened Receiver
  import opened TransferRuns

  /** The directory the handler works in; "" when there is none and none can be made. */
  function Directory(t: Incoming, io: ChunkIO): string {
    if t.baseDir == "" then io.tempDir else t.baseDir
  }

  /** The one index that is due - and chunk 0 as long as a resume is pending. */
  predicate Due(t: Incoming, index: int) {
    index == t.lastChunkIdx + 1 || (index == 0 && t.requestedResumeFrom > 0)
  }

  /** The kind of copy the chunk goes to, and what that copy holds before it. */
  function CopyMode(t: Incoming, c: FileChunk): Mode {
    if c.index == 0 then (if c.mode == Memory then Memory else Disk) else t.storageMode
  }

  function HeldInMemory(t: Incoming, c: FileChunk): string {
    if c.index == 0 then "" else t.archiveBytes
  }

  predicate FitsMemory(t: Incoming, c: FileChunk, raw: string, threshold: nat) {
    CopyMode(t, c) == Memory && |HeldInMemory(t, c)| + |raw| <= threshold
  }

  /** Due, of the transfer's mode, genuine, and every write it needs succeeds. */
  predicate Storable(t: Incoming, c: FileChunk, cfg: Setup, io: ChunkIO) {
    var body := Opened(c.data, cfg.e2ee, t.manifest.transferID, c.index);
    && Directory(t, io) != "" && Due(t, c.index)
    && (c.index == 0 || (c.mode == Memory <==> t.archiveMode == Memory))
    && body.Some? && c.sha == Sha256(body.value)
    && (FitsMemory(t, c, body.value, cfg.threshold) || (io.appendOK && (CopyMode(t, c) == Memory ==> io.spillOK)))
  }

  /** Where the payload file of this record is, or would be. */
  function PayloadFile(t: Incoming, io: ChunkIO): string {
    if t.archivePath != "" then t.archivePath
    else Directory(t, io) + "/" + if t.manifest.raw then "payload.bin" else "payload.zip"
  }

  /** A chunk is stored exactly when it is storable. */
  lemma StoredIff(w: World, c: FileChunk, cfg: Setup, io: ChunkIO)
    requires w.inc.Some? && !w.inc.value.completed && Shaped(w.inc.value, cfg.threshold)
    ensures Adds(w, Chunk(c, io), cfg) <==> Storable(w.inc.value, c, cfg, io)
  {
    hide Place, Judge, Opened, PayloadPath, RestartedTemp;
    var mode := NormalMode(c.mode);
    if Directory(w.inc.value, io) != "" {
      var t := WithStorage(w.inc.value, mode, io.tempDir);
      StorageStaysRight(w.inc.value, mode, io.tempDir, cfg.threshold);
      FreshIff(w.inc.value, c, cfg, io);
      RestartIsRight(t, mode, w.temp, cfg.threshold);
      if Judge(t, c, cfg.e2ee).Fresh? {
        PlacedIff(if c.index == 0 then Restarted(t, mode) else t, if c.index == 0 then RestartedTemp(t, mode, w.temp) else w.temp,
                  Judge(t, c, cfg.e2ee).raw, c.index, cfg.threshold, io);
      }
    }
  }

  lemma FreshIff(t: Incoming, c: FileChunk, cfg: Setup, io: ChunkIO)
    requires Shaped(t, cfg.threshold) && Directory(t, io) != ""
    ensures var body := Opened(c.data, cfg.e2ee, t.manifest.transferID, c.index);
            var v := Judge(WithStorage(t, NormalMode(c.mode), io.tempDir), c, cfg.e2ee);
            && (v.Fresh? <==> Due(t, c.index) && (c.index == 0 || (c.mode == Memory <==> t.archiveMode == Memory))
                              && body.Some? && c.sha == Sha256(body.value))
            && (v.Fresh? ==> v.raw == body.value)
  {
    hide Opened, PayloadPath;
  }

  lemma PlacedIff(t: Incoming, temp: map<string, string>, raw: string, index: int, threshold: nat, io: ChunkIO)
    requires Shaped(t, threshold) && t.baseDir != ""
    ensures Place(t, temp, raw, index, threshold, io).ok <==>
              || (t.storageMode == Memory && |t.archiveBytes| + |raw| <= threshold)
              || (io.appendOK && (t.storageMode == Memory ==> io.spillOK))
  {
  }

  /** What a stored chunk leaves behind. */
  predicate StoredNow(w: World, w': World, c: FileChunk, raw: string, cfg: Setup, io: ChunkIO, now: Time) {
    w.inc.Some? && w'.inc.Some? &&
    var t, t' := w.inc.value, w'.inc.value;
    var file := PayloadFile(t, io);
    var fits := FitsMemory(t, c, raw, cfg.threshold);
    && t'.lastChunkIdx == c.index && t'.totalChunks == c.totalChunks && t'.requestedResumeFrom == 0
    && t'.manifest == t.manifest && t'.requestActive == t.requestActive && t'.completing == t.completing && !t'.completed
    && t'.baseDir == Directory(t, io) && (t'.archiveMode == Memory <==> c.mode == Memory) && t'.archiveMode != Unset
    && t'.storageMode == (if fits then Memory else Disk)
    && t'.archiveBytes == (if fits then HeldInMemory(t, c) + raw else "")
    && t'.archivePath == (if fits then t.archivePath else file)
    && (fits && c.index == 0 && t.archivePath != "" ==> file !in w'.temp)
    && (!fits ==> file in w'.temp && (c.index == 0 ==> w'.temp[file] == raw))
    && w'.temp - {file} == w.temp - {file} && w'.targets == w.targets
  }

  /** The item, if history has one, shows the new progress, in any state from which Downloading can be reached. */
  predicate Progressed(item: Option<HistoryItem>, item': Option<HistoryItem>, index: int, now: Time) {
    match item
    case None => item' == None
    case Some(x) =>
      if x.state in {Offered, Downloading, Failed, Consumed}
      then item' == Some(x.(state := Downloading, lastChunkIdx := index, updatedAt := now))
      else item' == item
  }

  /** Main result for one chunk that is stored: where every byte is afterwards, and what is told to whom. */
  lemma StoredChunk(w: World, c: FileChunk, cfg: Setup, io: ChunkIO, now: Time)
    requires w.inc.Some? && !w.inc.value.completed && Shaped(w.inc.value, cfg.threshold)
    requires Storable(w.inc.value, c, cfg, io)
    ensures var w' := ChunkStep(w, c, cfg, io, now);
            && StoredNow(w, w', c, Opened(c.data, cfg.e2ee, w.inc.value.manifest.transferID, c.index).value, cfg, io, now)
            && Progressed(w.item, w'.item, c.index, now)
  {
    hide Adds, Storable, KeepStep, Opened, Place, Progressed, WithStorage, Restarted, Shaped, ChunkStep;
    var t := w.inc.value;
    StoredIff(w, c, cfg, io);
    AddsKeeps(w, c, cfg, io, now);
    var t2, temp2 := ReadyFor(t, c, io), FilesReadyFor(t, w.temp, c, io);
    StartingPoint(t, w.temp, c, cfg, io);
    KeptNow(w.(inc := Some(t2), temp := temp2), t2, Opened(c.data, cfg.e2ee, t.manifest.transferID, c.index).value, c, cfg, io, now);
  }

  /** The record and the files as the bytes are stored. */
  function ReadyFor(t: Incoming, c: FileChunk, io: ChunkIO): Incoming {
    var u := WithStorage(t, NormalMode(c.mode), io.tempDir);
    if c.index == 0 then Restarted(u, NormalMode(c.mode)) else u
  }

  function FilesReadyFor(t: Incoming, temp: map<string, string>, c: FileChunk, io: ChunkIO): map<string, string> {
    if c.index == 0 then RestartedTemp(WithStorage(t, NormalMode(c.mode), io.tempDir), NormalMode(c.mode), temp) else temp
  }

  lemma StartingPoint(t: Incoming, temp: map<string, string>, c: FileChunk, cfg: Setup, io: ChunkIO)
    requires Shaped(t, cfg.threshold) && Storable(t, c, cfg, io)
    ensures var u, files := ReadyFor(t, c, io), FilesReadyFor(t, temp, c, io);
            && Shaped(u, cfg.threshold) && u.baseDir == Directory(t, io) && u.baseDir != ""
            && u.storageMode == CopyMode(t, c) && u.archiveBytes == HeldInMemory(t, c)
            && u.archivePath == (if u.storageMode == Memory then t.archivePath else PayloadFile(t, io))
            && (u.archiveMode == Memory <==> c.mode == Memory) && u.archiveMode != Unset
            && u.manifest == t.manifest && u.requestActive == t.requestActive
            && u.completing == t.completing && u.completed == t.completed
            && files == (if c.index == 0 && c.mode == Memory && t.archivePath != "" then temp - {t.archivePath} else temp)
  {
    hide Opened, Storable;
    StorableHas(t, c, cfg, io);
    var v := WithStorage(t, NormalMode(c.mode), io.tempDir);
    StorageStaysRight(t, NormalMode(c.mode), io.tempDir, cfg.threshold);
    RestartIsRight(v, NormalMode(c.mode), temp, cfg.threshold);
  }

  lemma StorableHas(t: Incoming, c: FileChunk, cfg: Setup, io: ChunkIO)
    requires Shaped(t, cfg.threshold) && Storable(t, c, cfg, io)
    ensures Directory(t, io) != "" && Opened(c.data, cfg.e2ee, t.manifest.transferID, c.index).Some?
    ensures c.index != 0 ==> t.baseDir != "" && (c.mode == Memory <==> t.archiveMode == Memory)
  {
  }

  lemma AddsKeeps(w: World, c: FileChunk, cfg: Setup, io: ChunkIO, now: Time)
    requires w.inc.Some? && !w.inc.value.completed && Adds(w, Chunk(c, io), cfg)
    ensures var t2, temp2 := ReadyFor(w.inc.value, c, io), FilesReadyFor(w.inc.value, w.temp, c, io);
            var body := Opened(c.data, cfg.e2ee, w.inc.value.manifest.transferID, c.index);
            && body.Some? && Place(t2, temp2, body.value, c.index, cfg.threshold, io).ok
            && ChunkStep(w, c, cfg, io, now) == KeepStep(w.(inc := Some(t2), temp := temp2), t2, body.value, c, cfg, io, now)
  {
    hide KeepStep, Place, Opened, PayloadPath;
  }

  /** The record, the files and the item once the bytes are placed. */
  lemma KeptNow(w: World, t: Incoming, raw: string, c: FileChunk, cfg: Setup, io: ChunkIO, now: Time)
    requires w.inc == Some(t) && Shaped(t, cfg.threshold) && t.baseDir != ""
    requires Place(t, w.temp, raw, c.index, cfg.threshold, io).ok
    ensures var w' := KeepStep(w, t, raw, c, cfg, io, now);
            var file := if t.archivePath != "" then t.archivePath else PayloadPath(t.baseDir, t.manifest);
            var fits := t.storageMode == Memory && |t.archiveBytes| + |raw| <= cfg.threshold;
            && w'.inc == Some(t.(lastChunkIdx := c.index, totalChunks := c.totalChunks, requestedResumeFrom := 0,
                                 archiveBytes := if fits then t.archiveBytes + raw else "",
                                 archivePath := if fits then t.archivePath else file,
                                 storageMode := if fits then Memory else Disk))
            && w'.temp == (if fits then w.temp
                           else w.temp[file := if t.storageMode == Memory then t.archiveBytes + raw
                                               else if c.index == 0 || file !in w.temp then raw else w.temp[file] + raw])
            && w'.targets == w.targets && Progressed(w.item, w'.item, c.index, now)
  {
    hide PayloadPath;
  }

  /** A repeat: nothing is due at this index any more. */
  predicate Ignorable(t: Incoming, c: FileChunk) {
    c.index <= t.lastChunkIdx && !(c.index == 0 && t.requestedResumeFrom > 0)
  }

  /** A failure: the item shows it and the request is over, unless history cannot record it. */
  predicate FailedNow(w: World, w': World, now: Time) {
    w.inc.Some? && w'.inc.Some? &&
    var recorded := w.item.Some? && !w.item.value.state.UnknownState?;
    && w'.inc.value.requestActive == (w.inc.value.requestActive && !recorded)
    && w'.inc.value.completing == (w.inc.value.completing && !recorded)
    && (if recorded then w'.item.Some? && w'.item.value.state == Failed && w'.item.value.lastChunkIdx == w.item.value.lastChunkIdx
        else w'.item == w.item)
  }

  /**
   * Main result for every other chunk: a repeat leaves files, item and progress alone; anything else fails
   * the transfer, and only a chunk 0 forgets what was stored.
   */
  lemma OtherChunk(w: World, c: FileChunk, cfg: Setup, io: ChunkIO, now: Time)
    requires w.inc.Some? && !w.inc.value.completed && Shaped(w.inc.value, cfg.threshold)
    requires !Storable(w.inc.value, c, cfg, io)
    ensures var t := w.inc.value;
            var w' := ChunkStep(w, c, cfg, io, now);
            && w'.targets == w.targets && w'.inc.Some?
            && if Directory(t, io) != "" && Ignorable(t, c)
               then w'.temp == w.temp && w'.item == w.item && w'.inc.value.lastChunkIdx == t.lastChunkIdx
                    && w'.inc.value.requestActive == t.requestActive && (t.baseDir != "" ==> w' == w)
               else FailedNow(w, w', now)
                    && w'.inc.value.lastChunkIdx == (if c.index == 0 && Directory(t, io) != "" then -1 else t.lastChunkIdx)
  {
    hide Adds, Storable, Fail, Place, Opened, PayloadPath, FailedNow, Edited;
    StoredIff(w, c, cfg, io);
    if Directory(w.inc.value, io) == "" {
      FailsNow(w, w, "no temp dir", now);
    } else {
      NotAdded(w, c, cfg, io, now);
    }
  }

  /** Whatever failed, the item and the flags tell it. */
  lemma FailsNow(w: World, w1: World, reason: string, now: Time)
    requires w.inc.Some? && w1.inc.Some? && w1.item == w.item
    requires w1.inc.value.requestActive == w.inc.value.requestActive && w1.inc.value.completing == w.inc.value.completing
    ensures var w' := Fail(w1, reason, now);
            && FailedNow(w, w', now) && w'.temp == w1.temp && w'.targets == w1.targets && w'.inc.Some?
            && w'.inc.value.lastChunkIdx == w1.inc.value.lastChunkIdx
            && (w'.item != w.item ==> w'.item.value.errorMessage == reason)
  {
  }

  lemma NotAdded(w: World, c: FileChunk, cfg: Setup, io: ChunkIO, now: Time)
    requires w.inc.Some? && !w.inc.value.completed && Shaped(w.inc.value, cfg.threshold)
    requires Directory(w.inc.value, io) != "" && !Adds(w, Chunk(c, io), cfg)
    ensures var t := w.inc.value;
            var w' := ChunkStep(w, c, cfg, io, now);
            && w'.targets == w.targets && w'.inc.Some?
            && if Ignorable(t, c)
               then w'.temp == w.temp && w'.item == w.item && w'.inc.value.lastChunkIdx == t.lastChunkIdx
                    && w'.inc.value.requestActive == t.requestActive && (t.baseDir != "" ==> w' == w)
               else FailedNow(w, w', now) && w'.inc.value.lastChunkIdx == (if c.index == 0 then -1 else t.lastChunkIdx)
  {
    hide Fail, Place, Opened, FailedNow, RestartedTemp, WithStorage, Restarted, Judge, Shaped;
    var t := WithStorage(w.inc.value, NormalMode(c.mode), io.tempDir);
    var t2, temp2 := ReadyFor(w.inc.value, c, io), FilesReadyFor(w.inc.value, w.temp, c, io);
    SetUpKeeps(w.inc.value, c, cfg, io);
    match Judge(t, c, cfg.e2ee)
    case Repeat =>
    case ModeChanged => FailsNow(w, w.(inc := Some(t)), "unexpected archive mode change", now);
    case OutOfOrder => FailsNow(w, w.(inc := Some(t2), temp := temp2), "unexpected chunk index", now);
    case BadBytes => FailsNow(w, w.(inc := Some(t2), temp := temp2), "bad chunk data", now);
    case Fresh(raw) =>
      var p := Place(t2, temp2, raw, c.index, cfg.threshold, io);
      PlaceFails(t2, temp2, raw, c.index, cfg.threshold, io);
      FailsNow(w, w.(inc := Some(p.t), temp := p.temp), "write failed", now);
  }

  lemma SetUpKeeps(t: Incoming, c: FileChunk, cfg: Setup, io: ChunkIO)
    requires Shaped(t, cfg.threshold)
    ensures var u, v := WithStorage(t, NormalMode(c.mode), io.tempDir), ReadyFor(t, c, io);
            && u.lastChunkIdx == t.lastChunkIdx && u.requestActive == t.requestActive && u.completing == t.completing
            && (t.baseDir != "" ==> u == t)
            && v.lastChunkIdx == (if c.index == 0 then -1 else t.lastChunkIdx)
            && v.requestActive == t.requestActive && v.completing == t.completing
            && (Judge(u, c, cfg.e2ee).Repeat? <==> Ignorable(t, c)) && (c.index == 0 ==> !Judge(u, c, cfg.e2ee).ModeChanged?)
  {
    hide Opened, PayloadPath;
  }

  lemma PlaceFails(t: Incoming, temp: map<string, string>, raw: string, index: int, threshold: nat, io: ChunkIO)
    ensures var p := Place(t, temp, raw, index, threshold, io);
            && p.t.lastChunkIdx == t.lastChunkIdx && p.t.requestActive == t.requestActive && p.t.completing == t.completing
  {
  }
}

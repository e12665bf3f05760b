/**
 * The receiver's objects. Each handler updates the transfer record field by field, as the
 * program does, and is proved equal to its function in module Receiver.
 */
module ReceiverHandlers {
  import opened Wrappers
  import opened Archive
  import opened History
  import opened Receiver

  class IncomingTransfer {
    var manifest: Manifest
    var archiveMode: Mode
    var storageMode: Mode
    var archiveBytes: string
    var baseDir: string
    var archivePath: string
    var lastChunkIdx: int
    var totalChunks: int
    var requestedResumeFrom: int
    var requestActive: bool
    var completing: bool
    var completed: bool

    constructor (manifest: Manifest, lastChunkIdx: int)
      ensures Value() == FreshIncoming(manifest, lastChunkIdx)
    {
      this.manifest, this.lastChunkIdx := manifest, lastChunkIdx;
      archiveMode, storageMode := Unset, Unset;
      archiveBytes, baseDir, archivePath := "", "", "";
      totalChunks, requestedResumeFrom := 0, 0;
      requestActive, completing, completed := false, false, false;
    }

    ghost function Value(): Incoming
      reads this
    {
      Incoming(manifest, archiveMode, storageMode, archiveBytes, baseDir, archivePath, lastChunkIdx, totalChunks,
               requestedResumeFrom, requestActive, completing, completed)
    }
  }

  class Application {
    const cfg: Setup
    var incoming: IncomingTransfer?
    var temp: map<string, string>
    var targets: map<string, string>
    var item: Option<HistoryItem>

    constructor (cfg: Setup, item: Option<HistoryItem>)
      ensures Now() == World(None, map[], map[], item) && this.cfg == cfg
    {
      this.cfg, this.item := cfg, item;
      incoming, temp, targets := null, map[], map[];
    }

    ghost function Now(): World
      reads this, incoming
    {
      World(if incoming == null then None else Some(incoming.Value()), temp, targets, item)
    }

    /** A history edit by transfer id; ok is false when there is no item or history refuses. */
    method MutateItem(edit: Edit, now: Time) returns (ok: bool)
      modifies `item
      ensures ok <==> old(item).Some? && Edited(old(item).value, edit, now).Ok?
      ensures item == EditedOrSame(old(item), edit, now)
    {
      if item.None? {
        return false;
      }
      var next := Edited(item.value, edit, now);
      if next.Err? {
        return false;
      }
      item := Some(next.value);
      return true;
    }

    method FailIncomingTransfer(reason: string, now: Time)
      modifies this, incoming
      ensures incoming == old(incoming)
      ensures Now() == Fail(old(Now()), reason, now)
    {
      var ok := MutateItem(FailEdit(reason), now);
      if !ok {
        return;
      }
      if incoming != null {
        incoming.requestActive := false;
        incoming.completing := false;
      }
    }

    /** The part of handleFileChunk that sets up the temporary directory and the modes. */
    method PrepareStorage(t: IncomingTransfer, mode: Mode, tempDir: string)
      requires tempDir != "" || t.baseDir != ""
      modifies t
      ensures t.Value() == WithStorage(old(t.Value()), mode, tempDir)
    {
      if t.baseDir == "" {
        t.baseDir := tempDir;
        t.archiveMode := mode;
        t.storageMode := mode;
        if t.storageMode == Disk {
          t.archivePath := PayloadPath(tempDir, t.manifest);
        }
      }
      if t.archiveMode == Unset {
        t.archiveMode := mode;
      }
      if t.storageMode == Unset {
        t.storageMode := mode;
      }
    }

    method Restart(t: IncomingTransfer, mode: Mode)
      requires t == incoming
      modifies t, `temp
      ensures t.Value() == Restarted(old(t.Value()), mode)
      ensures temp == RestartedTemp(old(t.Value()), mode, old(temp))
    {
      t.archiveMode := mode;
      t.storageMode := mode;
      t.lastChunkIdx := -1;
      t.totalChunks := 0;
      t.archiveBytes := "";
      if t.archivePath == "" && t.storageMode == Disk {
        t.archivePath := PayloadPath(t.baseDir, t.manifest);
      } else if t.storageMode == Memory && t.archivePath != "" {
        temp := temp - {t.archivePath};
      }
    }

    method Store(t: IncomingTransfer, raw: string, index: int, io: ChunkIO) returns (ok: bool)
      requires t == incoming
      modifies t, `temp
      ensures Placed(t.Value(), temp, ok) == Place(old(t.Value()), old(temp), raw, index, cfg.threshold, io)
    {
      if t.storageMode == Memory {
        if |t.archiveBytes| + |raw| <= cfg.threshold {
          t.archiveBytes := t.archiveBytes + raw;
        } else {
          if t.archivePath == "" {
            t.archivePath := PayloadPath(t.baseDir, t.manifest);
          }
          if !io.spillOK {
            return false;
          }
          temp := temp[t.archivePath := t.archiveBytes];
          t.archiveBytes := "";
          t.storageMode := Disk;
          if !io.appendOK {
            return false;
          }
          temp := temp[t.archivePath := temp[t.archivePath] + raw];
        }
      } else {
        var truncate := index == 0;
        if t.archivePath == "" || !io.appendOK {
          return false;
        }
        if truncate || t.archivePath !in temp {
          temp := temp[t.archivePath := raw];
        } else {
          temp := temp[t.archivePath := temp[t.archivePath] + raw];
        }
      }
      return true;
    }

    method HandleFileChunk(c: FileChunk, io: ChunkIO, now: Time)
      modifies this, incoming
      ensures incoming == old(incoming)
      ensures Now() == ChunkStep(old(Now()), c, cfg, io, now)
    {
      if incoming == null {
        FailIncomingTransfer("incoming transfer not found", now);
        return;
      }
      var t := incoming;
      if t.completed {
        return;
      }
      var chunkMode := NormalMode(c.mode);
      if t.baseDir == "" && io.tempDir == "" {
        FailIncomingTransfer("no temp dir", now);
        return;
      }
      PrepareStorage(t, chunkMode, io.tempDir);
      AcceptChunk(t, c, io, now);
    }

    /** The rest of handleFileChunk: order, mode and digest checks, then storage. */
    method AcceptChunk(t: IncomingTransfer, c: FileChunk, io: ChunkIO, now: Time)
      requires t == incoming
      modifies this, t
      ensures incoming == old(incoming)
      ensures Now() == JudgedStep(old(Now()), old(t.Value()), c, cfg, io, now)
    {
      hide KeepStep, Fail;
      var chunkMode := NormalMode(c.mode);
      ghost var t1 := t.Value();
      var expectedIdx := t.lastChunkIdx + 1;
      if c.index == 0 && t.requestedResumeFrom > 0 {
        expectedIdx := 0;
      }
      if c.index < expectedIdx {
        assert Judge(t1, c, cfg.e2ee) == Repeat;
        return;
      }
      if t.archiveMode != chunkMode && c.index != 0 {
        assert Judge(t1, c, cfg.e2ee) == ModeChanged;
        FailIncomingTransfer("unexpected archive mode change", now);
        return;
      }
      if c.index == 0 {
        Restart(t, chunkMode);
      }
      if c.index != expectedIdx {
        assert Judge(t1, c, cfg.e2ee) == OutOfOrder;
        FailIncomingTransfer("unexpected chunk index", now);
        return;
      }
      var body := Opened(c.data, cfg.e2ee, t.manifest.transferID, c.index);
      if body.None? || c.sha != Sha256(body.value) {
        assert Judge(t1, c, cfg.e2ee) == BadBytes;
        FailIncomingTransfer("bad chunk data", now);
        return;
      }
      assert Judge(t1, c, cfg.e2ee) == Fresh(body.value);
      KeepBody(t, body.value, c, io, now);
    }

    method KeepBody(t: IncomingTransfer, raw: string, c: FileChunk, io: ChunkIO, now: Time)
      requires t == incoming
      modifies this, t
      ensures incoming == old(incoming)
      ensures Now() == KeepStep(old(Now()), old(t.Value()), raw, c, cfg, io, now)
    {
      hide Place, Fail, EditedOrSame;
      var stored := Store(t, raw, c.index, io);
      if !stored {
        FailIncomingTransfer("write failed", now);
        return;
      }
      t.lastChunkIdx := c.index;
      t.totalChunks := c.totalChunks;
      t.requestedResumeFrom := 0;
      var told := MutateItem(ProgressEdit(t.lastChunkIdx), now);
    }

    method HandleFileComplete(m: FileComplete, io: CompleteIO, now: Time)
      modifies this, incoming
      ensures incoming == old(incoming)
      ensures Now() == CompleteStep(old(Now()), m, io, now)
    {
      hide Land, WithReserved;
      if incoming == null || incoming.completed || incoming.completing {
        return;
      }
      var t := incoming;
      t.completing := true;
      ghost var t0 := t.Value();
      var copy := IncomingArchiveCopy(t, io);
      if copy.None? || Sha256(copy.value) != m.sha || |copy.value| != m.totalBytes {
        FailIncomingTransfer("archive mismatch", now);
        return;
      }
      var ready := EnsureReplayTargetPaths(io.planned, now);
      if !ready {
        FailIncomingTransfer("no target", now);
        return;
      }
      ghost var w2 := Now();
      var paths := Deliver(t, copy.value, io);
      if paths.None? {
        FailIncomingTransfer("landing failed", now);
        return;
      }
      CloseTransfer(t, paths.value, io, now);
    }

    /** The copy incomingArchiveSHA256 digests. */
    method IncomingArchiveCopy(t: IncomingTransfer, io: CompleteIO) returns (copy: Option<string>)
      ensures copy == HashedCopy(t.Value(), temp, io.hashOK)
    {
      if |t.archiveBytes| > 0 {
        return Some(t.archiveBytes);
      }
      if t.archivePath == "" && t.manifest.raw {
        return Some("");
      }
      if t.archivePath !in temp || !io.hashOK {
        return None;
      }
      return Some(temp[t.archivePath]);
    }

    method EnsureReplayTargetPaths(planned: Option<seq<string>>, now: Time) returns (ok: bool)
      modifies `item
      ensures ok <==> WithReserved(old(Now()), planned, now).Some?
      ensures Now() == if ok then WithReserved(old(Now()), planned, now).value else old(Now())
    {
      if item.None? || |item.value.reservedPaths| > 0 {
        return true;
      }
      if planned.None? {
        return false;
      }
      ok := MutateItem(ReserveEdit(planned.value), now);
    }

    /** Looks for the same bytes at the reserved path. */
    method TryReuse(t: IncomingTransfer, copy: string, io: CompleteIO) returns (found: Option<Option<string>>)
      requires t == incoming
      ensures found == AlreadyThere(t.Value(), Now(), copy, io)
    {
      if item.None? || !t.manifest.raw || |item.value.reservedPaths| == 0 {
        return Some(None);
      }
      var target := io.normalize(item.value.reservedPaths[0]);
      if target.None? {
        return None;
      }
      if target.value !in targets {
        return Some(None);
      }
      if !io.probeOK {
        return None;
      }
      var there := targets[target.value];
      if |there| != |copy| || Sha256(there) != Sha256(copy) {
        return Some(None);
      }
      return Some(Some(target.value));
    }

    /** Reuses the reserved file or writes, moves or unpacks the payload. */
    method Deliver(t: IncomingTransfer, copy: string, io: CompleteIO) returns (paths: Option<seq<string>>)
      requires t == incoming
      modifies `temp, `targets
      ensures Landing(paths, temp, targets) == Land(t.Value(), old(Now()), copy, io)
    {
      var reuse := TryReuse(t, copy, io);
      if reuse.None? {
        return None;
      }
      if reuse.value.Some? {
        return Some([reuse.value.value]);
      }
      var reserved := if item.Some? then item.value.reservedPaths else [];
      var wanted := if |reserved| > 0 then Some(reserved) else io.planned;
      if wanted.None? {
        return None;
      }
      var normal := NormalizeAll(wanted.value, io.normalize);
      if normal.None? {
        return None;
      }
      if !t.manifest.raw {
        return LandZip(t.manifest.kind, normal.value, io);
      }
      paths := WriteRaw(t, normal.value, io);
    }

    method WriteRaw(t: IncomingTransfer, reserved: seq<string>, io: CompleteIO) returns (paths: Option<seq<string>>)
      requires t == incoming
      modifies `temp, `targets
      ensures Landing(paths, temp, targets) == LandRaw(t.Value(), old(temp), old(targets), reserved, io)
    {
      if |reserved| == 0 || !io.parentOK {
        return None;
      }
      if |t.archiveBytes| > 0 {
        if !io.writeOK {
          return None;
        }
        targets := targets[reserved[0] := t.archiveBytes];
      } else if t.archivePath != "" {
        targets := targets - {reserved[0]};
        if t.archivePath !in temp || io.move == NotMoved {
          return None;
        }
        targets := targets[reserved[0] := temp[t.archivePath]];
        if io.move == CopiedOnly {
          return None;
        }
        temp := temp - {t.archivePath};
      } else {
        if !io.writeOK {
          return None;
        }
        targets := targets[reserved[0] := ""];
      }
      return Some(reserved);
    }

    method CloseTransfer(t: IncomingTransfer, localPaths: seq<string>, io: CompleteIO, now: Time)
      requires t == incoming
      modifies this, t
      ensures incoming == old(incoming)
      ensures Now() == Finish(old(Now()), old(t.Value()), Landing(Some(localPaths), old(temp), old(targets)), io, now)
    {
      hide Edited;
      var told := MutateItem(ReadyEdit(localPaths, t.lastChunkIdx), now);
      t.requestActive := false;
      t.completing := false;
      t.completed := true;
      if t.archivePath != "" {
        temp := temp - {t.archivePath};
      }
      t.archivePath := "";
      t.archiveBytes := "";
      if told {
        CompletePendingReplayMode(io.stageOK, now);
      }
    }

    method CompletePendingReplayMode(stageOK: bool, now: Time)
      modifies `item
      ensures item == PendingDone(old(item), stageOK, now)
    {
      if item.None? {
        return;
      }
      match item.value.pendingReplayMode {
        case SystemClipboard =>
          if stageOK {
            var ok := MutateItem(ConsumeEdit(), now);
          }
        case PathPlaceholder =>
          var ok := MutateItem(ConsumeEdit(), now);
        case Immediate =>
          var ok := MutateItem(ClearPendingEdit(), now);
        case NoMode =>
      }
    }

    method HandleFileError(message: string, now: Time)
      modifies this, incoming
      ensures incoming == old(incoming)
      ensures Now() == Fail(old(Now()), message, now)
    {
      FailIncomingTransfer(message, now);
    }

    /** requestFileTransfer for x, the caller's copy of the history item. */
    method RequestFileTransfer(x: HistoryItem, manifest: Manifest, sendOK: bool, now: Time)
      returns (handed: Option<FileRequest>, sent: bool)
      modifies this, incoming
      ensures RequestResult(Now(), handed, sent) == RequestStep(old(Now()), x, manifest, cfg.sessionID, sendOK, now)
    {
      hide Edited, EditedOrSame;
      var resumeFrom := 0;
      if x.state == Failed && x.lastChunkIdx >= 0 {
        resumeFrom := x.lastChunkIdx + 1;
      }
      var requestAlreadyActive := MarkRequested(x, manifest, resumeFrom);
      if requestAlreadyActive {
        return None, false;
      }
      var request := FileRequest(manifest.transferID, manifest.entryID, cfg.sessionID, resumeFrom);
      var prevState := x.state;
      var updated := StartDownloading(x.id, now);
      if !updated && x.state != Downloading {
        incoming.requestActive := false;
        return None, false;
      }
      if sendOK {
        return Some(request), true;
      }
      incoming.requestActive := false;
      if prevState != Downloading && item.Some? && item.value.id == x.id {
        var ok := MutateItem(StateEdit(prevState), now);
      }
      return Some(request), false;
    }

    /** Marks the transfer as requested, registering it if it is new; tells whether it was marked before. */
    method MarkRequested(x: HistoryItem, manifest: Manifest, resumeFrom: int) returns (already: bool)
      modifies this, incoming
      ensures already <==> old(Now()).inc.Some? && old(Now()).inc.value.requestActive
      ensures incoming != null && (incoming == old(incoming) || fresh(incoming))
      ensures Now() == old(Now()).(inc := Some(WithRequest(old(Now()).inc, manifest, x, resumeFrom)))
    {
      if incoming != null {
        incoming.manifest := manifest;
        incoming.requestedResumeFrom := resumeFrom;
        if incoming.requestActive {
          return true;
        }
        incoming.requestActive := true;
        return false;
      }
      incoming := new IncomingTransfer(manifest, x.lastChunkIdx);
      incoming.requestedResumeFrom := resumeFrom;
      incoming.requestActive := true;
      return false;
    }

    /** UpdateState of the listed item to Downloading. */
    method StartDownloading(id: string, now: Time) returns (ok: bool)
      modifies `item
      ensures ok <==> old(item).Some? && old(item).value.id == id && IsValidTransition(old(item).value.state, Downloading)
      ensures item == if ok then Some(old(item).value.(state := Downloading, updatedAt := now)) else old(item)
    {
      if item.None? || item.value.id != id || !IsValidTransition(item.value.state, Downloading) {
        return false;
      }
      item := Some(item.value.(state := Downloading, updatedAt := now));
      return true;
    }
  }
}

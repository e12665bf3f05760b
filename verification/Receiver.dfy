/**
 * The receiving side of one transfer as plain values: what each handler does to the transfer
 * record, the files and the history item. ReceiverHandlers.dfy holds the objects whose handlers
 * are proved equal to these functions.
 */
module Receiver {
  import opened Wrappers
  import opened Archive
  import opened History

  datatype Incoming = Incoming(
    manifest: Manifest,
    archiveMode: Mode,
    storageMode: Mode,
    archiveBytes: string,
    baseDir: string,
    archivePath: string,
    lastChunkIdx: int,
    totalChunks: int,
    requestedResumeFrom: int,
    requestActive: bool,
    completing: bool,
    completed: bool)

  // temp: files in the transfer's own temporary directory. targets: files under the replay root.
  // item: the history item carrying this transfer id, if there is one.
  datatype World = World(
    inc: Option<Incoming>,
    temp: map<string, string>,
    targets: map<string, string>,
    item: Option<HistoryItem>)

  datatype Setup = Setup(threshold: nat, e2ee: bool, sessionID: string)

  // Which file operations of a chunk handler succeed; tempDir is "" when none can be made.
  datatype ChunkIO = ChunkIO(tempDir: string, spillOK: bool, appendOK: bool)

  datatype MoveOutcome = Moved | CopiedOnly | NotMoved

  // planned: paths chosen for an item without any. normalize: the path under the replay root a
  // reserved path stands for, if it stays inside. extracted: result of unpacking a zip payload.
  datatype CompleteIO = CompleteIO(
    planned: Option<seq<string>>,
    normalize: string -> Option<string>,
    hashOK: bool,
    probeOK: bool,
    parentOK: bool,
    writeOK: bool,
    move: MoveOutcome,
    extracted: Option<seq<string>>,
    stageOK: bool)

  function FreshIncoming(manifest: Manifest, lastChunkIdx: int): Incoming {
    Incoming(manifest, Unset, Unset, "", "", "", lastChunkIdx, 0, 0, false, false, false)
  }

  function PayloadName(manifest: Manifest): string {
    if manifest.raw then "payload.bin" else "payload.zip"
  }

  function PayloadPath(baseDir: string, manifest: Manifest): string {
    baseDir + "/" + PayloadName(manifest)
  }

  function NormalMode(mode: Mode): Mode {
    if mode == Memory then Memory else Disk
  }

  // ---------------------------------------------------------------- failing

  function FailEdit(reason: string): Edit {
    (x: HistoryItem) => Ok(x.(state := Failed, errorMessage := reason))
  }

  /** Marks the item Failed; only when history accepts that is the request flag cleared. */
  function Fail(w: World, reason: string, now: Time): World {
    match w.item
    case None => w
    case Some(x) =>
      match Edited(x, FailEdit(reason), now)
      case Err(_) => w
      case Ok(y) =>
        w.(item := Some(y),
           inc := if w.inc.None? then None
                  else Some(w.inc.value.(requestActive := false, completing := false)))
  }

  // ---------------------------------------------------------------- a chunk arrives

  /** The first chunk creates the temporary directory and fixes where bytes are kept. */
  function WithStorage(t: Incoming, mode: Mode, tempDir: string): Incoming {
    var t1 :=
      if t.baseDir != "" then t
      else
        t.(baseDir := tempDir, archiveMode := mode, storageMode := mode,
           archivePath := if mode == Disk then PayloadPath(tempDir, t.manifest) else t.archivePath);
    t1.(archiveMode := if t1.archiveMode == Unset then mode else t1.archiveMode,
        storageMode := if t1.storageMode == Unset then mode else t1.storageMode)
  }

  /** The index the receiver is ready to store: chunk 0 counts as next while a resume is pending. */
  function ExpectedIndex(t: Incoming, index: int): int {
    if index == 0 && t.requestedResumeFrom > 0 then 0 else t.lastChunkIdx + 1
  }

  /** Chunk 0 starts over. */
  function Restarted(t: Incoming, mode: Mode): Incoming {
    t.(archiveMode := mode, storageMode := mode, lastChunkIdx := -1, totalChunks := 0, archiveBytes := "",
       archivePath := if t.archivePath == "" && mode == Disk then PayloadPath(t.baseDir, t.manifest) else t.archivePath)
  }

  function RestartedTemp(t: Incoming, mode: Mode, temp: map<string, string>): map<string, string> {
    if mode == Memory && t.archivePath != "" then temp - {t.archivePath} else temp
  }

  datatype Placed = Placed(t: Incoming, temp: map<string, string>, ok: bool)

  /** Appends to a file, truncating it first if asked; a failed write leaves the file as it was. */
  function Appended(temp: map<string, string>, path: string, bytes: string, truncate: bool): map<string, string> {
    temp[path := if truncate || path !in temp then bytes else temp[path] + bytes]
  }

  /** Keeps the bytes in memory up to the threshold, spills to disk beyond it, appends on disk. */
  function Place(t: Incoming, temp: map<string, string>, raw: string, index: int, threshold: nat, io: ChunkIO): Placed {
    if t.storageMode == Memory then
      if |t.archiveBytes| + |raw| <= threshold then Placed(t.(archiveBytes := t.archiveBytes + raw), temp, true)
      else
        var path := if t.archivePath == "" then PayloadPath(t.baseDir, t.manifest) else t.archivePath;
        var named := t.(archivePath := path);
        if !io.spillOK then Placed(named, temp, false)
        else
          var spilled := Appended(temp, path, t.archiveBytes, true);
          var moved := named.(archiveBytes := "", storageMode := Disk);
          if !io.appendOK then Placed(moved, spilled, false)
          else Placed(moved, Appended(spilled, path, raw, false), true)
    else if t.archivePath == "" || !io.appendOK then Placed(t, temp, false)
    else Placed(t, Appended(temp, t.archivePath, raw, index == 0), true)
  }

  function ProgressEdit(lastChunkIdx: int): Edit {
    (x: HistoryItem) => Ok(x.(lastChunkIdx := lastChunkIdx, state := Downloading))
  }

  /** The item after an edit by transfer id whose refusal is ignored. */
  function EditedOrSame(item: Option<HistoryItem>, edit: Edit, now: Time): Option<HistoryItem> {
    match item
    case None => None
    case Some(x) =>
      match Edited(x, edit, now)
      case Err(_) => item
      case Ok(y) => Some(y)
  }

  datatype Verdict = Repeat | ModeChanged | OutOfOrder | BadBytes | Fresh(raw: string)

  /** What the handler makes of a chunk, storage being set up. */
  function Judge(t: Incoming, c: FileChunk, e2ee: bool): Verdict {
    var expected := ExpectedIndex(t, c.index);
    if c.index < expected then Repeat
    else if t.archiveMode != NormalMode(c.mode) && c.index != 0 then ModeChanged
    else if c.index != expected then OutOfOrder
    else
      match Opened(c.data, e2ee, t.manifest.transferID, c.index)
      case None => BadBytes
      case Some(raw) => if c.sha == Sha256(raw) then Fresh(raw) else BadBytes
  }

  /** A good chunk is stored, the record moves on, and history is told. */
  function KeepStep(w: World, t: Incoming, raw: string, c: FileChunk, cfg: Setup, io: ChunkIO, now: Time): World {
    var p := Place(t, w.temp, raw, c.index, cfg.threshold, io);
    if !p.ok then Fail(w.(inc := Some(p.t), temp := p.temp), "write failed", now)
    else
      var moved := p.t.(lastChunkIdx := c.index, totalChunks := c.totalChunks, requestedResumeFrom := 0);
      w.(inc := Some(moved), temp := p.temp, item := EditedOrSame(w.item, ProgressEdit(c.index), now))
  }

  /** handleFileChunk once storage is set up. */
  function JudgedStep(w: World, t: Incoming, c: FileChunk, cfg: Setup, io: ChunkIO, now: Time): World {
    var mode := NormalMode(c.mode);
    var t2 := if c.index == 0 then Restarted(t, mode) else t;
    var temp2 := if c.index == 0 then RestartedTemp(t, mode, w.temp) else w.temp;
    match Judge(t, c, cfg.e2ee)
    case Repeat => w.(inc := Some(t))
    case ModeChanged => Fail(w.(inc := Some(t)), "unexpected archive mode change", now)
    case OutOfOrder => Fail(w.(inc := Some(t2), temp := temp2), "unexpected chunk index", now)
    case BadBytes => Fail(w.(inc := Some(t2), temp := temp2), "bad chunk data", now)
    case Fresh(raw) => KeepStep(w.(inc := Some(t2), temp := temp2), t2, raw, c, cfg, io, now)
  }

  /** handleFileChunk, under the transfer mutex and then the history edit. */
  function ChunkStep(w: World, c: FileChunk, cfg: Setup, io: ChunkIO, now: Time): World {
    if w.inc.None? then Fail(w, "incoming transfer not found", now)
    else if w.inc.value.completed then w
    else if w.inc.value.baseDir == "" && io.tempDir == "" then Fail(w, "no temp dir", now)
    else JudgedStep(w, WithStorage(w.inc.value, NormalMode(c.mode), io.tempDir), c, cfg, io, now)
  }

  // ---------------------------------------------------------------- the sender says it is done

  /** The copy whose digest and length the completion check takes: memory first, then the file. */
  function HashedCopy(t: Incoming, temp: map<string, string>, hashOK: bool): Option<string> {
    if t.archiveBytes != "" then Some(t.archiveBytes)
    else if t.archivePath == "" && t.manifest.raw then Some("")
    else if t.archivePath in temp && hashOK then Some(temp[t.archivePath])
    else None
  }

  function NormalizeAll(paths: seq<string>, normalize: string -> Option<string>): (r: Option<seq<string>>)
    ensures r.Some? ==> |r.value| == |paths|
    ensures r.Some? ==> forall i :: 0 <= i < |paths| ==> normalize(paths[i]) == Some(r.value[i])
  {
    if paths == [] then Some([])
    else
      match (normalize(paths[0]), NormalizeAll(paths[1..], normalize))
      case (Some(p), Some(ps)) => Some([p] + ps)
      case _ => None
  }

  datatype Landing = Landing(paths: Option<seq<string>>, temp: map<string, string>, targets: map<string, string>)

  /** Writes or moves a raw payload to its first reserved path. */
  function LandRaw(t: Incoming, temp: map<string, string>, targets: map<string, string>, paths: seq<string>, io: CompleteIO): Landing {
    if paths == [] || !io.parentOK then Landing(None, temp, targets)
    else if t.archiveBytes != "" then
      if io.writeOK then Landing(Some(paths), temp, targets[paths[0] := t.archiveBytes]) else Landing(None, temp, targets)
    else if t.archivePath != "" then
      var cleared := targets - {paths[0]};
      if t.archivePath !in temp || io.move == NotMoved then Landing(None, temp, cleared)
      else if io.move == CopiedOnly then Landing(None, temp, cleared[paths[0] := temp[t.archivePath]])
      else Landing(Some(paths), temp - {t.archivePath}, cleared[paths[0] := temp[t.archivePath]])
    else if io.writeOK then Landing(Some(paths), temp, targets[paths[0] := ""])
    else Landing(None, temp, targets)
  }

  /** Local paths of an unpacked payload: one folder keeps its reserved name, bundles need a file. */
  function LandZip(kind: string, paths: seq<string>, io: CompleteIO): Option<seq<string>> {
    if paths == [] || !io.parentOK || io.extracted.None? then None
    else if kind == "multi_file" then
      if io.extracted.value == [] then None else io.extracted
    else if kind == "folder" then
      if |io.extracted.value| != 1 || (io.extracted.value[0] != paths[0] && io.move != Moved) then None else Some([paths[0]])
    else if |io.extracted.value| != 1 || io.move != Moved then None
    else Some(paths)
  }

  /** materializeIncomingTransfer. */
  function Materialize(t: Incoming, w: World, io: CompleteIO): Landing {
    var reserved := if w.item.Some? then w.item.value.reservedPaths else [];
    var wanted := if reserved != [] then Some(reserved) else io.planned;
    if wanted.None? then Landing(None, w.temp, w.targets)
    else
      match NormalizeAll(wanted.value, io.normalize)
      case None => Landing(None, w.temp, w.targets)
      case Some(paths) =>
        if t.manifest.raw then LandRaw(t, w.temp, w.targets, paths, io)
        else Landing(LandZip(t.manifest.kind, paths, io), w.temp, w.targets)
  }

  /** Whether the reserved file already holds the archive; None when that cannot be told. */
  function AlreadyThere(t: Incoming, w: World, copy: string, io: CompleteIO): Option<Option<string>> {
    if w.item.None? || !t.manifest.raw || w.item.value.reservedPaths == [] then Some(None)
    else
      match io.normalize(w.item.value.reservedPaths[0])
      case None => None
      case Some(p) =>
        if p !in w.targets then Some(None)
        else if !io.probeOK then None
        else if |w.targets[p]| == |copy| && Sha256(w.targets[p]) == Sha256(copy) then Some(Some(p))
        else Some(None)
  }

  function ReserveEdit(paths: seq<string>): Edit {
    (x: HistoryItem) => Ok(if x.reservedPaths == [] then x.(reservedPaths := paths) else x)
  }

  function ReadyEdit(paths: seq<string>, lastChunkIdx: int): Edit {
    (x: HistoryItem) => Ok(x.(state := ReadyToPaste, localPaths := paths, lastChunkIdx := lastChunkIdx, errorMessage := "",
                              reservedPaths := if x.reservedPaths == [] then paths else x.reservedPaths))
  }

  function ConsumedItem(x: HistoryItem): HistoryItem {
    x.(state := Consumed, pendingReplayMode := NoMode)
  }

  function ConsumeEdit(): Edit {
    (x: HistoryItem) => Ok(ConsumedItem(x))
  }

  function ClearPendingEdit(): Edit {
    (x: HistoryItem) => Ok(x.(pendingReplayMode := NoMode))
  }

  /** completePendingReplayMode: what was asked for while the file was still away. */
  function PendingDoneEdit(stageOK: bool): Edit {
    (x: HistoryItem) =>
      match x.pendingReplayMode
      case SystemClipboard => if stageOK then Ok(ConsumedItem(x)) else Err(Refused("staging failed"))
      case PathPlaceholder => Ok(ConsumedItem(x))
      case Immediate => Ok(x.(pendingReplayMode := NoMode))
      case NoMode => Err(Refused("nothing pending"))
  }

  function PendingDone(item: Option<HistoryItem>, stageOK: bool, now: Time): Option<HistoryItem> {
    EditedOrSame(item, PendingDoneEdit(stageOK), now)
  }

  /** After the payload has landed: tell history, close the transfer, drop its archive. */
  function Finish(w: World, t: Incoming, landed: Landing, io: CompleteIO, now: Time): World
    requires landed.paths.Some?
  {
    var told := EditedOrSame(w.item, ReadyEdit(landed.paths.value, t.lastChunkIdx), now);
    var accepted := w.item.Some? && Edited(w.item.value, ReadyEdit(landed.paths.value, t.lastChunkIdx), now).Ok?;
    var closed := t.(requestActive := false, completing := false, completed := true, archivePath := "", archiveBytes := "");
    World(Some(closed), if t.archivePath == "" then landed.temp else landed.temp - {t.archivePath}, landed.targets,
          if accepted then PendingDone(told, io.stageOK, now) else told)
  }

  /** The completion check: digest and length of the kept copy against what the sender claims. */
  function Checked(t: Incoming, temp: map<string, string>, m: FileComplete, hashOK: bool): Option<string> {
    match HashedCopy(t, temp, hashOK)
    case None => None
    case Some(copy) => if Sha256(copy) == m.sha && |copy| == m.totalBytes then Some(copy) else None
  }

  /** Gives an item without reserved paths the planned ones. */
  function WithReserved(w: World, planned: Option<seq<string>>, now: Time): Option<World> {
    if w.item.None? || w.item.value.reservedPaths != [] then Some(w)
    else if planned.None? then None
    else
      match Edited(w.item.value, ReserveEdit(planned.value), now)
      case Err(_) => None
      case Ok(y) => Some(w.(item := Some(y)))
  }

  /** Reuse the reserved file or materialise; paths is None when that failed. */
  function Land(t: Incoming, w: World, copy: string, io: CompleteIO): Landing {
    match AlreadyThere(t, w, copy, io)
    case None => Landing(None, w.temp, w.targets)
    case Some(Some(p)) => Landing(Some([p]), w.temp, w.targets)
    case Some(None) => Materialize(t, w, io)
  }

  /** handleFileComplete, run to its end. */
  function CompleteStep(w: World, m: FileComplete, io: CompleteIO, now: Time): World {
    if w.inc.None? || w.inc.value.completed || w.inc.value.completing then w
    else
      var t := w.inc.value.(completing := true);
      var w1 := w.(inc := Some(t));
      match Checked(t, w.temp, m, io.hashOK)
      case None => Fail(w1, "archive mismatch", now)
      case Some(copy) =>
        match WithReserved(w1, io.planned, now)
        case None => Fail(w1, "no target", now)
        case Some(w2) =>
          var landed := Land(t, w2, copy, io);
          if landed.paths.None? then Fail(w2.(temp := landed.temp, targets := landed.targets), "landing failed", now)
          else Finish(w2, t, landed, io, now)
  }

  // ---------------------------------------------------------------- a hotkey asks for the file

  datatype RequestResult = RequestResult(w: World, handed: Option<FileRequest>, sent: bool)

  function ResumeIndex(x: HistoryItem): int {
    if x.state == Failed && x.lastChunkIdx >= 0 then x.lastChunkIdx + 1 else 0
  }

  function StateEdit(s: ItemState): Edit {
    (x: HistoryItem) => Ok(x.(state := s))
  }

  function WithRequest(inc: Option<Incoming>, manifest: Manifest, x: HistoryItem, resumeFrom: int): Incoming {
    var t := if inc.Some? then inc.value.(manifest := manifest) else FreshIncoming(manifest, x.lastChunkIdx);
    t.(requestedResumeFrom := resumeFrom, requestActive := true)
  }

  /**
   * requestFileTransfer for x, the caller's copy of the item: the list may meanwhile hold another state
   * or nothing under that id. `handed` is the request given to the transport, `sent` whether it took it.
   */
  function RequestStep(w: World, x: HistoryItem, manifest: Manifest, sessionID: string, sendOK: bool, now: Time): RequestResult {
    var resumeFrom := ResumeIndex(x);
    var t := WithRequest(w.inc, manifest, x, resumeFrom);
    var w1 := w.(inc := Some(t));
    var listed := w.item.Some? && w.item.value.id == x.id;
    var moves := listed && IsValidTransition(w.item.value.state, Downloading);
    if w.inc.Some? && w.inc.value.requestActive then RequestResult(w1, None, false)
    else if !moves && x.state != Downloading then RequestResult(w1.(inc := Some(t.(requestActive := false))), None, false)
    else
      var moved := if moves then Some(w.item.value.(state := Downloading, updatedAt := now)) else w.item;
      var request := FileRequest(manifest.transferID, manifest.entryID, sessionID, resumeFrom);
      if sendOK then RequestResult(w1.(item := moved), Some(request), true)
      else
        RequestResult(
          w1.(inc := Some(t.(requestActive := false)),
              item := if listed && x.state != Downloading then EditedOrSame(moved, StateEdit(x.state), now) else moved),
          Some(request), false)
  }
}

/** What a successful completion delivers, which requests can be outstanding, and where the code stalls. */
module TransferFacts {
  import opened Wrappers
  import opened Archive
  import opened History
  import opened Receiver
  import opened TransferRuns

  // ---------------------------------------------------------------- a raw payload lands

  ghost predicate ClosesNow(w: World, m: FileComplete, io: CompleteIO, now: Time) {
    && w.inc.Some? && !w.inc.value.completed
    && var w' := CompleteStep(w, m, io, now); w'.inc.Some? && w'.inc.value.completed
  }

  /** A raw landing leaves exactly the kept copy at its first path and touches no other target. */
  lemma RawLandingIsExact(t: Incoming, w: World, copy: string, io: CompleteIO)
    requires t.manifest.raw && HashedCopy(t, w.temp, true) == Some(copy)
    requires Land(t, w, copy, io).paths.Some?
    ensures var landed := Land(t, w, copy, io);
            && landed.paths.value != []
            && landed.targets == w.targets[landed.paths.value[0] := copy]
            && (w.item.Some? && w.item.value.reservedPaths != [] ==>
                  io.normalize(w.item.value.reservedPaths[0]) == Some(landed.paths.value[0]))
  {
    var there := AlreadyThere(t, w, copy, io);
    assert there.Some?;
    if there.value.Some? {
      var p := there.value.value;
      assert w.targets == w.targets[p := copy];
    } else {
      var landed := Materialize(t, w, io);
      var paths := landed.paths.value;
      assert (w.targets - {paths[0]})[paths[0] := copy] == w.targets[paths[0] := copy];
    }
  }

  /** What lies under the target after unpacking and, for a single payload not yet in place, moving it. */
  function ThereAfterZip(kind: string, paths: seq<string>, extracted: seq<string>): set<string>
    requires paths != []
  {
    var unpacked := set p | p in extracted;
    if kind == "multi_file" || |extracted| != 1 || extracted[0] == paths[0] then unpacked
    else unpacked - {extracted[0]} + {paths[0]}
  }

  /** A zip landing tells history paths that are there: all of a bundle, the one folder, or the one file first. */
  lemma ZipPathsAreThere(kind: string, paths: seq<string>, io: CompleteIO)
    requires LandZip(kind, paths, io).Some?
    ensures var told := LandZip(kind, paths, io).value;
            && paths != [] && io.extracted.Some? && told != []
            && var there := ThereAfterZip(kind, paths, io.extracted.value);
               && told[0] in there
               && (kind == "multi_file" || kind == "folder" || |paths| == 1 ==> forall p :: p in told <==> p in there)
  {
  }

  /** The file_complete names `copy`, which was the kept copy and is now the only change among the targets. */
  ghost predicate Delivered(w: World, w': World, m: FileComplete, io: CompleteIO, path: string, copy: string)
    requires w.inc.Some?
  {
    var t := w.inc.value;
    && HashedCopy(t, w.temp, true) == Some(copy)
    && m.sha == Sha256(copy) && m.totalBytes == |copy|
    && w'.targets == w.targets[path := copy]
    && (t.archivePath != "" ==> t.archivePath !in w'.temp)
    && (w.item.Some? && w.item.value.reservedPaths != [] ==>
          io.normalize(w.item.value.reservedPaths[0]) == Some(path))
    && (w.item.Some? && IsValidTransition(w.item.value.state, ReadyToPaste) ==>
          w'.item.Some? && w'.item.value.localPaths != [] && w'.item.value.localPaths[0] == path)
  }

  /**
   * Main result. Whatever happened before - chunks of one archive or of two different rebuilds, in
   * memory or spilled, a matching file already there or none - a raw transfer that closes has put at
   * the reserved path exactly the bytes the accepted file_complete names, has changed no other
   * target file, and has removed its own archive file.
   */
  lemma RawSuccessDeliversTheArchive(w: World, m: FileComplete, io: CompleteIO, now: Time)
    requires ClosesNow(w, m, io, now) && w.inc.value.manifest.raw
    ensures var w' := CompleteStep(w, m, io, now);
            exists path, copy :: Delivered(w, w', m, io, path, copy)
  {
    var t := w.inc.value.(completing := true);
    var w1 := w.(inc := Some(t));
    assert !w.inc.value.completing;
    var copy := Checked(t, w.temp, m, io.hashOK).value;
    var w2 := WithReserved(w1, io.planned, now).value;
    var landed := Land(t, w2, copy, io);
    RawLandingIsExact(t, w2, copy, io);
    FinishFacts(w2, t, landed, io, now);
    assert Delivered(w, CompleteStep(w, m, io, now), m, io, landed.paths.value[0], copy);
  }

  /**
   * What closing makes of a pending replay: a path already pasted, or real content that could be staged,
   * is consumed; anything else is left ready; the wish is gone unless its staging failed.
   */
  predicate PendingSettled(x: HistoryItem, y: HistoryItem, stageOK: bool) {
    && (y.state == Consumed
        <==> x.pendingReplayMode == PathPlaceholder || (x.pendingReplayMode == SystemClipboard && stageOK))
    && (y.state == ReadyToPaste || y.state == Consumed)
    && y.pendingReplayMode == if x.pendingReplayMode == SystemClipboard && !stageOK then SystemClipboard else NoMode
  }

  /** Closing a transfer: its record, its file, and what the item says afterwards. */
  lemma FinishFacts(w: World, t: Incoming, landed: Landing, io: CompleteIO, now: Time)
    requires landed.paths.Some?
    ensures var w' := Finish(w, t, landed, io, now);
            && w'.inc.Some? && w'.inc.value.completed && !w'.inc.value.requestActive && !w'.inc.value.completing
            && w'.targets == landed.targets
            && (t.archivePath != "" ==> t.archivePath !in w'.temp)
            && w'.inc.value.archivePath == w'.inc.value.archiveBytes == "" && w'.inc.value.manifest == t.manifest
            && (w.item.Some? <==> w'.item.Some?)
            && (w.item.Some? && IsValidTransition(w.item.value.state, ReadyToPaste) ==>
                  && w'.item.value.localPaths == landed.paths.value
                  && w'.item.value.lastChunkIdx == t.lastChunkIdx && w'.item.value.errorMessage == ""
                  && w'.item.value.reservedPaths
                     == (if w.item.value.reservedPaths == [] then landed.paths.value else w.item.value.reservedPaths)
                  && PendingSettled(w.item.value, w'.item.value, io.stageOK))
            && (w.item.Some? && !IsValidTransition(w.item.value.state, ReadyToPaste) && w.item.value.state != ReadyToPaste ==>
                  w'.item == w.item)
  {
  }

  // ---------------------------------------------------------------- one outstanding request

  predicate Active(w: World) {
    w.inc.Some? && w.inc.value.requestActive
  }

  /** Whether this step hands a file_request to the transport. */
  predicate Hands(w: World, t: Timed, cfg: Setup) {
    && t.event.Request?
    && RequestStep(w, t.event.copy, t.event.manifest, cfg.sessionID, t.event.sendOK, t.now).handed.Some?
  }

  /** The handler gives up with an error: a bad chunk, a write or check or landing that fails, a file_error. */
  ghost predicate Reports(w: World, t: Timed, cfg: Setup) {
    match t.event
    case Chunk(c, io) =>
      || w.inc.None?
      || (!w.inc.value.completed && Facing(w, c, io).None?)
      || (Facing(w, c, io).Some? && !Judge(Facing(w, c, io).value, c, cfg.e2ee).Repeat?
          && !Stores(Facing(w, c, io).value, w.temp, c, cfg, io))
    case Complete(m, io) => w.inc.Some? && !w.inc.value.completed && !w.inc.value.completing && !ClosesNow(w, m, io, t.now)
    case Error(_) => true
    case _ => false
  }

  /** History can mark the item Failed, which it allows from every state it knows. */
  predicate CanRecord(w: World) {
    w.item.Some? && IsKnownState(w.item.value.state)
  }

  /** The causes that end a request: its own send failing, a recorded failure, or the completion. */
  ghost predicate Ends(w: World, t: Timed, cfg: Setup) {
    if t.event.Request? then Hands(w, t, cfg) && !t.event.sendOK
    else Active(w) && ((Reports(w, t, cfg) && CanRecord(w)) || (t.event.Complete? && ClosesNow(w, t.event.m, t.event.cio, t.now)))
  }

  ghost function CountHanded(run: seq<Timed>, cfg: Setup): nat {
    if run == [] then 0
    else
      var front := run[..|run| - 1];
      CountHanded(front, cfg) + if Hands(After(front, cfg), run[|run| - 1], cfg) then 1 else 0
  }

  ghost function CountEnded(run: seq<Timed>, cfg: Setup): nat {
    if run == [] then 0
    else
      var front := run[..|run| - 1];
      CountEnded(front, cfg) + if Ends(After(front, cfg), run[|run| - 1], cfg) then 1 else 0
  }

  lemma FailAndRequest(w: World, reason: string, now: Time)
    ensures var w' := Fail(w, reason, now);
            && (Active(w') <==> Active(w) && !CanRecord(w))
            && (CanRecord(w) ==> w'.item.Some? && w'.item.value.state == Failed)
            && (!CanRecord(w) ==> w' == w)
  {
  }

  lemma JudgedAndRequest(w: World, t: Incoming, c: FileChunk, cfg: Setup, io: ChunkIO, now: Time)
    requires w.inc.Some? && t.requestActive == w.inc.value.requestActive
    ensures var reports := !Judge(t, c, cfg.e2ee).Repeat? && !Stores(t, w.temp, c, cfg, io);
            Active(JudgedStep(w, t, c, cfg, io, now)) <==> Active(w) && !(reports && CanRecord(w))
  {
    hide Place, Fail, Edited, RestartedTemp;
    var mode := NormalMode(c.mode);
    var t2 := if c.index == 0 then Restarted(t, mode) else t;
    var temp2 := if c.index == 0 then RestartedTemp(t, mode, w.temp) else w.temp;
    match Judge(t, c, cfg.e2ee)
    case Repeat =>
    case ModeChanged => FailAndRequest(w.(inc := Some(t)), "unexpected archive mode change", now);
    case OutOfOrder => FailAndRequest(w.(inc := Some(t2), temp := temp2), "unexpected chunk index", now);
    case BadBytes => FailAndRequest(w.(inc := Some(t2), temp := temp2), "bad chunk data", now);
    case Fresh(raw) =>
      var p := Place(t2, temp2, raw, c.index, cfg.threshold, io);
      PlaceKeepsFlags(t2, temp2, raw, c.index, cfg.threshold, io);
      if !p.ok {
        FailAndRequest(w.(inc := Some(p.t), temp := p.temp), "write failed", now);
      }
  }

  lemma PlaceKeepsFlags(t: Incoming, temp: map<string, string>, raw: string, index: int, threshold: nat, io: ChunkIO)
    ensures var p := Place(t, temp, raw, index, threshold, io);
            p.t.lastChunkIdx == t.lastChunkIdx && p.t.requestActive == t.requestActive
  {
  }

  lemma ChunkAndRequest(w: World, t: Timed, cfg: Setup)
    requires t.event.Chunk?
    ensures Active(Step(w, t, cfg)) <==> Active(w) && !Ends(w, t, cfg)
  {
    hide JudgedStep, Judge, Stores, Fail, ClosesNow;
    var c, io := t.event.c, t.event.io;
    if w.inc.None? {
      FailAndRequest(w, "incoming transfer not found", t.now);
    } else if w.inc.value.completed {
    } else if w.inc.value.baseDir == "" && io.tempDir == "" {
      FailAndRequest(w, "no temp dir", t.now);
    } else {
      JudgedAndRequest(w, WithStorage(w.inc.value, NormalMode(c.mode), io.tempDir), c, cfg, io, t.now);
    }
  }

  /** A completion that is taken up either closes the transfer or reports. */
  lemma CompleteAndRequest(w: World, m: FileComplete, io: CompleteIO, now: Time)
    ensures var w' := CompleteStep(w, m, io, now);
            var takenUp := w.inc.Some? && !w.inc.value.completed && !w.inc.value.completing;
            && (!takenUp ==> w' == w)
            && (takenUp && ClosesNow(w, m, io, now) ==> !Active(w'))
            && (takenUp && !ClosesNow(w, m, io, now) ==> (Active(w') <==> Active(w) && !CanRecord(w)))
  {
    hide Fail, Finish, Land, Checked, AlreadyThere, Materialize;
    if w.inc.Some? && !w.inc.value.completed && !w.inc.value.completing {
      var t := w.inc.value.(completing := true);
      var w1 := w.(inc := Some(t));
      match Checked(t, w.temp, m, io.hashOK)
      case None =>
        FailAndRequest(w1, "archive mismatch", now);
        FailKeepsOpen(w1, "archive mismatch", now);
      case Some(copy) =>
        ReserveKeepsState(w1, io.planned, now);
        match WithReserved(w1, io.planned, now)
        case None =>
          FailAndRequest(w1, "no target", now);
          FailKeepsOpen(w1, "no target", now);
        case Some(w2) =>
          var landed := Land(t, w2, copy, io);
          if landed.paths.None? {
            FailAndRequest(w2.(temp := landed.temp, targets := landed.targets), "landing failed", now);
            FailKeepsOpen(w2.(temp := landed.temp, targets := landed.targets), "landing failed", now);
          } else {
            FinishFacts(w2, t, landed, io, now);
          }
    }
  }

  lemma FailKeepsOpen(w: World, reason: string, now: Time)
    requires w.inc.Some?
    ensures var w' := Fail(w, reason, now);
            w'.inc.Some? && w'.inc.value.completed == w.inc.value.completed && w'.temp == w.temp && w'.targets == w.targets
  {
  }

  lemma ReserveKeepsState(w: World, planned: Option<seq<string>>, now: Time)
    ensures var r := WithReserved(w, planned, now);
            && (r.None? ==> w.item.Some? && w.item.value.reservedPaths == [] && planned.None?)
            && (r.Some? ==> r.value == w.(item := r.value.item) && (r.value.item.Some? <==> w.item.Some?))
            && (r.Some? && w.item.Some? ==>
                  && r.value.item.value.state == w.item.value.state && r.value.item.value.lastChunkIdx == w.item.value.lastChunkIdx
                  && r.value.item.value.reservedPaths
                     == if w.item.value.reservedPaths == [] then planned.value else w.item.value.reservedPaths)
  {
  }

  /**
   * A request goes out exactly when none is outstanding and the listed item can become Downloading or the
   * caller's copy already is. It changes nothing of the item but its state, and of another item nothing.
   */
  lemma RequestIff(w: World, x: HistoryItem, manifest: Manifest, sessionID: string, sendOK: bool, now: Time)
    ensures var r := RequestStep(w, x, manifest, sessionID, sendOK, now);
            var listed := w.item.Some? && w.item.value.id == x.id;
            var free := listed && w.item.value.state in {Offered, Downloading, Failed, Consumed};
            && (r.handed.Some? <==> !Active(w) && (free || x.state == Downloading))
            && (r.sent <==> r.handed.Some? && sendOK)
            && (r.handed.Some? ==>
                  r.handed.value == FileRequest(manifest.transferID, manifest.entryID, sessionID,
                                                if x.state == Failed && x.lastChunkIdx >= 0 then x.lastChunkIdx + 1 else 0))
            && (!listed || r.handed.None? ==> r.w.item == w.item)
            && (r.sent && free ==> r.w.item.Some? && r.w.item.value.state == Downloading)
            && (w.item.Some? ==> r.w.item.Some? && r.w.item.value.(state := Offered, updatedAt := 0) == w.item.value.(state := Offered, updatedAt := 0))
  {
  }

  /** Only a request step sets the flag, it hands over nothing while the flag is set, and vice versa. */
  lemma RequestAndFlag(w: World, x: HistoryItem, manifest: Manifest, sessionID: string, sendOK: bool, now: Time)
    ensures var r := RequestStep(w, x, manifest, sessionID, sendOK, now);
            && (r.handed.Some? ==> !Active(w))
            && (Active(r.w) <==> Active(w) || r.sent)
            && (r.handed.Some? ==> r.sent == sendOK)
            && (r.sent ==> r.handed.Some?)
  {
    hide Edited, EditedOrSame;
  }

  /**
   * The flag after any step: it stands if it stood or a request was handed over, and no cause ended it.
   * In particular each cause clears the flag, and nothing else does.
   */
  lemma StepAndRequest(w: World, t: Timed, cfg: Setup)
    ensures Active(Step(w, t, cfg)) <==> (Active(w) || Hands(w, t, cfg)) && !Ends(w, t, cfg)
    ensures Hands(w, t, cfg) ==> !Active(w)
  {
    hide ChunkStep, CompleteStep, RequestStep, Fail, Stores, Judge, ClosesNow;
    match t.event
    case Admit(_, _) =>
    case Chunk(_, _) => ChunkAndRequest(w, t, cfg);
    case Complete(m, io) =>
      CompleteAndRequest(w, m, io, t.now);
      ClosingIsTakenUp(w, m, io, t.now);
    case Error(reason) => FailAndRequest(w, reason, t.now);
    case Request(x, manifest, sendOK) => RequestAndFlag(w, x, manifest, cfg.sessionID, sendOK, t.now);
    case Touch(_) =>
    case Evict =>
  }

  lemma ClosingIsTakenUp(w: World, m: FileComplete, io: CompleteIO, now: Time)
    ensures ClosesNow(w, m, io, now) ==> w.inc.Some? && !w.inc.value.completed && !w.inc.value.completing
  {
  }

  /**
   * Main result: over any run the requests handed to the transport exceed those ended - by a failed
   * send, a recorded failure or the completion - by at most one, and by one exactly while RequestActive is set.
   */
  lemma {:induction false} OneOutstandingRequest(run: seq<Timed>, cfg: Setup)
    ensures CountHanded(run, cfg) == CountEnded(run, cfg) + if Active(After(run, cfg)) then 1 else 0
  {
    hide Hands, Ends, Step, Active;
    if run != [] {
      var front := run[..|run| - 1];
      OneOutstandingRequest(front, cfg);
      StepAndRequest(After(front, cfg), run[|run| - 1], cfg);
      EndsOnlyWhatStands(After(front, cfg), run[|run| - 1], cfg);
    } else {
      NothingAtStart(cfg);
    }
  }

  lemma EndsOnlyWhatStands(w: World, t: Timed, cfg: Setup)
    ensures Ends(w, t, cfg) ==> Active(w) || Hands(w, t, cfg)
  {
  }

  lemma NothingAtStart(cfg: Setup)
    ensures !Active(After([], cfg))
  {
  }

  // ---------------------------------------------------------------- the item's states over a run

  /**
   * How the program itself uses the item of a transfer: files are announced Offered or Failed, hotkeys
   * request Offered and Failed ones, other edits keep the state or consume, and the list evicts only
   * Consumed and Failed items (HistoryRuns.OnlySpentItemsDisappear).
   */
  ghost predicate Proper(w: World, e: Event) {
    match e
    case Admit(_, item) => item.state == Offered || item.state == Failed
    case Request(x, _, _) => x.state == Offered || x.state == Failed
    case Touch(edit) => forall x: HistoryItem :: edit(x).Ok? ==> edit(x).value.state == x.state || edit(x).value.state == Consumed
    case Evict => w.item.Some? ==> IsEvictable(w.item.value.state)
    case _ => true
  }

  ghost predicate ProperRun(run: seq<Timed>, cfg: Setup) {
    forall i :: 0 <= i < |run| ==> Proper(After(run[..i], cfg), run[i].event)
  }

  lemma ProperFront(run: seq<Timed>, cfg: Setup)
    requires ProperRun(run, cfg) && run != []
    ensures var front := run[..|run| - 1];
            ProperRun(front, cfg) && Proper(After(front, cfg), run[|run| - 1].event)
  {
    hide Proper, After;
    var front := run[..|run| - 1];
    forall i | 0 <= i < |front|
      ensures Proper(After(front[..i], cfg), front[i].event)
    {
      assert front[..i] == run[..i];
    }
  }

  predicate InTransfer(s: ItemState) {
    s == Offered || s == Downloading || s == Failed
  }

  /** An outstanding request belongs to a listed item in Downloading; an open transfer's item is not ready yet. */
  predicate StatesFit(w: World) {
    && (w.item.Some? ==> w.inc.Some? && IsKnownState(w.item.value.state))
    && (w.item.Some? && !w.inc.value.completed ==> InTransfer(w.item.value.state))
    && (Active(w) ==> w.item.Some? && w.item.value.state == Downloading)
  }

  lemma FailStatesFit(w: World, reason: string, now: Time)
    requires w.item.Some? ==> w.inc.Some? && IsKnownState(w.item.value.state)
    requires w.item.None? ==> !Active(w)
    ensures StatesFit(Fail(w, reason, now))
  {
  }

  lemma JudgedStatesFit(w: World, t: Incoming, c: FileChunk, cfg: Setup, io: ChunkIO, now: Time)
    requires StatesFit(w) && w.inc.Some? && t.requestActive == w.inc.value.requestActive && t.completed == w.inc.value.completed
    ensures StatesFit(JudgedStep(w, t, c, cfg, io, now))
  {
    hide Place, Fail, RestartedTemp;
    var mode := NormalMode(c.mode);
    var t2 := if c.index == 0 then Restarted(t, mode) else t;
    var temp2 := if c.index == 0 then RestartedTemp(t, mode, w.temp) else w.temp;
    match Judge(t, c, cfg.e2ee)
    case Repeat =>
    case ModeChanged => FailStatesFit(w.(inc := Some(t)), "unexpected archive mode change", now);
    case OutOfOrder => FailStatesFit(w.(inc := Some(t2), temp := temp2), "unexpected chunk index", now);
    case BadBytes => FailStatesFit(w.(inc := Some(t2), temp := temp2), "bad chunk data", now);
    case Fresh(raw) =>
      var p := Place(t2, temp2, raw, c.index, cfg.threshold, io);
      PlaceKeepsFlags(t2, temp2, raw, c.index, cfg.threshold, io);
      PlaceKeepsOpen(t2, temp2, raw, c.index, cfg.threshold, io);
      if !p.ok {
        FailStatesFit(w.(inc := Some(p.t), temp := p.temp), "write failed", now);
      }
  }

  lemma PlaceKeepsOpen(t: Incoming, temp: map<string, string>, raw: string, index: int, threshold: nat, io: ChunkIO)
    ensures Place(t, temp, raw, index, threshold, io).t.completed == t.completed
  {
  }

  lemma ChunkStatesFit(w: World, c: FileChunk, cfg: Setup, io: ChunkIO, now: Time)
    requires StatesFit(w)
    ensures StatesFit(ChunkStep(w, c, cfg, io, now))
  {
    hide JudgedStep, Fail;
    if w.inc.None? {
      FailStatesFit(w, "incoming transfer not found", now);
    } else if w.inc.value.completed {
    } else if w.inc.value.baseDir == "" && io.tempDir == "" {
      FailStatesFit(w, "no temp dir", now);
    } else {
      JudgedStatesFit(w, WithStorage(w.inc.value, NormalMode(c.mode), io.tempDir), c, cfg, io, now);
    }
  }

  lemma CompleteStatesFit(w: World, m: FileComplete, io: CompleteIO, now: Time)
    requires StatesFit(w)
    ensures StatesFit(CompleteStep(w, m, io, now))
  {
    hide Fail, Finish, Land, Checked, AlreadyThere, Materialize, WithReserved;
    if w.inc.Some? && !w.inc.value.completed && !w.inc.value.completing {
      var t := w.inc.value.(completing := true);
      var w1 := w.(inc := Some(t));
      match Checked(t, w.temp, m, io.hashOK)
      case None => FailStatesFit(w1, "archive mismatch", now);
      case Some(copy) =>
        ReserveKeepsState(w1, io.planned, now);
        match WithReserved(w1, io.planned, now)
        case None => FailStatesFit(w1, "no target", now);
        case Some(w2) =>
          var landed := Land(t, w2, copy, io);
          if landed.paths.None? {
            FailStatesFit(w2.(temp := landed.temp, targets := landed.targets), "landing failed", now);
          } else {
            FinishFacts(w2, t, landed, io, now);
          }
    }
  }

  lemma RequestStatesFit(w: World, x: HistoryItem, manifest: Manifest, cfg: Setup, sendOK: bool, now: Time)
    requires StatesFit(w) && (x.state == Offered || x.state == Failed)
    ensures StatesFit(RequestStep(w, x, manifest, cfg.sessionID, sendOK, now).w)
  {
  }

  lemma StepStatesFit(w: World, t: Timed, cfg: Setup)
    requires StatesFit(w) && Proper(w, t.event)
    ensures StatesFit(Step(w, t, cfg))
  {
    hide ChunkStep, CompleteStep, RequestStep, Fail;
    match t.event
    case Admit(_, _) =>
    case Chunk(c, io) => ChunkStatesFit(w, c, cfg, io, t.now);
    case Complete(m, io) => CompleteStatesFit(w, m, io, t.now);
    case Error(reason) => FailStatesFit(w, reason, t.now);
    case Request(x, manifest, sendOK) => RequestStatesFit(w, x, manifest, cfg, sendOK, t.now);
    case Touch(_) =>
    case Evict =>
  }

  lemma {:induction false} RunStatesFit(run: seq<Timed>, cfg: Setup)
    requires ProperRun(run, cfg)
    ensures StatesFit(After(run, cfg))
  {
    hide Step, Proper, ProperRun;
    if run != [] {
      ProperFront(run, cfg);
      RunStatesFit(run[..|run| - 1], cfg);
      StepStatesFit(After(run[..|run| - 1], cfg), run[|run| - 1], cfg);
    }
  }

  /** Every completion of the run found the item listed. */
  ghost predicate CompletionsFindItem(run: seq<Timed>, cfg: Setup) {
    forall i :: 0 <= i < |run| && run[i].event.Complete? ==> After(run[..i], cfg).item.Some?
  }

  predicate NotCompleting(w: World) {
    w.inc.Some? ==> !w.inc.value.completing
  }

  lemma FailEndsCompleting(w: World, reason: string, now: Time)
    ensures CanRecord(w) || NotCompleting(w) ==> NotCompleting(Fail(w, reason, now))
  {
  }

  lemma JudgedEndsCompleting(w: World, t: Incoming, c: FileChunk, cfg: Setup, io: ChunkIO, now: Time)
    requires w.inc.Some? && !t.completing
    ensures NotCompleting(JudgedStep(w, t, c, cfg, io, now))
  {
    hide Place, Fail, Edited, RestartedTemp;
    var mode := NormalMode(c.mode);
    var t2 := if c.index == 0 then Restarted(t, mode) else t;
    var temp2 := if c.index == 0 then RestartedTemp(t, mode, w.temp) else w.temp;
    match Judge(t, c, cfg.e2ee)
    case Repeat =>
    case ModeChanged => FailEndsCompleting(w.(inc := Some(t)), "unexpected archive mode change", now);
    case OutOfOrder => FailEndsCompleting(w.(inc := Some(t2), temp := temp2), "unexpected chunk index", now);
    case BadBytes => FailEndsCompleting(w.(inc := Some(t2), temp := temp2), "bad chunk data", now);
    case Fresh(raw) =>
      var p := Place(t2, temp2, raw, c.index, cfg.threshold, io);
      PlaceLeavesCompleting(t2, temp2, raw, c.index, cfg.threshold, io);
      if !p.ok {
        FailEndsCompleting(w.(inc := Some(p.t), temp := p.temp), "write failed", now);
      }
  }

  lemma PlaceLeavesCompleting(t: Incoming, temp: map<string, string>, raw: string, index: int, threshold: nat, io: ChunkIO)
    ensures Place(t, temp, raw, index, threshold, io).t.completing == t.completing
  {
  }

  lemma CompleteEndsCompleting(w: World, m: FileComplete, io: CompleteIO, now: Time)
    requires NotCompleting(w) && CanRecord(w)
    ensures NotCompleting(CompleteStep(w, m, io, now))
  {
    hide Fail, Finish, Land, Checked, AlreadyThere, Materialize, WithReserved;
    if w.inc.Some? && !w.inc.value.completed {
      var t := w.inc.value.(completing := true);
      var w1 := w.(inc := Some(t));
      match Checked(t, w.temp, m, io.hashOK)
      case None => FailEndsCompleting(w1, "archive mismatch", now);
      case Some(copy) =>
        ReserveKeepsState(w1, io.planned, now);
        match WithReserved(w1, io.planned, now)
        case None => FailEndsCompleting(w1, "no target", now);
        case Some(w2) =>
          var landed := Land(t, w2, copy, io);
          if landed.paths.None? {
            FailEndsCompleting(w2.(temp := landed.temp, targets := landed.targets), "landing failed", now);
          } else {
            FinishFacts(w2, t, landed, io, now);
          }
    }
  }

  lemma StepEndsCompleting(w: World, t: Timed, cfg: Setup)
    requires NotCompleting(w) && (t.event.Complete? ==> CanRecord(w))
    ensures NotCompleting(Step(w, t, cfg))
  {
    hide JudgedStep, CompleteStep, RequestStep, Fail;
    match t.event
    case Chunk(c, io) =>
      if w.inc.None? {
        FailEndsCompleting(w, "incoming transfer not found", t.now);
      } else if w.inc.value.completed {
      } else if w.inc.value.baseDir == "" && io.tempDir == "" {
        FailEndsCompleting(w, "no temp dir", t.now);
      } else {
        JudgedEndsCompleting(w, WithStorage(w.inc.value, NormalMode(c.mode), io.tempDir), c, cfg, io, t.now);
      }
    case Complete(m, io) => CompleteEndsCompleting(w, m, io, t.now);
    case Error(reason) => FailEndsCompleting(w, reason, t.now);
    case Request(x, manifest, sendOK) => RequestRecord(w, x, manifest, cfg.sessionID, sendOK, t.now);
    case _ =>
  }

  /** No run leaves Completing set, unless a completion failed while the item was evicted. */
  lemma {:induction false} RunsEndCompleting(run: seq<Timed>, cfg: Setup)
    requires ProperRun(run, cfg) && CompletionsFindItem(run, cfg)
    ensures NotCompleting(After(run, cfg))
  {
    hide Step, ProperRun, Proper;
    if run != [] {
      var front, last := run[..|run| - 1], run[|run| - 1];
      ProperFront(run, cfg);
      forall i | 0 <= i < |front| && front[i].event.Complete?
        ensures After(front[..i], cfg).item.Some?
      {
        assert front[..i] == run[..i];
      }
      RunsEndCompleting(front, cfg);
      RunStatesFit(front, cfg);
      StepEndsCompleting(After(front, cfg), last, cfg);
    }
  }

  /** A completion that fails while the item is gone leaves it set, so that every later one is ignored. */
  lemma FailedWithoutItemBlocks(w: World, m: FileComplete, io: CompleteIO, now: Time, m2: FileComplete, io2: CompleteIO, now2: Time)
    requires w.item.None? && w.inc.Some? && !w.inc.value.completed && Checked(w.inc.value, w.temp, m, io.hashOK).None?
    ensures var w' := CompleteStep(w, m, io, now);
            !ClosesNow(w', m2, io2, now2) && CompleteStep(w', m2, io2, now2) == w'
  {
  }

  /**
   * Main result: in every run of the program, while a request is outstanding its item is listed and
   * Downloading - it cannot be evicted - so any reported failure can be recorded and ends the request.
   */
  lemma OutstandingMeansDownloading(run: seq<Timed>, next: Timed, cfg: Setup)
    requires ProperRun(run, cfg) && Active(After(run, cfg))
    ensures var w := After(run, cfg);
            && w.item.Some? && w.item.value.state == Downloading
            && (Reports(w, next, cfg) ==> !Active(Step(w, next, cfg)))
            && (next.event.Evict? ==> !Proper(w, next.event))
  {
    hide After, Step, Reports;
    RunStatesFit(run, cfg);
    StepAndRequest(After(run, cfg), next, cfg);
    if Reports(After(run, cfg), next, cfg) {
      ReportsAreNoRequests(After(run, cfg), next, cfg);
    }
  }

  lemma ReportsAreNoRequests(w: World, t: Timed, cfg: Setup)
    requires Reports(w, t, cfg)
    ensures !t.event.Request?
  {
  }

  // ---------------------------------------------------------------- where the code falls short

  /**
   * A request whose send fails tries to put the item's state back. History allows that only from a
   * Failed or Downloading item; an Offered or Consumed one is left in Downloading with no request.
   */
  lemma RollbackWorksIff(w: World, x: HistoryItem, manifest: Manifest, sessionID: string, now: Time)
    requires w.item == Some(x) && RequestStep(w, x, manifest, sessionID, false, now).handed.Some?
    ensures var w' := RequestStep(w, x, manifest, sessionID, false, now).w;
            && !Active(w')
            && w'.item.Some?
            && (w'.item.value.state == x.state <==> x.state == Failed || x.state == Downloading)
            && (x.state != Failed ==> w'.item.value.state == Downloading)
  {
  }

  /** A chunk that starts over: index 0 while a resume is pending and something was stored. */
  predicate StartsOver(t: Incoming, c: FileChunk) {
    c.index == 0 && t.requestedResumeFrom > 0 && t.lastChunkIdx >= 0
  }

  predicate ProgressAgrees(w: World) {
    w.inc.Some? && w.item.Some? && w.item.value.lastChunkIdx == w.inc.value.lastChunkIdx
  }

  lemma KeepMovesBoth(w: World, t: Incoming, raw: string, c: FileChunk, cfg: Setup, io: ChunkIO, now: Time)
    requires w.inc == Some(t)
    ensures var w' := KeepStep(w, t, raw, c, cfg, io, now);
            var ok := Place(t, w.temp, raw, c.index, cfg.threshold, io).ok;
            && w'.inc.Some? && w'.inc.value.lastChunkIdx == (if ok then c.index else t.lastChunkIdx)
            && (w.item.Some? && InTransfer(w.item.value.state) ==>
                  w'.item.Some? && w'.item.value.lastChunkIdx == if ok then c.index else w.item.value.lastChunkIdx)
  {
    hide Place;
    PlaceKeepsFlags(t, w.temp, raw, c.index, cfg.threshold, io);
  }

  lemma FailKeepsIndices(w: World, reason: string, now: Time)
    ensures var w' := Fail(w, reason, now);
            && (w.inc.Some? ==> w'.inc.Some? && w'.inc.value.lastChunkIdx == w.inc.value.lastChunkIdx)
            && (w.item.Some? ==> w'.item.Some? && w'.item.value.lastChunkIdx == w.item.value.lastChunkIdx)
  {
  }

  /** The last index of the transfer record and of the history item after a chunk. */
  lemma IndicesAfterChunk(w: World, t: Incoming, c: FileChunk, cfg: Setup, io: ChunkIO, now: Time)
    requires w.inc.Some? && t.lastChunkIdx >= -1 && w.item.Some? && InTransfer(w.item.value.state)
    ensures var w' := JudgedStep(w, t, c, cfg, io, now);
            var stores := Stores(t, w.temp, c, cfg, io);
            && w'.inc.Some? && w'.item.Some?
            && w'.inc.value.lastChunkIdx == (if stores then c.index else if StartsOver(t, c) then -1 else t.lastChunkIdx)
            && w'.item.value.lastChunkIdx == if stores then c.index else w.item.value.lastChunkIdx
  {
    hide Place, KeepStep, Fail, RestartedTemp, InTransfer;
    var mode := NormalMode(c.mode);
    var t2 := if c.index == 0 then Restarted(t, mode) else t;
    var temp2 := if c.index == 0 then RestartedTemp(t, mode, w.temp) else w.temp;
    var w2 := w.(inc := Some(t2), temp := temp2);
    match Judge(t, c, cfg.e2ee)
    case Repeat =>
    case ModeChanged => FailKeepsIndices(w.(inc := Some(t)), "unexpected archive mode change", now);
    case OutOfOrder => FailKeepsIndices(w2, "unexpected chunk index", now);
    case BadBytes => FailKeepsIndices(w2, "bad chunk data", now);
    case Fresh(raw) => KeepMovesBoth(w2, t2, raw, c, cfg, io, now);
  }

  lemma ChunkKeepsProgressIff(w: World, c: FileChunk, cfg: Setup, io: ChunkIO, now: Time)
    requires ProgressAgrees(w) && !w.inc.value.completed && Shaped(w.inc.value, cfg.threshold) && InTransfer(w.item.value.state)
    ensures ProgressAgrees(ChunkStep(w, c, cfg, io, now)) <==> !StartsOver(w.inc.value, c) || Adds(w, Chunk(c, io), cfg)
  {
    hide JudgedStep, Stores;
    if Facing(w, c, io).Some? {
      var t := Facing(w, c, io).value;
      StorageStaysRight(w.inc.value, NormalMode(c.mode), io.tempDir, cfg.threshold);
      IndicesAfterChunk(w, t, c, cfg, io, now);
    }
  }

  /**
   * At any point of any run where history and the open transfer record agree on the last index, they
   * agree after the next chunk exactly unless that chunk starts over and is then not stored.
   */
  lemma ProgressAgreesIff(run: seq<Timed>, c: FileChunk, cfg: Setup, io: ChunkIO, now: Time, id: string)
    requires LawfulRun(run, cfg, id) && ProperRun(run, cfg)
    requires ProgressAgrees(After(run, cfg)) && !After(run, cfg).inc.value.completed
    ensures var w := After(run, cfg);
            ProgressAgrees(ChunkStep(w, c, cfg, io, now)) <==> !StartsOver(w.inc.value, c) || Adds(w, Chunk(c, io), cfg)
  {
    hide After, ChunkStep, Adds, Keeps;
    RunsAreSafe(run, cfg, id);
    RunStatesFit(run, cfg);
    ChunkKeepsProgressIff(After(run, cfg), c, cfg, io, now);
  }

  // ---------------------------------------------------------------- a failed restart

  /** The record lost its chunks while history still claims some: what a failed restart leaves. */
  predicate Stalled(w: World) {
    && w.inc.Some? && !w.inc.value.completed && w.inc.value.baseDir != "" && w.inc.value.lastChunkIdx == -1
    && w.inc.value.archiveBytes == "" && "" !in w.temp
    && w.item.Some? && w.item.value.lastChunkIdx >= 0
    && (w.item.value.state == Failed || w.item.value.state == Downloading)
  }

  /** What a completion check would still find: an old payload file, or nothing at all. */
  function Leftover(t: Incoming, temp: map<string, string>): Option<string> {
    if t.archivePath == "" then Some("") else if t.archivePath in temp then Some(temp[t.archivePath]) else None
  }

  predicate Names(m: FileComplete, copy: Option<string>) {
    copy.Some? && m.sha == Sha256(copy.value) && m.totalBytes == |copy.value|
  }

  /** What a sender that still holds its archive sends to a stalled receiver: no chunk 0. */
  predicate StalledEvent(e: Event, leftover: Option<string>) {
    match e
    case Chunk(c, _) => c.index >= 1
    case Request(x, _, _) => x.state == Offered || x.state == Failed
    case Error(_) => true
    case Complete(m, _) => !Names(m, leftover)
    case _ => false
  }

  predicate SameStall(w: World, w': World) {
    && Stalled(w') && w'.temp == w.temp && w'.inc.Some? && w.inc.Some? && w'.inc.value.archivePath == w.inc.value.archivePath
  }

  lemma StalledChunk(w: World, c: FileChunk, cfg: Setup, io: ChunkIO, now: Time)
    requires Stalled(w) && c.index >= 1
    ensures SameStall(w, ChunkStep(w, c, cfg, io, now))
  {
    hide Fail;
    var t := WithStorage(w.inc.value, NormalMode(c.mode), io.tempDir);
    assert Judge(t, c, cfg.e2ee) == ModeChanged || Judge(t, c, cfg.e2ee) == OutOfOrder;
    var reason := if Judge(t, c, cfg.e2ee) == ModeChanged then "unexpected archive mode change" else "unexpected chunk index";
    StalledFail(w.(inc := Some(t)), reason, now);
  }

  lemma StalledFail(w: World, reason: string, now: Time)
    requires Stalled(w)
    ensures SameStall(w, Fail(w, reason, now))
  {
  }

  /** A completion leaves the stall exactly if it closes the transfer, and then it names the leftover. */
  lemma CompletionLeavesStallIff(w: World, m: FileComplete, io: CompleteIO, now: Time)
    requires Stalled(w)
    ensures var w' := CompleteStep(w, m, io, now);
            && (Stalled(w') <==> !ClosesNow(w, m, io, now))
            && (Stalled(w') ==> SameStall(w, w'))
            && (ClosesNow(w, m, io, now) ==> Names(m, Leftover(w.inc.value, w.temp)))
  {
    hide Fail, Finish, Land, AlreadyThere, Materialize, WithReserved;
    if !w.inc.value.completing {
      var t := w.inc.value.(completing := true);
      var w1 := w.(inc := Some(t));
      match Checked(t, w.temp, m, io.hashOK)
      case None => StalledFail(w1, "archive mismatch", now);
      case Some(copy) =>
        ReserveKeepsState(w1, io.planned, now);
        match WithReserved(w1, io.planned, now)
        case None => StalledFail(w1, "no target", now);
        case Some(w2) =>
          var landed := Land(t, w2, copy, io);
          LandingKeepsTemp(t, w2, copy, io);
          if landed.paths.None? {
            StalledFail(w2.(temp := landed.temp, targets := landed.targets), "landing failed", now);
          } else {
            FinishFacts(w2, t, landed, io, now);
          }
    }
  }

  lemma StalledRequest(w: World, x: HistoryItem, manifest: Manifest, sessionID: string, sendOK: bool, now: Time)
    requires Stalled(w) && (x.state == Offered || x.state == Failed)
    ensures SameStall(w, RequestStep(w, x, manifest, sessionID, sendOK, now).w)
  {
  }

  /**
   * A stalled transfer stays stalled through every request, error, chunk but chunk 0, and completion
   * that does not name the leftover.
   */
  lemma {:induction false} StalledForGood(w: World, run: seq<Timed>, cfg: Setup)
    requires Stalled(w)
    requires forall i :: 0 <= i < |run| ==> StalledEvent(run[i].event, Leftover(w.inc.value, w.temp))
    ensures SameStall(w, RunFrom(w, run, cfg))
  {
    hide ChunkStep, CompleteStep, RequestStep, Fail, ClosesNow;
    if run != [] {
      var front, last := run[..|run| - 1], run[|run| - 1];
      StalledForGood(w, front, cfg);
      var now := RunFrom(w, front, cfg);
      assert StalledEvent(last.event, Leftover(now.inc.value, now.temp));
      match last.event
      case Chunk(c, io) => StalledChunk(now, c, cfg, io, last.now);
      case Request(x, manifest, sendOK) => StalledRequest(now, x, manifest, cfg.sessionID, sendOK, last.now);
      case Error(reason) => StalledFail(now, reason, last.now);
      case Complete(m, io) => CompletionLeavesStallIff(now, m, io, last.now);
      case _ =>
    }
  }

  /** The next request of a stalled transfer asks for a chunk the receiver cannot take. */
  lemma StalledAsksPastZero(w: World, manifest: Manifest, sessionID: string, sendOK: bool, now: Time)
    requires Stalled(w) && w.item.value.state == Failed && !Active(w)
    ensures var r := RequestStep(w, w.item.value, manifest, sessionID, sendOK, now);
            r.handed.Some? && r.handed.value.resumeFrom == w.item.value.lastChunkIdx + 1 >= 1
  {
  }

  /** Only a chunk 0 can end a stall, and it does so exactly when it is stored. */
  lemma ChunkZeroEndsStallIff(w: World, c: FileChunk, cfg: Setup, io: ChunkIO, now: Time)
    requires Stalled(w) && Shaped(w.inc.value, cfg.threshold) && c.index == 0
    ensures ProgressAgrees(ChunkStep(w, c, cfg, io, now)) <==> Adds(w, Chunk(c, io), cfg)
    ensures Adds(w, Chunk(c, io), cfg) ==> !Stalled(ChunkStep(w, c, cfg, io, now))
  {
    hide JudgedStep, Stores;
    StorageStaysRight(w.inc.value, NormalMode(c.mode), io.tempDir, cfg.threshold);
    IndicesAfterChunk(w, Facing(w, c, io).value, c, cfg, io, now);
  }

  /** Every file operation of a raw landing succeeds. */
  ghost predicate LandingWorks(io: CompleteIO) {
    && io.hashOK && io.probeOK && io.parentOK && io.writeOK && io.move == Moved
    && io.planned.Some? && io.planned.value != [] && AllNormal(io)
  }

  ghost predicate AllNormal(io: CompleteIO) {
    forall p :: io.normalize(p).Some?
  }

  /** A raw payload whose copy passed the check lands when the file operations work. */
  lemma RawLandingSucceeds(t: Incoming, w: World, copy: string, io: CompleteIO)
    requires t.manifest.raw && HashedCopy(t, w.temp, true) == Some(copy) && LandingWorks(io)
    ensures Land(t, w, copy, io).paths.Some?
  {
    var reserved := if w.item.Some? then w.item.value.reservedPaths else [];
    AllNormalize(if reserved != [] then reserved else io.planned.value, io);
  }

  lemma {:induction false} AllNormalize(paths: seq<string>, io: CompleteIO)
    requires AllNormal(io)
    ensures NormalizeAll(paths, io.normalize).Some?
  {
    if paths != [] {
      AllNormalize(paths[1..], io);
    }
  }

  /** A raw completion that is taken up, checks out and can be written closes the transfer. */
  lemma CheckedRawCloses(w: World, m: FileComplete, io: CompleteIO, now: Time)
    requires w.inc.Some? && !w.inc.value.completed && !w.inc.value.completing && w.inc.value.manifest.raw && LandingWorks(io)
    ensures ClosesNow(w, m, io, now) <==> Checked(w.inc.value, w.temp, m, true).Some?
  {
    hide Fail, Finish, Land, Materialize, AlreadyThere, WithReserved, LandingWorks;
    var t := w.inc.value.(completing := true);
    var w1 := w.(inc := Some(t));
    assert io.hashOK by { WorksMeans(io); }
    assert Checked(t, w.temp, m, true) == Checked(w.inc.value, w.temp, m, true);
    if Checked(t, w.temp, m, io.hashOK).None? {
      FailKeepsOpen(w1, "archive mismatch", now);
    } else {
      var copy := Checked(t, w.temp, m, io.hashOK).value;
      ReserveKeepsState(w1, io.planned, now);
      WorksMeans(io);
      var w2 := WithReserved(w1, io.planned, now).value;
      RawLandingSucceeds(t, w2, copy, io);
      FinishFacts(w2, t, Land(t, w2, copy, io), io, now);
    }
  }

  lemma WorksMeans(io: CompleteIO)
    requires LandingWorks(io)
    ensures io.hashOK && io.planned.Some?
  {
  }

  /** So a stall of a raw transfer ends without a new chunk 0 exactly when a completion names the leftover. */
  lemma LeftoverEndsStallIff(w: World, m: FileComplete, io: CompleteIO, now: Time)
    requires Stalled(w) && !w.inc.value.completing && w.inc.value.manifest.raw && LandingWorks(io)
    ensures ClosesNow(w, m, io, now) <==> Names(m, Leftover(w.inc.value, w.temp))
    ensures ClosesNow(w, m, io, now) && w.item.value.state == Downloading ==>
              CompleteStep(w, m, io, now).item.Some?
              && CompleteStep(w, m, io, now).item.value.state in {ReadyToPaste, Consumed}
  {
    hide CompleteStep, ClosesNow, LandingWorks;
    CheckedRawCloses(w, m, io, now);
    if ClosesNow(w, m, io, now) {
      ClosingReachesHistoryIff(w, m, io, now);
    }
  }

  /** A run into the stall: two chunks, an error, a resume, and a chunk 0 that arrives damaged. */
  function StallRun(item: HistoryItem, manifest: Manifest, mode: Mode, now: Time): seq<Timed> {
    StallStart(item, manifest, mode, now) + StallEnd(item, manifest, mode, now)
  }

  function GoodChunk(mode: Mode, index: int, body: string): Event {
    Chunk(FileChunk(mode, index, 2, Plain(body), Sha256(body)), ChunkIO("/tmp/t", true, true))
  }

  function StallStart(item: HistoryItem, manifest: Manifest, mode: Mode, now: Time): seq<Timed> {
    [TransferRuns.Timed(Admit(manifest, item), now),
     TransferRuns.Timed(Request(item, manifest, true), now),
     TransferRuns.Timed(GoodChunk(mode, 0, "a"), now),
     TransferRuns.Timed(GoodChunk(mode, 1, "b"), now)]
  }

  function FailedCopy(item: HistoryItem, now: Time): HistoryItem {
    item.(state := Failed, lastChunkIdx := 1, errorMessage := "lost", updatedAt := now)
  }

  function StallEnd(item: HistoryItem, manifest: Manifest, mode: Mode, now: Time): seq<Timed> {
    var damaged := FileChunk(mode, 0, 2, Garbage, Sha256("a"));
    [TransferRuns.Timed(Error("lost"), now),
     TransferRuns.Timed(Request(FailedCopy(item, now), manifest, true), now),
     TransferRuns.Timed(Chunk(damaged, ChunkIO("/tmp/t", true, true)), now)]
  }

  const STALL_SETUP := Setup(10, false, "me")

  /** The world with both chunks stored. */
  function BothStored(item: HistoryItem, manifest: Manifest, mode: Mode, now: Time): World {
    var path := PayloadPath("/tmp/t", manifest);
    World(Some(Incoming(manifest, mode, mode, if mode == Memory then "ab" else "", "/tmp/t", if mode == Memory then "" else path,
                        1, 2, 0, true, false, false)),
          if mode == Memory then map[] else map[path := "ab"], map[],
          Some(item.(state := Downloading, lastChunkIdx := 1, updatedAt := now)))
  }

  lemma OneMore(w: World, run: seq<Timed>, t: Timed, cfg: Setup, id: string)
    requires LawfulRun(run, cfg, id) && ProperRun(run, cfg) && After(run, cfg) == w
    requires Lawful(w, t.event, id) && Proper(w, t.event)
    ensures LawfulRun(run + [t], cfg, id) && ProperRun(run + [t], cfg) && After(run + [t], cfg) == Step(w, t, cfg)
  {
    hide Step, Lawful, Proper;
    var longer := run + [t];
    assert longer[..|run|] == run;
    forall i | 0 <= i < |longer|
      ensures Lawful(After(longer[..i], cfg), longer[i].event, id) && Proper(After(longer[..i], cfg), longer[i].event)
    {
      if i < |run| {
        assert longer[..i] == run[..i];
      }
    }
  }

  lemma StallStarts(item: HistoryItem, manifest: Manifest, mode: Mode, now: Time)
    requires item.state == Offered && item.lastChunkIdx == -1 && (mode == Memory || mode == Disk)
    ensures var run := StallStart(item, manifest, mode, now);
            && LawfulRun(run, STALL_SETUP, manifest.transferID) && ProperRun(run, STALL_SETUP)
            && After(run, STALL_SETUP) == BothStored(item, manifest, mode, now)
  {
    hide LawfulRun, ProperRun, After;
    var run, id := StallStart(item, manifest, mode, now), manifest.transferID;
    EmptyRun(id);
    OneMore(START, [], run[0], STALL_SETUP, id);
    var w1 := Step(START, run[0], STALL_SETUP);
    OneMore(w1, [] + [run[0]], run[1], STALL_SETUP, id);
    var w2 := Step(w1, run[1], STALL_SETUP);
    assert w2.item == Some(item.(state := Downloading, updatedAt := now));
    OneMore(w2, [] + [run[0]] + [run[1]], run[2], STALL_SETUP, id);
    var w3 := FirstStored(w2, item, manifest, mode, now);
    OneMore(w3, [] + [run[0]] + [run[1]] + [run[2]], run[3], STALL_SETUP, id);
    SecondStored(w3, item, manifest, mode, now);
    assert run == [] + [run[0]] + [run[1]] + [run[2]] + [run[3]];
  }

  lemma EmptyRun(id: string)
    ensures LawfulRun([], STALL_SETUP, id) && ProperRun([], STALL_SETUP) && After([], STALL_SETUP) == START
  {
  }

  function OneStored(item: HistoryItem, manifest: Manifest, mode: Mode, now: Time): World {
    var path := PayloadPath("/tmp/t", manifest);
    World(Some(Incoming(manifest, mode, mode, if mode == Memory then "a" else "", "/tmp/t", if mode == Memory then "" else path,
                        0, 2, 0, true, false, false)),
          if mode == Memory then map[] else map[path := "a"], map[],
          Some(item.(state := Downloading, lastChunkIdx := 0, updatedAt := now)))
  }

  lemma FirstStored(w: World, item: HistoryItem, manifest: Manifest, mode: Mode, now: Time) returns (w': World)
    requires mode == Memory || mode == Disk
    requires w == World(Some(FreshIncoming(manifest, -1).(requestActive := true)), map[], map[],
                        Some(item.(state := Downloading, updatedAt := now)))
    ensures w' == Step(w, TransferRuns.Timed(GoodChunk(mode, 0, "a"), now), STALL_SETUP) == OneStored(item, manifest, mode, now)
  {
    hide PayloadPath;
    w' := Step(w, TransferRuns.Timed(GoodChunk(mode, 0, "a"), now), STALL_SETUP);
    assert mode == Disk ==> PayloadPath("/tmp/t", manifest) != "" by { PathNotEmpty("/tmp/t", manifest); }
    assert "" + "a" == "a";
  }

  lemma SecondStored(w: World, item: HistoryItem, manifest: Manifest, mode: Mode, now: Time)
    requires mode == Memory || mode == Disk
    requires w == OneStored(item, manifest, mode, now)
    ensures Step(w, TransferRuns.Timed(GoodChunk(mode, 1, "b"), now), STALL_SETUP) == BothStored(item, manifest, mode, now)
  {
    hide PayloadPath;
    assert PayloadPath("/tmp/t", manifest) != "" by { PathNotEmpty("/tmp/t", manifest); }
    assert "a" + "b" == "ab";
  }

  lemma DamagedRestart(w: World, c: FileChunk, mode: Mode, now: Time)
    requires mode == Memory || mode == Disk
    requires w.inc.Some? && !w.inc.value.completed && w.inc.value.requestedResumeFrom > 0 && w.inc.value.lastChunkIdx >= 0
    requires w.inc.value.archiveMode == w.inc.value.storageMode == mode && w.inc.value.baseDir != "" && "" !in w.temp
    requires w.inc.value.archivePath == "" <==> mode == Memory
    requires w.item.Some? && w.item.value.state == Downloading && w.item.value.lastChunkIdx >= 0
    requires c.mode == mode && c.index == 0 && c.data == Garbage
    ensures var w' := ChunkStep(w, c, STALL_SETUP, ChunkIO("/tmp/t", true, true), now);
            Stalled(w') && w'.temp == w.temp && w'.inc.value.archivePath == w.inc.value.archivePath
  {
    hide PayloadPath;
    assert Judge(w.inc.value, c, false) == BadBytes;
  }

  /**
   * The stall is reached by a run of the program; in disk mode the whole old payload is still there, so
   * a completion naming it would close the transfer after all; in memory mode nothing is left.
   */
  lemma FailedRestartStalls(item: HistoryItem, manifest: Manifest, mode: Mode, now: Time)
    requires item.state == Offered && item.lastChunkIdx == -1 && (mode == Memory || mode == Disk)
    ensures var run := StallRun(item, manifest, mode, now);
            var w := After(run, STALL_SETUP);
            && LawfulRun(run, STALL_SETUP, manifest.transferID) && ProperRun(run, STALL_SETUP)
            && Stalled(w)
            && Leftover(w.inc.value, w.temp) == Some(if mode == Memory then "" else "ab")
  {
    hide LawfulRun, ProperRun, After, PayloadPath, ChunkStep;
    var start, end := StallStart(item, manifest, mode, now), StallEnd(item, manifest, mode, now);
    var id := manifest.transferID;
    StallStarts(item, manifest, mode, now);
    PathNotEmpty("/tmp/t", manifest);
    var w4 := BothStored(item, manifest, mode, now);
    OneMore(w4, start, end[0], STALL_SETUP, id);
    var w5 := Step(w4, end[0], STALL_SETUP);
    assert w5.item == Some(FailedCopy(item, now)) && w5.temp == w4.temp;
    OneMore(w5, start + [end[0]], end[1], STALL_SETUP, id);
    var w6 := Step(w5, end[1], STALL_SETUP);
    assert w6.inc == Some(w4.inc.value.(requestedResumeFrom := 2)) && w6.temp == w4.temp;
    OneMore(w6, start + [end[0]] + [end[1]], end[2], STALL_SETUP, id);
    DamagedRestart(w6, end[2].event.c, mode, now);
    assert start + [end[0]] + [end[1]] + [end[2]] == StallRun(item, manifest, mode, now);
  }

  // ---------------------------------------------------------------- closed for good

  /**
   * Completed is set when the payload has landed, whatever history says; the item becomes ready
   * exactly when its state was one ReadyToPaste may follow.
   */
  lemma ClosingReachesHistoryIff(w: World, m: FileComplete, io: CompleteIO, now: Time)
    requires ClosesNow(w, m, io, now) && w.item.Some?
    ensures var w' := CompleteStep(w, m, io, now);
            && w'.item.Some?
            && (w'.item.value.state == ReadyToPaste || w'.item.value.state == Consumed
                <==> w.item.value.state in {Downloading, ReadyToPaste, Consumed})
  {
    hide Finish, Land, Checked;
    var t := w.inc.value.(completing := true);
    var w1 := w.(inc := Some(t));
    assert !w.inc.value.completing;
    var copy := Checked(t, w.temp, m, io.hashOK).value;
    var w2 := WithReserved(w1, io.planned, now).value;
    FinishFacts(w2, t, Land(t, w2, copy, io), io, now);
  }

  /** Closed, but the item never heard of it. */
  predicate Dead(w: World) {
    && w.inc.Some? && w.inc.value.completed
    && w.item.Some? && InTransfer(w.item.value.state)
  }

  /**
   * A run into it: both chunks, then an error, then the completion, which still finds the whole payload
   * and lands it, while the item is Failed and stays so.
   */
  lemma LateCompletionIsDead(item: HistoryItem, manifest: Manifest, mode: Mode, io: CompleteIO, now: Time)
    requires item.state == Offered && item.lastChunkIdx == -1 && (mode == Memory || mode == Disk)
    requires manifest.raw && LandingWorks(io)
    ensures var m := FileComplete(mode, Sha256("ab"), 2);
            var run := StallStart(item, manifest, mode, now)
                       + [TransferRuns.Timed(Error("lost"), now)] + [TransferRuns.Timed(Complete(m, io), now)];
            && LawfulRun(run, STALL_SETUP, manifest.transferID) && ProperRun(run, STALL_SETUP)
            && Dead(After(run, STALL_SETUP))
  {
    hide LawfulRun, ProperRun, After, CompleteStep, ClosesNow, LandingWorks;
    var start, id := StallStart(item, manifest, mode, now), manifest.transferID;
    var m := FileComplete(mode, Sha256("ab"), 2);
    var error, complete := TransferRuns.Timed(Error("lost"), now), TransferRuns.Timed(Complete(m, io), now);
    StallStarts(item, manifest, mode, now);
    PathNotEmpty("/tmp/t", manifest);
    var w4 := BothStored(item, manifest, mode, now);
    OneMore(w4, start, error, STALL_SETUP, id);
    var w5 := Step(w4, error, STALL_SETUP);
    assert w5.item == Some(FailedCopy(item, now)) && w5.temp == w4.temp;
    assert Checked(w5.inc.value, w5.temp, m, true) == Some("ab");
    CheckedRawCloses(w5, m, io, now);
    OneMore(w5, start + [error], complete, STALL_SETUP, id);
    FailedItemStaysFailed(w5, m, io, now);
  }

  lemma FailedItemStaysFailed(w: World, m: FileComplete, io: CompleteIO, now: Time)
    requires ClosesNow(w, m, io, now) && w.item.Some? && w.item.value.state == Failed
    ensures Dead(CompleteStep(w, m, io, now))
  {
    hide Finish, Land, Checked;
    var t := w.inc.value.(completing := true);
    var w1 := w.(inc := Some(t));
    assert !w.inc.value.completing;
    var copy := Checked(t, w.temp, m, io.hashOK).value;
    var w2 := WithReserved(w1, io.planned, now).value;
    FinishFacts(w2, t, Land(t, w2, copy, io), io, now);
  }

  /** Completed is never cleared: while the item is listed nothing in the program brings the file back. */
  lemma {:induction false} DeadForGood(w: World, run: seq<Timed>, cfg: Setup)
    requires Dead(w)
    requires forall i :: 0 <= i < |run| ==> Proper(RunFrom(w, run[..i], cfg), run[i].event) && !run[i].event.Evict?
    ensures Dead(RunFrom(w, run, cfg))
  {
    hide Step, Proper;
    if run != [] {
      var front := run[..|run| - 1];
      forall i | 0 <= i < |front|
        ensures Proper(RunFrom(w, front[..i], cfg), front[i].event) && !front[i].event.Evict?
      {
        assert front[..i] == run[..i];
      }
      DeadForGood(w, front, cfg);
      DeadStep(RunFrom(w, front, cfg), run[|run| - 1], cfg);
    }
  }

  lemma DeadStep(w: World, t: Timed, cfg: Setup)
    requires Dead(w) && Proper(w, t.event) && !t.event.Evict?
    ensures Dead(Step(w, t, cfg))
  {
  }
}

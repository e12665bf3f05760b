/** Sender and receiver together: what a resumed or restarted transfer leaves, and when it checks out. */
module Resume {
  import opened Wrappers
  import opened Archive
  import opened History
  import opened Receiver
  import opened TransferRuns
  import opened TransferFacts
  import Outgoing = OutgoingArchive
  import Sender

  /** The chunks of a send, delivered in order. */
  function Deliveries(chunks: seq<FileChunk>, io: ChunkIO, now: Time): seq<TransferRuns.Timed> {
    seq(|chunks|, i requires 0 <= i < |chunks| => TransferRuns.Timed(Chunk(chunks[i], io), now))
  }

  /** The messages k, ..., k + n - 1 of an archive. */
  function Messages(content: string, k: nat, n: nat, mode: Mode, e2ee: bool, id: string): seq<FileChunk>
    requires k + n <= ChunkCount(|content|)
  {
    seq(n, j requires 0 <= j < n => ChunkMessage(content, k + j, mode, e2ee, id))
  }

  /** Their bodies, joined. */
  function Bodies(content: string, k: nat, n: nat): string
    requires k + n <= ChunkCount(|content|)
  {
    if n == 0 then "" else Bodies(content, k, n - 1) + ChunkAt(content, k + n - 1)
  }

  lemma {:induction false} BodiesFill(content: string, k: nat, n: nat)
    requires k + n <= ChunkCount(|content|)
    ensures Before(content, k) + Bodies(content, k, n) == Before(content, k + n)
    ensures n > 0 ==> Bodies(content, k, n) != ""
  {
    hide Before, ChunkAt;
    if n > 0 {
      BodiesFill(content, k, n - 1);
      ChunkGeometry(content, k + n - 1);
      assert Before(content, k) + (Bodies(content, k, n - 1) + ChunkAt(content, k + n - 1))
          == Before(content, k) + Bodies(content, k, n - 1) + ChunkAt(content, k + n - 1);
    }
  }

  /** The world once n of the messages, from the k-th on, have been delivered. */
  function Received(w: World, content: string, k: nat, n: nat, mode: Mode, cfg: Setup, id: string, io: ChunkIO, now: Time): World
    requires k + n <= ChunkCount(|content|)
  {
    if n == 0 then w
    else ChunkStep(Received(w, content, k, n - 1, mode, cfg, id, io, now),
                   ChunkMessage(content, k + n - 1, mode, cfg.e2ee, id), cfg, io, now)
  }

  lemma DeliveriesSnoc(content: string, k: nat, n: nat, mode: Mode, e2ee: bool, id: string, io: ChunkIO, now: Time)
    requires n > 0 && k + n <= ChunkCount(|content|)
    ensures var all := Deliveries(Messages(content, k, n, mode, e2ee, id), io, now);
            && |all| == n
            && all[..n - 1] == Deliveries(Messages(content, k, n - 1, mode, e2ee, id), io, now)
            && all[n - 1] == TransferRuns.Timed(Chunk(ChunkMessage(content, k + n - 1, mode, e2ee, id), io), now)
  {
  }

  lemma {:induction false} ReceivedIsRun(w: World, content: string, k: nat, n: nat, mode: Mode, cfg: Setup, id: string,
                                         io: ChunkIO, now: Time)
    requires k + n <= ChunkCount(|content|)
    ensures RunFrom(w, Deliveries(Messages(content, k, n, mode, cfg.e2ee, id), io, now), cfg)
            == Received(w, content, k, n, mode, cfg, id, io, now)
  {
    hide ChunkStep;
    var all := Deliveries(Messages(content, k, n, mode, cfg.e2ee, id), io, now);
    if n == 0 {
      assert all == [];
    } else {
      DeliveriesSnoc(content, k, n, mode, cfg.e2ee, id, io, now);
      ReceivedIsRun(w, content, k, n - 1, mode, cfg, id, io, now);
    }
  }

  // ---------------------------------------------------------------- one send, delivered

  predicate Works(io: ChunkIO) {
    io.tempDir != "" && io.spillOK && io.appendOK
  }

  /** Open, asked for, and its item waiting for the payload. */
  predicate Expecting(w: World, cfg: Setup, id: string) {
    && w.inc.Some? && !w.inc.value.completed && !w.inc.value.completing
    && w.inc.value.manifest.transferID == id
    && w.item.Some? && w.item.value.state == Downloading
    && Shaped(w.inc.value, cfg.threshold)
  }

  /** Ready to store chunk k of a send made in this mode onto `stored`; chunk 0 is next, or may restart. */
  predicate AwaitsChunk(w: World, stored: string, k: nat, mode: Mode, cfg: Setup, id: string) {
    && Expecting(w, cfg, id)
    && (if k == 0 then stored == "" && (w.inc.value.lastChunkIdx == -1 || w.inc.value.requestedResumeFrom > 0)
        else && w.inc.value.lastChunkIdx == k - 1 && w.inc.value.archiveMode == NormalMode(mode)
             && HoldsCopy(w.inc.value, w.temp, stored))
  }

  /** Only progress was made: manifest, targets and the rest of the item are as they were. */
  predicate OnlyProgress(w: World, w': World) {
    && w'.targets == w.targets
    && w.inc.Some? && w'.inc.Some? && w'.inc.value.manifest == w.inc.value.manifest
    && w.item.Some? && w'.item.Some?
    && w'.item.value == w.item.value.(state := w'.item.value.state, lastChunkIdx := w'.item.value.lastChunkIdx,
                                      updatedAt := w'.item.value.updatedAt)
  }

  lemma NextChunkIsFresh(t: Incoming, content: string, k: nat, mode: Mode, e2ee: bool)
    requires k < ChunkCount(|content|)
    requires if k == 0 then t.lastChunkIdx == -1 || t.requestedResumeFrom > 0
             else t.lastChunkIdx == k - 1 && t.archiveMode == NormalMode(mode)
    ensures Judge(t, ChunkMessage(content, k, mode, e2ee, t.manifest.transferID), e2ee) == Fresh(ChunkAt(content, k))
  {
  }

  lemma PlaceSucceeds(t: Incoming, temp: map<string, string>, raw: string, index: int, threshold: nat, io: ChunkIO)
    requires Works(io) && (t.storageMode != Memory ==> t.archivePath != "")
    ensures var p := Place(t, temp, raw, index, threshold, io);
            && p.ok && p.t.archiveMode == t.archiveMode && p.t.baseDir == t.baseDir
            && p.t.completing == t.completing && p.t.completed == t.completed && p.t.manifest == t.manifest
  {
  }

  /** Keeping a good body of a working receiver moves record and item on by one. */
  lemma KeepIsAccepted(w: World, t: Incoming, raw: string, c: FileChunk, stored: string, cfg: Setup, io: ChunkIO, now: Time)
    requires w.inc == Some(t) && Expecting(w, cfg, t.manifest.transferID) && t.baseDir != "" && Works(io)
    requires HoldsCopy(t, w.temp, stored) && t.lastChunkIdx + 1 == c.index
    ensures var w' := KeepStep(w, t, raw, c, cfg, io, now);
            && Expecting(w', cfg, t.manifest.transferID) && OnlyProgress(w, w')
            && w'.inc.value.lastChunkIdx == c.index && w'.inc.value.archiveMode == t.archiveMode
            && HoldsCopy(w'.inc.value, w'.temp, stored + raw)
  {
    hide Place, Fail;
    PlaceStaysRight(t, w.temp, raw, c.index, cfg.threshold, io, stored);
    PlaceSucceeds(t, w.temp, raw, c.index, cfg.threshold, io);
  }

  /** One delivered chunk moves the receiver on by exactly one. */
  lemma ChunkIsAccepted(w: World, stored: string, content: string, k: nat, mode: Mode, cfg: Setup, id: string, io: ChunkIO, now: Time)
    requires AwaitsChunk(w, stored, k, mode, cfg, id) && k < ChunkCount(|content|) && Works(io)
    ensures var w' := ChunkStep(w, ChunkMessage(content, k, mode, cfg.e2ee, id), cfg, io, now);
            AwaitsChunk(w', stored + ChunkAt(content, k), k + 1, mode, cfg, id) && OnlyProgress(w, w')
  {
    hide KeepStep, ChunkAt, Fail, RestartedTemp, KeptCopy, Opened;
    var c := ChunkMessage(content, k, mode, cfg.e2ee, id);
    var m := NormalMode(mode);
    var t := WithStorage(w.inc.value, m, io.tempDir);
    StorageStaysRight(w.inc.value, m, io.tempDir, cfg.threshold);
    NextChunkIsFresh(t, content, k, mode, cfg.e2ee);
    var t2, temp2 := t, w.temp;
    if k == 0 {
      RestartIsRight(t, m, w.temp, cfg.threshold);
      t2, temp2 := Restarted(t, m), RestartedTemp(t, m, w.temp);
    }
    KeepIsAccepted(w.(inc := Some(t2), temp := temp2), t2, ChunkAt(content, k), c, stored, cfg, io, now);
  }

  lemma {:induction false} ChunksAreAccepted(w: World, stored: string, content: string, k: nat, n: nat, mode: Mode, cfg: Setup,
                                             id: string, io: ChunkIO, now: Time)
    requires AwaitsChunk(w, stored, k, mode, cfg, id) && k + n <= ChunkCount(|content|) && Works(io)
    ensures var w' := Received(w, content, k, n, mode, cfg, id, io, now);
            AwaitsChunk(w', stored + Bodies(content, k, n), k + n, mode, cfg, id) && OnlyProgress(w, w')
  {
    hide ChunkStep, AwaitsChunk, ChunkAt;
    if n == 0 {
      assert stored + "" == stored;
      AwaitsMeans(w, stored, k, mode, cfg, id);
    } else {
      ChunksAreAccepted(w, stored, content, k, n - 1, mode, cfg, id, io, now);
      var w1 := Received(w, content, k, n - 1, mode, cfg, id, io, now);
      ChunkIsAccepted(w1, stored + Bodies(content, k, n - 1), content, k + n - 1, mode, cfg, id, io, now);
      assert stored + Bodies(content, k, n - 1) + ChunkAt(content, k + n - 1) == stored + Bodies(content, k, n);
    }
  }

  lemma AwaitsMeans(w: World, stored: string, k: nat, mode: Mode, cfg: Setup, id: string)
    requires AwaitsChunk(w, stored, k, mode, cfg, id)
    ensures w.inc.Some? && w.item.Some?
  {
  }

  lemma SendIsMessages(content: string, k: nat, mode: Mode, e2ee: bool, id: string)
    requires k <= ChunkCount(|content|)
    ensures Sender.ChunksFrom(content, k, ChunkCount(|content|), mode, e2ee, id)
         == Messages(content, k, ChunkCount(|content|) - k, mode, e2ee, id)
  {
    hide Sender.ChunksFrom, ChunkCount, ChunkMessage;
    Sender.SendsTheRest(content, k, mode, e2ee, id);
  }

  /**
   * A send of `content` from chunk k, delivered to a receiver that awaits it, leaves what was stored
   * followed by the rest of the content.
   */
  lemma SendStoresTheRest(w: World, stored: string, content: string, k: nat, mode: Mode, cfg: Setup, id: string, io: ChunkIO, now: Time)
    requires AwaitsChunk(w, stored, k, mode, cfg, id) && Works(io) && k < ChunkCount(|content|)
    ensures var chunks := Sender.ChunksFrom(content, k, ChunkCount(|content|), mode, cfg.e2ee, id);
            var w' := RunFrom(w, Deliveries(chunks, io, now), cfg);
            && Expecting(w', cfg, id) && OnlyProgress(w, w')
            && w'.inc.value.lastChunkIdx == ChunkCount(|content|) - 1
            && HoldsCopy(w'.inc.value, w'.temp, stored + Bodies(content, k, ChunkCount(|content|) - k))
  {
    hide Received, Bodies, HoldsCopy, Expecting, Sender.ChunksFrom, Messages, Deliveries, RunFrom, ChunkCount;
    var n := ChunkCount(|content|) - k;
    SendIsMessages(content, k, mode, cfg.e2ee, id);
    ChunksAreAccepted(w, stored, content, k, n, mode, cfg, id, io, now);
    ReceivedIsRun(w, content, k, n, mode, cfg, id, io, now);
  }

  // ---------------------------------------------------------------- sends that add nothing

  /** The record holds some chunks in another mode than the one announced. */
  predicate HoldsOtherMode(t: Incoming, k: nat, mode: Mode) {
    && !t.completed && t.baseDir != "" && t.lastChunkIdx == k - 1
    && t.storageMode != Unset && t.archiveMode != Unset && t.archiveMode != NormalMode(mode)
  }

  predicate SameBytes(t: Incoming, t': Incoming) {
    t' == t.(requestActive := t'.requestActive, completing := t'.completing)
  }

  lemma OtherModeStep(w: World, c: FileChunk, k: nat, cfg: Setup, io: ChunkIO, now: Time)
    requires w.inc.Some? && HoldsOtherMode(w.inc.value, k, c.mode) && c.index >= k > 0
    ensures var w' := ChunkStep(w, c, cfg, io, now);
            w'.inc.Some? && w'.temp == w.temp && SameBytes(w.inc.value, w'.inc.value)
  {
    assert WithStorage(w.inc.value, NormalMode(c.mode), io.tempDir) == w.inc.value;
    assert Judge(w.inc.value, c, cfg.e2ee) == ModeChanged;
  }

  /** In the other mode every further chunk is refused and the stored bytes stay as they are. */
  lemma {:induction false} OtherModeIsRefused(w: World, content: string, k: nat, n: nat, mode: Mode, cfg: Setup, id: string,
                                              io: ChunkIO, now: Time)
    requires w.inc.Some? && HoldsOtherMode(w.inc.value, k, mode)
    requires 0 < k && k + n <= ChunkCount(|content|)
    ensures var w' := Received(w, content, k, n, mode, cfg, id, io, now);
            w'.inc.Some? && w'.temp == w.temp && SameBytes(w.inc.value, w'.inc.value)
  {
    hide ChunkStep;
    if n > 0 {
      OtherModeIsRefused(w, content, k, n - 1, mode, cfg, id, io, now);
      OtherModeStep(Received(w, content, k, n - 1, mode, cfg, id, io, now),
                    ChunkMessage(content, k + n - 1, mode, cfg.e2ee, id), k, cfg, io, now);
    }
  }

  lemma NothingLeft(content: string, from: nat, total: nat, mode: Mode, e2ee: bool, id: string)
    requires from >= ChunkCount(|content|)
    ensures Sender.ChunksFrom(content, from, total, mode, e2ee, id) == []
    ensures Before(content, from) == content
  {
  }

  // ---------------------------------------------------------------- the completion check

  lemma CheckedIff(t: Incoming, temp: map<string, string>, threshold: nat, copy: string, m: FileComplete, content: string)
    requires Shaped(t, threshold) && HoldsCopy(t, temp, copy) && copy != ""
    requires m.sha == Sha256(content) && m.totalBytes == |content|
    ensures Checked(t, temp, m, true) == if copy == content then Some(content) else None
  {
    CheckReadsTheCopy(t, temp, threshold, copy);
  }

  lemma SameTail(a: string, b: string, tail: string)
    ensures a + tail == b + tail <==> a == b
  {
    if a + tail == b + tail {
      assert |a| == |b|;
      assert (a + tail)[..|a|] == a && (b + tail)[..|b|] == b;
    }
  }

  // ---------------------------------------------------------------- from the hotkey on

  /**
   * A transfer the user can start or resume: a failed one whose progress history knows, or one just
   * offered. `stored` are the bytes of the chunks it has, whatever archive they came from.
   */
  predicate Resumable(w: World, stored: string, cfg: Setup) {
    && w.inc.Some? && w.item.Some?
    && var t := w.inc.value;
    && !t.completed && !t.completing && !t.requestActive
    && Shaped(t, cfg.threshold) && HoldsCopy(t, w.temp, stored)
    && (t.lastChunkIdx >= 0 ==> stored != "")
    && ((w.item.value.state == Failed && w.item.value.lastChunkIdx == t.lastChunkIdx)
        || (w.item.value.state == Offered && t.lastChunkIdx == -1))
  }

  /** Runs lead there: every open transfer of a run whose item is Failed and agrees with it is resumable. */
  lemma FailedTransfersAreResumable(run: seq<TransferRuns.Timed>, cfg: Setup, id: string)
    requires LawfulRun(run, cfg, id) && ProperRun(run, cfg) && CompletionsFindItem(run, cfg)
    requires var w := After(run, cfg);
             ProgressAgrees(w) && !w.inc.value.completed && w.item.value.state == Failed
    requires Accepted(run, cfg) != [] ==> Joined(Accepted(run, cfg)) != ""
    ensures Resumable(After(run, cfg), Joined(Accepted(run, cfg)), cfg)
  {
    hide Joined, Accepted, After, LawfulRun, ProperRun, CompletionsFindItem, HoldsCopy;
    RunsAreSafe(run, cfg, id);
    RunStatesFit(run, cfg);
    RunsEndCompleting(run, cfg);
  }

  lemma RequestedWorld(w: World, stored: string, manifest: Manifest, cfg: Setup, now: Time)
    requires Resumable(w, stored, cfg)
    ensures var r := RequestStep(w, w.item.value, manifest, cfg.sessionID, true, now);
            && r.handed == Some(FileRequest(manifest.transferID, manifest.entryID, cfg.sessionID, w.inc.value.lastChunkIdx + 1))
            && r.w.temp == w.temp && r.w.targets == w.targets
            && r.w.inc == Some(w.inc.value.(manifest := manifest, requestedResumeFrom := w.inc.value.lastChunkIdx + 1, requestActive := true))
            && r.w.item == Some(w.item.value.(state := Downloading, updatedAt := now))
            && Expecting(r.w, cfg, manifest.transferID) && HoldsCopy(r.w.inc.value, r.w.temp, stored)
  {
  }

  /** What an exchange that ends with a completion sent: one archive, as the sender's fields describe it. */
  lemma ExchangeSends(before: Outgoing.Outgoing, after: Outgoing.Outgoing, resumeFrom: int, e2ee: bool, id: string,
                      env: Outgoing.Env, accepts: nat, sent: seq<FileChunk>, reply: Outgoing.Reply)
    requires Outgoing.Describes(before) && reply.Completed?
    requires Outgoing.Exchange(before, after, resumeFrom, e2ee, id, env, accepts, sent, reply)
    ensures var u := Outgoing.Prepared(before, env).0;
            && u.sha.Sha256?
            && sent == Sender.ChunksFrom(u.sha.of, if Outgoing.Reusable(before) then resumeFrom else 0,
                                         ChunkCount(|u.sha.of|), u.mode, e2ee, id)
            && reply.message == FileComplete(u.mode, u.sha, |u.sha.of|)
  {
    hide Outgoing.Prepared, Outgoing.Reusable;
    Outgoing.PreparedDescribes(before, env);
  }

  /** When the receiver's copy passes the check, after a send of `content` that reused an archive or built it. */
  predicate Rebuilds(w: World, stored: string, manifest: Manifest, content: string, reused: bool, mode: Mode)
    requires w.inc.Some?
  {
    var t := w.inc.value;
    var k := t.lastChunkIdx + 1;
    if content == "" then
      k == 0 && ((t.archivePath == "" && manifest.raw) || (t.archivePath in w.temp && w.temp[t.archivePath] == ""))
    else if !reused || k <= 0 then true
    else if k < ChunkCount(|content|) && t.archiveMode == NormalMode(mode) then stored == Before(content, k)
    else stored == content
  }

  /** A send in another mode than the stored chunks, with chunks still to come. */
  predicate WrongMode(w: World, content: string, reused: bool, mode: Mode)
    requires w.inc.Some?
  {
    reused && 0 < w.inc.value.lastChunkIdx + 1 < ChunkCount(|content|) && w.inc.value.archiveMode != NormalMode(mode)
  }

  /** The receiver after the request and the delivery of one send of `content`. */
  function AfterSend(w: World, content: string, reused: bool, mode: Mode, manifest: Manifest, cfg: Setup, io: ChunkIO, now: Time): World
    requires w.inc.Some? && w.item.Some?
  {
    var r := RequestStep(w, w.item.value, manifest, cfg.sessionID, true, now);
    var from := if reused then w.inc.value.lastChunkIdx + 1 else 0;
    var chunks := Sender.ChunksFrom(content, from, ChunkCount(|content|), mode, cfg.e2ee, manifest.transferID);
    RunFrom(r.w, Deliveries(chunks, io, now), cfg)
  }

  lemma NoChunksDelivered(w: World, content: string, reused: bool, mode: Mode, manifest: Manifest, cfg: Setup, io: ChunkIO, now: Time)
    requires w.inc.Some? && w.item.Some? && w.inc.value.lastChunkIdx >= -1
    requires ChunkCount(|content|) <= if reused then w.inc.value.lastChunkIdx + 1 else 0
    ensures AfterSend(w, content, reused, mode, manifest, cfg, io, now)
         == RequestStep(w, w.item.value, manifest, cfg.sessionID, true, now).w
  {
    hide RequestStep;
    NothingLeft(content, if reused then w.inc.value.lastChunkIdx + 1 else 0, ChunkCount(|content|), mode, cfg.e2ee, manifest.transferID);
    assert Deliveries([], io, now) == [];
  }

  lemma EmptySendChecksIff(w: World, stored: string, reused: bool, mode: Mode, manifest: Manifest, cfg: Setup, io: ChunkIO, now: Time)
    requires Resumable(w, stored, cfg)
    ensures var w' := AfterSend(w, "", reused, mode, manifest, cfg, io, now);
            && Expecting(w', cfg, manifest.transferID) && OnlyProgress(w.(inc := Some(w.inc.value.(manifest := manifest))), w')
            && (Checked(w'.inc.value, w'.temp, FileComplete(mode, Sha256(""), 0), true).Some?
                <==> Rebuilds(w, stored, manifest, "", reused, mode))
  {
    hide RequestStep, AfterSend;
    NoChunksDelivered(w, "", reused, mode, manifest, cfg, io, now);
    RequestedWorld(w, stored, manifest, cfg, now);
    var r := RequestStep(w, w.item.value, manifest, cfg.sessionID, true, now);
    if w.inc.value.lastChunkIdx >= 0 {
      CheckedIff(r.w.inc.value, r.w.temp, cfg.threshold, stored, FileComplete(mode, Sha256(""), 0), "");
    }
  }

  /** A send from chunk 0: of a new archive, or to a receiver that has nothing. */
  lemma SendFromZeroChecks(w: World, stored: string, content: string, reused: bool, mode: Mode, manifest: Manifest, cfg: Setup,
                           io: ChunkIO, now: Time)
    requires Resumable(w, stored, cfg) && Works(io) && content != "" && (!reused || w.inc.value.lastChunkIdx == -1)
    ensures var w' := AfterSend(w, content, reused, mode, manifest, cfg, io, now);
            && Expecting(w', cfg, manifest.transferID)
            && OnlyProgress(w.(inc := Some(w.inc.value.(manifest := manifest))), w')
            && Checked(w'.inc.value, w'.temp, FileComplete(mode, Sha256(content), |content|), true) == Some(content)
  {
    hide RequestStep, Bodies, Sender.ChunksFrom, RunFrom, Before, HoldsCopy;
    var count := ChunkCount(|content|);
    RequestedWorld(w, stored, manifest, cfg, now);
    var r := RequestStep(w, w.item.value, manifest, cfg.sessionID, true, now);
    SendStoresTheRest(r.w, "", content, 0, mode, cfg, manifest.transferID, io, now);
    BodiesFill(content, 0, count);
    ChunkGeometry(content, count);
    assert "" + Bodies(content, 0, count) == content;
    var w' := AfterSend(w, content, reused, mode, manifest, cfg, io, now);
    CheckedIff(w'.inc.value, w'.temp, cfg.threshold, content, FileComplete(mode, Sha256(content), |content|), content);
  }

  /** A send from chunk k of an archive that was there, in the mode of the stored chunks. */
  lemma SendFromMiddleChecksIff(w: World, stored: string, content: string, mode: Mode, manifest: Manifest, cfg: Setup,
                                io: ChunkIO, now: Time)
    requires Resumable(w, stored, cfg) && Works(io)
    requires 0 < w.inc.value.lastChunkIdx + 1 < ChunkCount(|content|) && w.inc.value.archiveMode == NormalMode(mode)
    ensures var w' := AfterSend(w, content, true, mode, manifest, cfg, io, now);
            && Expecting(w', cfg, manifest.transferID)
            && OnlyProgress(w.(inc := Some(w.inc.value.(manifest := manifest))), w')
            && (Checked(w'.inc.value, w'.temp, FileComplete(mode, Sha256(content), |content|), true).Some?
                <==> stored == Before(content, w.inc.value.lastChunkIdx + 1))
  {
    hide RequestStep, Bodies, Sender.ChunksFrom, RunFrom, Before, HoldsCopy;
    var count := ChunkCount(|content|);
    var k := w.inc.value.lastChunkIdx + 1;
    RequestedWorld(w, stored, manifest, cfg, now);
    var r := RequestStep(w, w.item.value, manifest, cfg.sessionID, true, now);
    SendStoresTheRest(r.w, stored, content, k, mode, cfg, manifest.transferID, io, now);
    BodiesFill(content, k, count - k);
    ChunkGeometry(content, count);
    var tail := Bodies(content, k, count - k);
    SameTail(stored, Before(content, k), tail);
    var w' := AfterSend(w, content, true, mode, manifest, cfg, io, now);
    CheckedIff(w'.inc.value, w'.temp, cfg.threshold, stored + tail, FileComplete(mode, Sha256(content), |content|), content);
  }

  /** A send that adds nothing to the copy: no chunk is left, or all are refused for their mode. */
  lemma SendThatAddsNothingChecksIff(w: World, stored: string, content: string, mode: Mode, manifest: Manifest, cfg: Setup,
                                     io: ChunkIO, now: Time)
    requires Resumable(w, stored, cfg) && w.inc.value.lastChunkIdx >= 0
    requires WrongMode(w, content, true, mode) || w.inc.value.lastChunkIdx + 1 >= ChunkCount(|content|)
    ensures var w' := AfterSend(w, content, true, mode, manifest, cfg, io, now);
            && w'.inc.Some?
            && (!WrongMode(w, content, true, mode) ==>
                  Expecting(w', cfg, manifest.transferID) && OnlyProgress(w.(inc := Some(w.inc.value.(manifest := manifest))), w'))
            && (Checked(w'.inc.value, w'.temp, FileComplete(mode, Sha256(content), |content|), true).Some? <==> stored == content)
  {
    hide RequestStep, Bodies, Received, AfterSend, HashedCopy, Sender.ChunksFrom;
    var k := w.inc.value.lastChunkIdx + 1;
    var id := manifest.transferID;
    var m := FileComplete(mode, Sha256(content), |content|);
    RequestedWorld(w, stored, manifest, cfg, now);
    var r := RequestStep(w, w.item.value, manifest, cfg.sessionID, true, now);
    CheckedIff(r.w.inc.value, r.w.temp, cfg.threshold, stored, m, content);
    if k >= ChunkCount(|content|) {
      NoChunksDelivered(w, content, true, mode, manifest, cfg, io, now);
    } else {
      var n := ChunkCount(|content|) - k;
      DeliveredIsReceived(w, content, mode, manifest, cfg, io, now);
      OtherModeIsRefused(r.w, content, k, n, mode, cfg, id, io, now);
      var w' := AfterSend(w, content, true, mode, manifest, cfg, io, now);
      SameBytesCheckAlike(r.w.inc.value, w'.inc.value, r.w.temp, m);
    }
  }

  lemma SameBytesCheckAlike(t: Incoming, t': Incoming, temp: map<string, string>, m: FileComplete)
    requires SameBytes(t, t')
    ensures Checked(t', temp, m, true) == Checked(t, temp, m, true)
  {
  }

  lemma DeliveredIsReceived(w: World, content: string, mode: Mode, manifest: Manifest, cfg: Setup, io: ChunkIO, now: Time)
    requires w.inc.Some? && w.item.Some? && 0 <= w.inc.value.lastChunkIdx + 1 <= ChunkCount(|content|)
    ensures var r := RequestStep(w, w.item.value, manifest, cfg.sessionID, true, now);
            var k := w.inc.value.lastChunkIdx + 1;
            AfterSend(w, content, true, mode, manifest, cfg, io, now)
            == Received(r.w, content, k, ChunkCount(|content|) - k, mode, cfg, manifest.transferID, io, now)
  {
    hide RequestStep, Received;
    var k := w.inc.value.lastChunkIdx + 1;
    var n := ChunkCount(|content|) - k;
    var id := manifest.transferID;
    var r := RequestStep(w, w.item.value, manifest, cfg.sessionID, true, now);
    SendIsMessages(content, k, mode, cfg.e2ee, id);
    ReceivedIsRun(r.w, content, k, n, mode, cfg, id, io, now);
  }

  lemma DeliveryChecksIff(w: World, stored: string, content: string, reused: bool, mode: Mode, manifest: Manifest, cfg: Setup,
                          io: ChunkIO, now: Time)
    requires Resumable(w, stored, cfg) && Works(io)
    ensures var w' := AfterSend(w, content, reused, mode, manifest, cfg, io, now);
            && w'.inc.Some?
            && (Checked(w'.inc.value, w'.temp, FileComplete(mode, Sha256(content), |content|), true).Some?
                <==> Rebuilds(w, stored, manifest, content, reused, mode))
            && (!WrongMode(w, content, reused, mode) ==>
                  Expecting(w', cfg, manifest.transferID) && OnlyProgress(w.(inc := Some(w.inc.value.(manifest := manifest))), w'))
  {
    hide AfterSend, Checked, Before, HoldsCopy, OnlyProgress;
    if content == "" {
      EmptySendChecksIff(w, stored, reused, mode, manifest, cfg, io, now);
    } else if !reused || w.inc.value.lastChunkIdx == -1 {
      SendFromZeroChecks(w, stored, content, reused, mode, manifest, cfg, io, now);
    } else if w.inc.value.lastChunkIdx + 1 < ChunkCount(|content|) && w.inc.value.archiveMode == NormalMode(mode) {
      SendFromMiddleChecksIff(w, stored, content, mode, manifest, cfg, io, now);
    } else {
      SendThatAddsNothingChecksIff(w, stored, content, mode, manifest, cfg, io, now);
    }
  }

  /**
   * Main result. The user starts or resumes a transfer whose receiver holds any bytes `stored` as chunks
   * 0 to k - 1; the sender, in any state, serves the request undisturbed with whatever archive it finds
   * or builds; everything arrives. Then the completion check passes exactly if the sender built the
   * archive for this request, or nothing was stored, or - the archive was there - what is stored is the
   * start of that archive up to chunk k and its mode is the one of the stored chunks; when no chunk is
   * left, or the modes differ, it must be that archive already. An empty archive needs an empty copy.
   */
  lemma ResumeChecksIff(w: World, stored: string, before: Outgoing.Outgoing, after: Outgoing.Outgoing, env: Outgoing.Env,
                        accepts: nat, sent: seq<FileChunk>, reply: Outgoing.Reply,
                        manifest: Manifest, cfg: Setup, io: ChunkIO, now: Time)
    requires Resumable(w, stored, cfg) && Works(io) && Outgoing.Describes(before) && reply.Completed?
    requires var r := RequestStep(w, w.item.value, manifest, cfg.sessionID, true, now);
             && r.handed.Some?
             && Outgoing.Exchange(before, after, r.handed.value.resumeFrom, cfg.e2ee, r.handed.value.transferID, env, accepts,
                                  sent, reply)
    ensures var u := Outgoing.Prepared(before, env).0;
            var r := RequestStep(w, w.item.value, manifest, cfg.sessionID, true, now);
            var w' := RunFrom(r.w, Deliveries(sent, io, now), cfg);
            && u.sha.Sha256? && w'.inc.Some?
            && (Checked(w'.inc.value, w'.temp, reply.message, true).Some?
                <==> Rebuilds(w, stored, manifest, u.sha.of, Outgoing.Reusable(before), u.mode))
  {
    hide Outgoing.Prepared, Outgoing.Reusable, Outgoing.Exchange, Checked, Rebuilds, RequestStep, Resumable, HoldsCopy;
    hide RunFrom, Deliveries, Sender.ChunksFrom, WrongMode, Expecting, OnlyProgress, Outgoing.Describes;
    ResumableHas(w, stored, cfg);
    RequestedWorld(w, stored, manifest, cfg, now);
    var r := RequestStep(w, w.item.value, manifest, cfg.sessionID, true, now);
    ExchangeSends(before, after, r.handed.value.resumeFrom, cfg.e2ee, r.handed.value.transferID, env, accepts, sent, reply);
    var u := Outgoing.Prepared(before, env).0;
    DeliveryChecksIff(w, stored, u.sha.of, Outgoing.Reusable(before), u.mode, manifest, cfg, io, now);
  }

  lemma ResumableHas(w: World, stored: string, cfg: Setup)
    requires Resumable(w, stored, cfg)
    ensures w.inc.Some? && w.item.Some?
  {
  }

  /**
   * The same for chunks that came from one archive: the check passes exactly if the sender built the
   * archive for this request, or nothing was stored, or the two archives agree up to chunk k and - unless
   * no chunk is left to send - the mode is that of the stored chunks. So an archive that was rebuilt
   * differently for someone else in between makes the resume fail.
   */
  lemma ResumeIsCompleteIff(w: World, archive: string, content: string, reused: bool, mode: Mode, manifest: Manifest, cfg: Setup,
                            io: ChunkIO, now: Time)
    requires w.inc.Some? && 0 <= w.inc.value.lastChunkIdx + 1 <= ChunkCount(|archive|)
    requires Resumable(w, Before(archive, w.inc.value.lastChunkIdx + 1), cfg) && Works(io) && content != ""
    ensures var k := w.inc.value.lastChunkIdx + 1;
            var w' := AfterSend(w, content, reused, mode, manifest, cfg, io, now);
            && w'.inc.Some?
            && (Checked(w'.inc.value, w'.temp, FileComplete(mode, Sha256(content), |content|), true) == Some(content) <==>
                  || !reused || k == 0
                  || (Before(archive, k) == Before(content, k)
                      && (k >= ChunkCount(|content|) || w.inc.value.archiveMode == NormalMode(mode))))
  {
    hide AfterSend, HoldsCopy, HashedCopy;
    var k := w.inc.value.lastChunkIdx + 1;
    DeliveryChecksIff(w, Before(archive, k), content, reused, mode, manifest, cfg, io, now);
    if k >= ChunkCount(|content|) {
      NothingLeft(content, k, 0, mode, cfg.e2ee, "");
    } else {
      ChunkGeometry(content, k);
    }
  }

  /** With the very archive still there, a resume from the middle works exactly in the mode it was started in. */
  lemma ResumeWorksIffModeKept(w: World, archive: string, mode: Mode, manifest: Manifest, cfg: Setup, io: ChunkIO, now: Time)
    requires w.inc.Some? && 0 < w.inc.value.lastChunkIdx + 1 < ChunkCount(|archive|)
    requires Resumable(w, Before(archive, w.inc.value.lastChunkIdx + 1), cfg) && Works(io)
    ensures var w' := AfterSend(w, archive, true, mode, manifest, cfg, io, now);
            && w'.inc.Some?
            && (Checked(w'.inc.value, w'.temp, FileComplete(mode, Sha256(archive), |archive|), true) == Some(archive)
                <==> w.inc.value.archiveMode == NormalMode(mode))
  {
    hide AfterSend, HoldsCopy, HashedCopy, Checked, Before;
    ResumeIsCompleteIff(w, archive, archive, true, mode, manifest, cfg, io, now);
  }

  // ---------------------------------------------------------------- from hotkey to target file

  /** The bytes are at `path`, the reserved one if there was any, no other target changed, and the item says so. */
  predicate AtTarget(w: World, w': World, io: CompleteIO, path: string, content: string) {
    && w'.targets == w.targets[path := content]
    && w'.inc.Some? && w'.inc.value.completed && !w'.inc.value.requestActive
    && w.item.Some? && w'.item.Some?
    && (w.item.value.reservedPaths != [] ==> io.normalize(w.item.value.reservedPaths[0]) == Some(path))
    && w'.item.value.localPaths != [] && w'.item.value.localPaths[0] == path
    && PendingSettled(w.item.value, w'.item.value, io.stageOK)
  }

  /**
   * Main result, end to end. One undisturbed exchange of a raw transfer - request, send by the sender's
   * loop, delivery, completion - that ResumeChecksIff lets through leaves exactly the sender's archive
   * at the reserved path, no other target changed, and the item ready to paste, or consumed by the
   * replay that was waiting for it.
   */
  lemma UndisturbedTransferArrives(w: World, stored: string, before: Outgoing.Outgoing, after: Outgoing.Outgoing, env: Outgoing.Env,
                                   accepts: nat, sent: seq<FileChunk>, reply: Outgoing.Reply,
                                   manifest: Manifest, cfg: Setup, io: ChunkIO, cio: CompleteIO, now: Time)
    returns (path: string)
    requires Resumable(w, stored, cfg) && Works(io) && Outgoing.Describes(before) && reply.Completed?
    requires var r := RequestStep(w, w.item.value, manifest, cfg.sessionID, true, now);
             && r.handed.Some?
             && Outgoing.Exchange(before, after, r.handed.value.resumeFrom, cfg.e2ee, r.handed.value.transferID, env, accepts,
                                  sent, reply)
    requires var u := Outgoing.Prepared(before, env).0;
             u.sha.Sha256? ==> Rebuilds(w, stored, manifest, u.sha.of, Outgoing.Reusable(before), u.mode)
                               && !WrongMode(w, u.sha.of, Outgoing.Reusable(before), u.mode)
    requires manifest.raw && LandingWorks(cio)
    ensures var u := Outgoing.Prepared(before, env).0;
            var r := RequestStep(w, w.item.value, manifest, cfg.sessionID, true, now);
            var w' := RunFrom(r.w, Deliveries(sent, io, now), cfg);
            u.sha.Sha256? && AtTarget(w, CompleteStep(w', reply.message, cio, now), cio, path, u.sha.of)
  {
    hide Outgoing.Prepared, Outgoing.Reusable, Outgoing.Exchange, Rebuilds, WrongMode, RequestStep, Resumable, HoldsCopy, LandingWorks;
    hide CompleteStep, ClosesNow, TransferFacts.Delivered, HashedCopy, RunFrom, Deliveries;
    ResumableHas(w, stored, cfg);
    RequestedWorld(w, stored, manifest, cfg, now);
    var r := RequestStep(w, w.item.value, manifest, cfg.sessionID, true, now);
    ExchangeSends(before, after, r.handed.value.resumeFrom, cfg.e2ee, r.handed.value.transferID, env, accepts, sent, reply);
    var u := Outgoing.Prepared(before, env).0;
    DeliveryChecksIff(w, stored, u.sha.of, Outgoing.Reusable(before), u.mode, manifest, cfg, io, now);
    var w' := RunFrom(r.w, Deliveries(sent, io, now), cfg);
    CheckedRawCloses(w', reply.message, cio, now);
    path := RawCloseReachesTarget(w', reply.message, cio, now);
  }

  /** A raw transfer that closes while its item is Downloading is at its target. */
  lemma RawCloseReachesTarget(w: World, m: FileComplete, io: CompleteIO, now: Time) returns (path: string)
    requires ClosesNow(w, m, io, now) && w.inc.value.manifest.raw && w.item.Some? && w.item.value.state == Downloading
    requires m.sha.Sha256?
    ensures AtTarget(w, CompleteStep(w, m, io, now), io, path, m.sha.of)
  {
    hide Land, Checked;
    RawSuccessDeliversTheArchive(w, m, io, now);
    var w' := CompleteStep(w, m, io, now);
    var p, copy :| TransferFacts.Delivered(w, w', m, io, p, copy);
    path := p;
    var t := w.inc.value.(completing := true);
    var w1 := w.(inc := Some(t));
    assert !w.inc.value.completing;
    var w2 := WithReserved(w1, io.planned, now).value;
    var landed := Land(t, w2, Checked(t, w.temp, m, io.hashOK).value, io);
    FinishFacts(w2, t, landed, io, now);
  }
}

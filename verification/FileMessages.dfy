/**
 * The addressed messages of a file transfer: a request finds its archive by transfer id, and what is sent
 * back finds the requesting session and its transfer.
 */
module FileMessages {
  import opened Wrappers
  import opened Archive
  import opened Receiver
  import opened TransferRuns
  import opened TransferFacts
  import opened Resume
  import Outgoing = OutgoingArchive

  datatype Letter =
    | ChunkLetter(transferID: string, target: string, c: FileChunk)
    | CompleteLetter(transferID: string, target: string, m: FileComplete)
    | ErrorLetter(transferID: string, target: string, code: string)

  // ---------------------------------------------------------------- the sending side

  type Table = map<string, Outgoing.Outgoing>

  /** What goes out for a request: its chunks and then how it ended, all addressed to the requester. */
  function Addressed(request: FileRequest, sent: seq<FileChunk>, reply: Outgoing.Reply): seq<Letter> {
    seq(|sent|, i requires 0 <= i < |sent| => ChunkLetter(request.transferID, request.target, sent[i]))
    + match reply
      case Nothing => []
      case Failure(code) => [ErrorLetter(request.transferID, request.target, code)]
      case Completed(m) => [CompleteLetter(request.transferID, request.target, m)]
  }

  /** One undisturbed request against the table: unknown transfers and busy targets get nothing. */
  predicate Serves(table: Table, table': Table, request: FileRequest, e2ee: bool, env: Outgoing.Env, accepts: nat,
                   sent: seq<FileChunk>, reply: Outgoing.Reply)
  {
    var id := request.transferID;
    if id !in table || request.target in table[id].sending then table' == table && sent == [] && reply == Outgoing.Nothing
    else
      var busy := table[id].sending + {request.target};
      && id in table' && table' == table[id := table'[id]]
      && table'[id].sending == table[id].sending
      && Outgoing.Exchange(table[id].(sending := busy), table'[id].(sending := busy), request.resumeFrom, e2ee, id, env, accepts,
                           sent, reply)
  }

  class TransferManager {
    var outgoing: map<string, Outgoing.OutgoingTransfer>

    constructor ()
      ensures outgoing == map[]
    {
      outgoing := map[];
    }

    ghost predicate Valid()
      reads this, outgoing.Values
    {
      && (forall a, b :: a in outgoing && b in outgoing && outgoing[a] == outgoing[b] ==> a == b)
      && forall id :: id in outgoing ==> Outgoing.Describes(outgoing[id].Value())
    }

    ghost function Contents(): Table
      reads this, outgoing.Values
    {
      map id | id in outgoing :: outgoing[id].Value()
    }

    method HandleFileRequest(request: FileRequest, e2ee: bool, env: Outgoing.Env, accepts: nat)
      returns (letters: seq<Letter>, sent: seq<FileChunk>, reply: Outgoing.Reply)
      requires Valid()
      modifies outgoing.Values
      ensures outgoing == old(outgoing) && Valid()
      ensures Serves(old(Contents()), Contents(), request, e2ee, env, accepts, sent, reply)
      ensures letters == Addressed(request, sent, reply)
    {
      hide Outgoing.Exchange, Outgoing.Describes;
      sent, reply := [], Outgoing.Nothing;
      if request.transferID in outgoing {
        var transfer := outgoing[request.transferID];
        ghost var before := Contents();
        assert transfer in outgoing.Values;
        sent, reply := transfer.HandleFileRequest(request.target, request.resumeFrom, e2ee, request.transferID, env, accepts);
        assert forall id :: id in outgoing && id != request.transferID ==> outgoing[id].Value() == before[id];
        assert Contents() == before[request.transferID := transfer.Value()];
      }
      letters := Addressed(request, sent, reply);
    }
  }

  /**
   * Main result for one request: nothing at all is said about an unknown transfer or to a target already
   * served; otherwise its chunks and the reply that ReplyIff tells go to the requester, under its transfer's id.
   */
  lemma AnsweredIff(table: Table, table': Table, request: FileRequest, e2ee: bool, env: Outgoing.Env, accepts: nat,
                    sent: seq<FileChunk>, reply: Outgoing.Reply)
    requires Serves(table, table', request, e2ee, env, accepts, sent, reply)
    requires forall id :: id in table ==> Outgoing.Describes(table[id])
    ensures var id, target, letters := request.transferID, request.target, Addressed(request, sent, reply);
            && (id !in table || target in table[id].sending ==> letters == [] && table' == table)
            && (id in table && target !in table[id].sending ==>
                  && id in table' && table'.Keys == table.Keys && table'[id].sending == table[id].sending
                  && (forall x :: x in table && x != id ==> table'[x] == table[x])
                  && Outgoing.Exchange(table[id].(sending := table[id].sending + {target}), table'[id].(sending := table[id].sending + {target}),
                                       request.resumeFrom, e2ee, id, env, accepts, sent, reply)
                  && |letters| == |sent| + (if reply.Nothing? then 0 else 1)
                  && (forall j :: 0 <= j < |sent| ==> letters[j] == ChunkLetter(id, target, sent[j]))
                  && (reply.Failure? ==> letters[|sent|] == ErrorLetter(id, target, reply.code))
                  && (reply.Completed? ==> letters[|sent|] == CompleteLetter(id, target, reply.message)))
  {
    hide Outgoing.Exchange, Outgoing.Describes;
    if request.transferID in table && request.target !in table[request.transferID].sending {
      assert table' == table[request.transferID := table'[request.transferID]];
    }
  }

  // ---------------------------------------------------------------- the receiving side

  // worlds: what the receiver holds for each transfer it knows.
  datatype Inbox = Inbox(session: string, worlds: map<string, World>)

  /** handleFileTransferMessage: letters to other sessions are dropped, the rest find their transfer. */
  function Delivered(box: Inbox, letter: Letter, cfg: Setup, io: ChunkIO, cio: CompleteIO, now: nat): Inbox {
    if letter.target != box.session || letter.transferID !in box.worlds then box
    else
      var w := box.worlds[letter.transferID];
      var w' := match letter
                case ChunkLetter(_, _, c) => ChunkStep(w, c, cfg, io, now)
                case CompleteLetter(_, _, m) => CompleteStep(w, m, cio, now)
                case ErrorLetter(_, _, code) => Fail(w, code, now);
      box.(worlds := box.worlds[letter.transferID := w'])
  }

  /** A letter changes only the transfer it names, if it is for this session; an error is told there with its code. */
  lemma LettersStayApart(box: Inbox, letter: Letter, cfg: Setup, io: ChunkIO, cio: CompleteIO, now: nat)
    ensures var end := Delivered(box, letter, cfg, io, cio, now);
            && end.session == box.session && end.worlds.Keys == box.worlds.Keys
            && (forall id :: id in box.worlds && (id != letter.transferID || letter.target != box.session) ==>
                  end.worlds[id] == box.worlds[id])
            && (letter.ErrorLetter? && letter.transferID in box.worlds && letter.target == box.session ==>
                  end.worlds[letter.transferID] == Fail(box.worlds[letter.transferID], letter.code, now))
  {
    hide ChunkStep, CompleteStep, Fail;
  }

  function AllDelivered(box: Inbox, letters: seq<Letter>, cfg: Setup, io: ChunkIO, cio: CompleteIO, now: nat): Inbox {
    if letters == [] then box
    else Delivered(AllDelivered(box, letters[..|letters| - 1], cfg, io, cio, now), letters[|letters| - 1], cfg, io, cio, now)
  }

  function ChunkLetters(id: string, target: string, sent: seq<FileChunk>): seq<Letter> {
    seq(|sent|, i requires 0 <= i < |sent| => ChunkLetter(id, target, sent[i]))
  }

  /** Chunks addressed to this session run through its transfer and touch no other. */
  lemma {:induction false} ChunksReachTheirTransfer(box: Inbox, id: string, sent: seq<FileChunk>, cfg: Setup, io: ChunkIO,
                                                    cio: CompleteIO, now: nat)
    requires id in box.worlds
    ensures AllDelivered(box, ChunkLetters(id, box.session, sent), cfg, io, cio, now)
         == box.(worlds := box.worlds[id := RunFrom(box.worlds[id], Deliveries(sent, io, now), cfg)])
  {
    hide ChunkStep, CompleteStep, Fail;
    var letters := ChunkLetters(id, box.session, sent);
    var all := Deliveries(sent, io, now);
    if sent == [] {
      assert letters == [] && all == [];
      assert box.worlds == box.worlds[id := box.worlds[id]];
    } else {
      var front := sent[..|sent| - 1];
      assert letters[..|letters| - 1] == ChunkLetters(id, box.session, front);
      assert all[..|all| - 1] == Deliveries(front, io, now);
      ChunksReachTheirTransfer(box, id, front, cfg, io, cio, now);
      var w := RunFrom(box.worlds[id], Deliveries(front, io, now), cfg);
      var w' := ChunkStep(w, sent[|sent| - 1], cfg, io, now);
      assert RunFrom(box.worlds[id], all, cfg) == w';
      assert box.worlds[id := w][id := w'] == box.worlds[id := w'];
    }
  }

  /**
   * Main result, over the addresses: the request a hotkey hands over, taken to the sender's table of
   * transfers, is served from the archive announced under that id, and what comes back reaches the
   * requesting session and this transfer only - where, when the check lets it through, it leaves the
   * sender's archive at the reserved path. No other transfer of either side is touched.
   */
  lemma RequestedTransferArrives(box: Inbox, id: string, stored: string, table: Table, table': Table, env: Outgoing.Env, accepts: nat,
                                 sent: seq<FileChunk>, reply: Outgoing.Reply, manifest: Manifest, cfg: Setup,
                                 io: ChunkIO, cio: CompleteIO, now: nat)
    returns (path: string)
    requires id in box.worlds && box.session == cfg.sessionID && manifest.transferID == id
    requires Resumable(box.worlds[id], stored, cfg) && Works(io) && manifest.raw && LandingWorks(cio)
    requires id in table && cfg.sessionID !in table[id].sending && Outgoing.Describes(table[id]) && reply.Completed?
    requires var r := RequestStep(box.worlds[id], box.worlds[id].item.value, manifest, cfg.sessionID, true, now);
             r.handed.Some? ==> Serves(table, table', r.handed.value, cfg.e2ee, env, accepts, sent, reply)
    requires var u := Outgoing.Prepared(table[id], env).0;
             u.sha.Sha256? ==> Rebuilds(box.worlds[id], stored, manifest, u.sha.of, Outgoing.Reusable(table[id]), u.mode)
                               && !WrongMode(box.worlds[id], u.sha.of, Outgoing.Reusable(table[id]), u.mode)
    ensures var w := box.worlds[id];
            var r := RequestStep(w, w.item.value, manifest, cfg.sessionID, true, now);
            var u := Outgoing.Prepared(table[id], env).0;
            && u.sha.Sha256? && r.handed.Some?
            && var asked := box.(worlds := box.worlds[id := r.w]);
               var end := AllDelivered(asked, Addressed(r.handed.value, sent, reply), cfg, io, cio, now);
               && id in end.worlds && end == box.(worlds := box.worlds[id := end.worlds[id]])
               && AtTarget(w, end.worlds[id], cio, path, u.sha.of)
               && id in table' && table' == table[id := table'[id]]
  {
    hide Outgoing.Prepared, Outgoing.Reusable, Outgoing.Exchange, Outgoing.Describes, Rebuilds, WrongMode, RequestStep, Resumable;
    hide HoldsCopy, LandingWorks, CompleteStep, ChunkStep, Fail, RunFrom, Deliveries, AtTarget, Works;
    var w := box.worlds[id];
    ResumableHas(w, stored, cfg);
    RequestedWorld(w, stored, manifest, cfg, now);
    var r := RequestStep(w, w.item.value, manifest, cfg.sessionID, true, now);
    var request := r.handed.value;
    var busy := table[id].sending + {cfg.sessionID};
    var before, after := table[id].(sending := busy), table'[id].(sending := busy);
    BusyChangesNothing(table[id], busy, env);
    path := UndisturbedTransferArrives(w, stored, before, after, env, accepts, sent, reply, manifest, cfg, io, cio, now);
    var asked := box.(worlds := box.worlds[id := r.w]);
    var chunks := ChunkLetters(id, cfg.sessionID, sent);
    var last := CompleteLetter(id, cfg.sessionID, reply.message);
    assert Addressed(request, sent, reply) == chunks + [last];
    assert (chunks + [last])[..|chunks|] == chunks;
    ChunksReachTheirTransfer(asked, id, sent, cfg, io, cio, now);
    var w1 := RunFrom(r.w, Deliveries(sent, io, now), cfg);
    var w2 := CompleteStep(w1, reply.message, cio, now);
    assert asked.worlds[id := w1][id := w2] == box.worlds[id := w2];
  }

  /** Which targets are being served has no part in preparing the archive. */
  lemma BusyChangesNothing(t: Outgoing.Outgoing, busy: set<string>, env: Outgoing.Env)
    ensures var b := t.(sending := busy);
            && Outgoing.Prepared(b, env) == (Outgoing.Prepared(t, env).0.(sending := busy), Outgoing.Prepared(t, env).1)
            && Outgoing.Reusable(b) == Outgoing.Reusable(t)
            && Outgoing.Describes(b) == Outgoing.Describes(t)
  {
  }
}

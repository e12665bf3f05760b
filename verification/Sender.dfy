/** The sender's chunk loop: read a full buffer, pack it, hand it to the transport. */
module Sender {
  import opened Wrappers
  import opened Archive

  /** Where the reader stands: a resume index at or below zero does not seek. */
  function StartOf(resumeFrom: int): nat {
    if resumeFrom > 0 then Offset(resumeFrom) else 0
  }

  function PiecesLeft(archive: string, from: nat): nat {
    if from < |archive| then ChunkCount(|archive| - from) else 0
  }

  /** The j-th message of a send that starts at byte `from` and numbers its chunks from `first`. */
  function Piece(archive: string, from: nat, first: int, j: nat, total: int, mode: Mode, e2ee: bool, id: string): FileChunk
    requires from + Offset(j) < |archive|
  {
    var lo := from + Offset(j);
    var hi := if lo + CHUNK_SIZE <= |archive| then lo + CHUNK_SIZE else |archive|;
    FileChunk(mode, first + j, total, Packed(archive[lo..hi], e2ee, id, first + j), Sha256(archive[lo..hi]))
  }

  function ChunksFrom(archive: string, resumeFrom: int, total: int, mode: Mode, e2ee: bool, id: string): seq<FileChunk> {
    var from := StartOf(resumeFrom);
    seq(PiecesLeft(archive, from), j requires 0 <= j < PiecesLeft(archive, from) =>
      assert Offset(j) < |archive| - from; Piece(archive, from, resumeFrom, j, total, mode, e2ee, id))
  }

  datatype ReadStatus = Full | EndOfInput | UnexpectedEnd

  /** io.ReadFull on a reader standing at pos: a full buffer, a last partial one, or the end. */
  method ReadFull(archive: string, pos: nat) returns (raw: string, status: ReadStatus)
    ensures pos >= |archive| ==> raw == "" && status == EndOfInput
    ensures pos < |archive| ==> |raw| == (if pos + CHUNK_SIZE <= |archive| then CHUNK_SIZE else |archive| - pos)
    ensures pos < |archive| ==> raw == archive[pos..pos + |raw|]
    ensures pos < |archive| ==> status == if |raw| == CHUNK_SIZE then Full else UnexpectedEnd
  {
    if pos >= |archive| {
      return "", EndOfInput;
    }
    var n := if pos + CHUNK_SIZE <= |archive| then CHUNK_SIZE else |archive| - pos;
    raw := archive[pos..pos + n];
    status := if n == CHUNK_SIZE then Full else UnexpectedEnd;
  }

  /**
   * Sends the rest of the archive. The transport takes `accepts` messages and then fails; what went
   * out is always the start of ChunksFrom, and all of it exactly when the call succeeds.
   */
  method SendArchiveChunks(archive: string, resumeFrom: int, total: int, mode: Mode, e2ee: bool, id: string, accepts: nat)
    returns (sent: seq<FileChunk>, ok: bool)
    ensures var all := ChunksFrom(archive, resumeFrom, total, mode, e2ee, id);
            && (ok <==> |all| <= accepts)
            && sent == if ok then all else all[..accepts]
  {
    ghost var all := ChunksFrom(archive, resumeFrom, total, mode, e2ee, id);
    var from := StartOf(resumeFrom);
    var pos := from;
    var chunkIndex := resumeFrom;
    sent := [];
    while true
      invariant |sent| <= |all| && |sent| <= accepts
      invariant sent == all[..|sent|]
      invariant pos == from + Offset(|sent|)
      invariant chunkIndex == resumeFrom + |sent|
      decreases |all| - |sent|
    {
      var raw, status := ReadFull(archive, pos);
      if status == EndOfInput {
        assert |sent| == |all|;
        break;
      }
      assert |sent| < |all|;
      var chunk := FileChunk(mode, chunkIndex, total, Packed(raw, e2ee, id, chunkIndex), Sha256(raw));
      assert chunk == all[|sent|];
      if |sent| == accepts {
        return sent, false;
      }
      sent := sent + [chunk];
      pos := pos + |raw|;
      chunkIndex := chunkIndex + 1;
      if status == UnexpectedEnd {
        assert |sent| == |all|;
        break;
      }
    }
    return sent, true;
  }

  lemma CountsAdd(size: nat, k: nat)
    ensures size > Offset(k) ==> ChunkCount(size) == k + ChunkCount(size - Offset(k))
    ensures size <= Offset(k) ==> ChunkCount(size) <= k
  {
  }

  lemma PieceIsChunk(archive: string, k: nat, j: nat, mode: Mode, e2ee: bool, id: string)
    requires k + j < ChunkCount(|archive|)
    ensures Offset(k) + Offset(j) == Offset(k + j) < |archive|
    ensures Piece(archive, Offset(k), k, j, ChunkCount(|archive|), mode, e2ee, id) == ChunkMessage(archive, k + j, mode, e2ee, id)
  {
    ChunkGeometry(archive, k + j);
    assert Offset(k) + Offset(j) == Offset(k + j);
  }

  /** A send resumed at chunk k emits exactly the archive's chunks k, k + 1, ... to the last. */
  lemma SendsTheRest(archive: string, k: nat, mode: Mode, e2ee: bool, id: string)
    ensures var all := ChunksFrom(archive, k, ChunkCount(|archive|), mode, e2ee, id);
            && |all| == (if k <= ChunkCount(|archive|) then ChunkCount(|archive|) - k else 0)
            && forall j :: 0 <= j < |all| ==> all[j] == ChunkMessage(archive, k + j, mode, e2ee, id)
  {
    hide ChunkCount, Piece, ChunkMessage;
    var all := ChunksFrom(archive, k, ChunkCount(|archive|), mode, e2ee, id);
    CountsAdd(|archive|, k);
    assert StartOf(k) == Offset(k);
    forall j | 0 <= j < |all|
      ensures all[j] == ChunkMessage(archive, k + j, mode, e2ee, id)
    {
      PieceIsChunk(archive, k, j, mode, e2ee, id);
    }
  }
}

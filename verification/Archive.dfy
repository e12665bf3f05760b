/**
 * What sender and receiver of a file transfer share: archive bytes, their 1 MiB chunks, digests
 * and the messages. A byte string is a Dafny string whose chars stand for bytes.
 */
module Archive {
  import opened Wrappers

  const CHUNK_SIZE: nat := 1048576

  // SHA-256 is taken to be injective: the digest of a byte string remembers it. A message may
  // also carry a digest text that is the digest of nothing.
  datatype Digest = Sha256(of: string) | NoDigest(text: string)

  datatype Mode = Unset | Disk | Memory

  datatype Manifest = Manifest(transferID: string, entryID: string, kind: string, raw: bool)

  // A chunk body: base64 text, an AES-GCM box bound to a transfer id and chunk index, or neither.
  datatype ChunkData = Plain(bytes: string) | Sealed(bytes: string, boundID: string, boundIndex: int) | Garbage

  datatype FileChunk = FileChunk(mode: Mode, index: int, totalChunks: int, data: ChunkData, sha: Digest)

  datatype FileComplete = FileComplete(mode: Mode, sha: Digest, totalBytes: int)

  datatype FileRequest = FileRequest(transferID: string, entryID: string, target: string, resumeFrom: int)

  /** Byte position at which chunk k starts. */
  function Offset(k: nat): nat {
    k * CHUNK_SIZE
  }

  /** Go's integer division truncates; sizes at or below zero have no chunks. */
  function ChunkCount(size: int): nat {
    if size <= 0 then 0
    else size / CHUNK_SIZE + if size % CHUNK_SIZE != 0 then 1 else 0
  }

  /** The bytes before chunk k, or all of them when the archive is shorter. */
  function Before(archive: string, k: nat): string {
    if Offset(k) <= |archive| then archive[..Offset(k)] else archive
  }

  function ChunkAt(archive: string, k: nat): string
    requires k < ChunkCount(|archive|)
  {
    assert Offset(k) < |archive|;
    archive[Offset(k)..if Offset(k + 1) <= |archive| then Offset(k + 1) else |archive|]
  }

  /** What the receiver gets out of a chunk body, if anything. */
  function Opened(data: ChunkData, e2ee: bool, transferID: string, index: int): Option<string> {
    match data
    case Plain(bytes) => if e2ee then None else Some(bytes)
    case Sealed(bytes, id, at) => if e2ee && id == transferID && at == index then Some(bytes) else None
    case Garbage => None
  }

  function Packed(bytes: string, e2ee: bool, transferID: string, index: int): ChunkData {
    if e2ee then Sealed(bytes, transferID, index) else Plain(bytes)
  }

  /** The k-th chunk message of an archive. */
  function ChunkMessage(archive: string, k: nat, mode: Mode, e2ee: bool, transferID: string): FileChunk
    requires k < ChunkCount(|archive|)
  {
    var bytes := ChunkAt(archive, k);
    FileChunk(mode, k, ChunkCount(|archive|), Packed(bytes, e2ee, transferID, k), Sha256(bytes))
  }

  lemma ChunkGeometry(archive: string, k: nat)
    ensures k < ChunkCount(|archive|) <==> Offset(k) < |archive|
    ensures k == ChunkCount(|archive|) ==> Before(archive, k) == archive
    ensures Before(archive, 0) == ""
    ensures k > 0 && archive != "" ==> Before(archive, k) != ""
    ensures k < ChunkCount(|archive|) ==>
      && Before(archive, k + 1) == Before(archive, k) + ChunkAt(archive, k)
      && 0 < |ChunkAt(archive, k)| <= CHUNK_SIZE
  {
  }

  /** Encrypted, a chunk opens only in its own transfer and at its own index, and only where encryption is on. */
  lemma OpensWhereItBelongs(raw: string, sealed: bool, id: string, k: int, e2ee: bool, id': string, k': int)
    ensures Opened(Packed(raw, sealed, id, k), e2ee, id', k')
         == if sealed == e2ee && (sealed ==> id == id' && k == k') then Some(raw) else None
  {
  }
}

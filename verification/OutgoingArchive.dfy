/**
 * The archive a sender keeps for one transfer: built in memory or in a temporary directory, shared
 * by all targets, cleared by a timer or a release. The archive file has a fixed name inside its
 * directory, so a path is written as the directory. "" is no directory.
 */
module OutgoingArchive {
  import opened Wrappers
  import opened Archive
  import opened Sender

  const NO_SHA := NoDigest("")

  // temp: the temporary directories that exist, each with the archive file in it, if any.
  datatype Outgoing = Outgoing(
    mode: Mode, bytes: string, baseDir: string, archiveDir: string, sha: Digest, size: nat, chunks: nat,
    timer: Option<nat>, gen: nat, sending: set<string>, temp: map<string, Option<string>>)

  // Where building on disk stops; a failed build may leave a partial file.
  datatype Fault = NoFault | MakeDirFails | BuildFails(left: Option<string>) | HashFails

  // What a build finds: ready peers, the limit, what the sources yield, and the new directory.
  datatype Env = Env(peers: nat, estimate: int, threshold: int,
                     memoryBuild: Option<string>, diskBuild: string, tempDir: string, fault: Fault)

  datatype Reply = Nothing | Failure(code: string) | Completed(message: FileComplete)

  function FileIn(temp: map<string, Option<string>>, dir: string): Option<string> {
    if dir in temp then temp[dir] else None
  }

  /** The reader finds bytes in memory or opens the file; an empty archive in memory has neither. */
  function Readable(t: Outgoing): Option<string> {
    if t.bytes != "" then Some(t.bytes) else if t.archiveDir == "" then None else FileIn(t.temp, t.archiveDir)
  }

  predicate Reusable(t: Outgoing) {
    Readable(t).Some?
  }

  predicate CanUseMemory(env: Env) {
    env.peers != 0 && env.estimate <= env.threshold
  }

  function InMemory(t: Outgoing, data: string): Outgoing {
    t.(mode := Memory, bytes := data, baseDir := "", archiveDir := "",
       sha := Sha256(data), size := |data|, chunks := ChunkCount(|data|))
  }

  function InFile(t: Outgoing, data: string): Outgoing {
    t.(mode := Disk, bytes := "", archiveDir := t.baseDir, temp := t.temp[t.baseDir := Some(data)],
       sha := Sha256(data), size := |data|, chunks := ChunkCount(|data|))
  }

  function WithDir(t: Outgoing, env: Env): Option<Outgoing> {
    if t.baseDir != "" then Some(t)
    else if env.tempDir == "" then None
    else Some(t.(baseDir := env.tempDir, temp := t.temp[env.tempDir := None]))
  }

  function OnDisk(t: Outgoing, env: Env): (Outgoing, bool) {
    match WithDir(t, env)
    case None => (t, false)
    case Some(u) =>
      if env.fault.MakeDirFails? then (u, false)
      else
        var v := if u.baseDir in u.temp then u else u.(temp := u.temp[u.baseDir := None]);
        match env.fault
        case BuildFails(left) => (if left.Some? then v.(temp := v.temp[v.baseDir := left]) else v, false)
        case HashFails => (v.(temp := v.temp[v.baseDir := Some(env.diskBuild)]), false)
        case _ => (InFile(v, env.diskBuild), true)
  }

  function Prepared(t: Outgoing, env: Env): (Outgoing, bool) {
    var u := t.(timer := None, gen := t.gen + 1);
    if t.bytes != "" then (u.(mode := Memory), true)
    else if Reusable(t) then (u.(mode := Disk), true)
    else if CanUseMemory(env) && env.memoryBuild.Some? && |env.memoryBuild.value| <= env.threshold
      then (InMemory(u, env.memoryBuild.value), true)
    else OnDisk(u, env)
  }

  function Cleared(t: Outgoing): Outgoing {
    t.(mode := Disk, bytes := "", baseDir := "", archiveDir := "", sha := NO_SHA, size := 0, chunks := 0, timer := None)
  }

  function Fired(t: Outgoing, gen: nat): Outgoing {
    if t.gen == gen then Cleared(t) else t
  }

  function Released(t: Outgoing): Outgoing {
    if t.sending != {} then t else Cleared(t).(gen := t.gen + 1)
  }

  function Scheduled(t: Outgoing): Outgoing {
    t.(gen := t.gen + 1, timer := Some(t.gen + 1))
  }

  function Completion(t: Outgoing): FileComplete {
    FileComplete(t.mode, t.sha, t.size)
  }

  /** Hash, size and chunk count describe the archive held, or all of them are cleared. */
  predicate Describes(t: Outgoing) {
    || (t.sha == NO_SHA && t.bytes == "" && t.archiveDir == "" && t.size == 0 && t.chunks == 0)
    || (&& t.sha.Sha256? && t.size == |t.sha.of| && t.chunks == ChunkCount(|t.sha.of|)
        && ((t.mode == Memory && t.bytes == t.sha.of && t.archiveDir == "")
            || (t.mode == Disk && t.bytes == "" && t.archiveDir != "" && t.archiveDir == t.baseDir
                && FileIn(t.temp, t.archiveDir) == Some(t.sha.of))))
  }

  /** A preparation never breaks the description, whatever fails on the way, and reuses what is held. */
  lemma PreparedDescribes(t: Outgoing, env: Env)
    requires Describes(t)
    ensures var (u, ok) := Prepared(t, env);
            && Describes(u)
            && (ok ==> u.sha.Sha256?)
            && (Reusable(t) ==> ok && Readable(u) == Readable(t) && u.sha == t.sha)
            && (!ok ==> u.sha == t.sha && u.size == t.size && u.chunks == t.chunks && u.bytes == t.bytes)
            && (ok && !Reusable(t) && u.mode == Memory ==> u.size <= env.threshold)
  {
  }

  /** An archive is kept in memory when a peer is ready and neither the estimate nor the result passes the limit. */
  predicate BuildsInMemory(env: Env) {
    && env.peers > 0 && env.estimate <= env.threshold
    && env.memoryBuild.Some? && |env.memoryBuild.value| <= env.threshold
  }

  /** Where a preparation keeps the archive, when it succeeds, and that no other directory is touched. */
  lemma PreparedIff(t: Outgoing, env: Env)
    ensures var (u, ok) := Prepared(t, env);
            var dir := if t.baseDir != "" then t.baseDir else env.tempDir;
            && u.gen == t.gen + 1 && u.timer == None && u.sending == t.sending
            && (ok <==> Reusable(t) || BuildsInMemory(env) || (dir != "" && env.fault == NoFault))
            && (Reusable(t) ==> u.temp == t.temp && u.bytes == t.bytes && u.baseDir == t.baseDir && u.archiveDir == t.archiveDir
                                && u.mode == (if t.bytes != "" then Memory else Disk))
            && (!Reusable(t) && BuildsInMemory(env) ==>
                  u.mode == Memory && u.bytes == env.memoryBuild.value && u.baseDir == u.archiveDir == "" && u.temp == t.temp)
            && (!Reusable(t) && !BuildsInMemory(env) ==>
                  && u.baseDir == dir && u.temp.Keys == t.temp.Keys + (if dir == "" || (env.fault.MakeDirFails? && t.baseDir != "") then {} else {dir})
                  && (forall d :: d in t.temp && d != dir ==> u.temp[d] == t.temp[d])
                  && (ok ==> u.mode == Disk && u.bytes == "" && u.archiveDir == dir && u.temp[dir] == Some(env.diskBuild))
                  && (!ok ==> u.mode == t.mode && u.bytes == t.bytes && u.archiveDir == t.archiveDir)
                  && (dir != "" && env.fault.BuildFails? ==>
                        u.temp[dir] == if env.fault.left.Some? || t.baseDir == "" then env.fault.left else FileIn(t.temp, dir))
                  && (dir != "" && env.fault.HashFails? ==> u.temp[dir] == Some(env.diskBuild)))
  {
  }

  /** Every archive that was prepared can be streamed, except an empty one kept in memory. */
  lemma PreparedStreamsIff(t: Outgoing, env: Env)
    requires Describes(t) && Prepared(t, env).1
    ensures var u := Prepared(t, env).0;
            && (Reusable(u) <==> !(u.mode == Memory && u.size == 0))
            && (Reusable(u) ==> Readable(u) == Some(u.sha.of))
  {
    PreparedDescribes(t, env);
  }

  /**
   * What one undisturbed request does. The transport takes `accepts` messages: first the chunks of
   * the prepared archive u, from the resume index only if the archive was already there, then the
   * completion, which names u's bytes; only then a timer is armed.
   */
  predicate Exchange(before: Outgoing, after: Outgoing, resumeFrom: int, e2ee: bool, id: string, env: Env,
                     accepts: nat, sent: seq<FileChunk>, reply: Reply)
  {
    var (u, ok) := Prepared(before, env);
    if !ok then after == u && sent == [] && reply == Failure("archive_failed")
    else if !Reusable(u) then after == u && sent == [] && reply == Failure("send_failed")
    else
      && u.sha.Sha256?
      && var all := ChunksFrom(u.sha.of, if Reusable(before) then resumeFrom else 0, u.chunks, u.mode, e2ee, id);
      if accepts < |all| then after == u && sent == all[..accepts] && reply == Failure("send_failed")
      else if accepts == |all| then after == u && sent == all && reply == Nothing
      else after == Scheduled(u) && sent == all && reply == Completed(FileComplete(u.mode, u.sha, |u.sha.of|))
  }

  /** How many chunk messages an archive is sent as from a resume index on. */
  function ChunksLeft(archive: string, from: nat): nat {
    if from < ChunkCount(|archive|) then ChunkCount(|archive|) - from else 0
  }

  /**
   * Main result for one undisturbed request: how it is answered. It fails to prepare exactly if no archive is
   * held or can be built, fails to send if an empty archive is in memory or the transport stops before the
   * last chunk, says nothing if it stops right after it, and otherwise completes; what went out is the start
   * of the right chunks, as far as the transport took them.
   */
  lemma ReplyIff(before: Outgoing, after: Outgoing, resumeFrom: nat, e2ee: bool, id: string, env: Env,
                 accepts: nat, sent: seq<FileChunk>, reply: Reply)
    requires Describes(before) && Exchange(before, after, resumeFrom, e2ee, id, env, accepts, sent, reply)
    ensures var u := Prepared(before, env).0;
            var held := Reusable(before);
            var prepared := held || BuildsInMemory(env) || ((before.baseDir != "" || env.tempDir != "") && env.fault == NoFault);
            var from := if held then resumeFrom else 0;
            if !prepared then reply == Failure("archive_failed") && sent == []
            else
              && u.sha.Sha256?
              && var all := ChunksLeft(u.sha.of, from);
                 if u.mode == Memory && u.sha.of == "" then reply == Failure("send_failed") && sent == []
                 else
                   && reply == (if accepts < all then Failure("send_failed") else if accepts == all then Nothing
                                else Completed(FileComplete(u.mode, u.sha, |u.sha.of|)))
                   && |sent| == (if accepts < all then accepts else all)
                   && forall j :: 0 <= j < |sent| ==>
                        from + j < ChunkCount(|u.sha.of|) && sent[j] == ChunkMessage(u.sha.of, from + j, u.mode, e2ee, id)
  {
    hide Prepared, Readable, ChunkCount, ChunkMessage, ChunksFrom;
    PreparedIff(before, env);
    PreparedDescribes(before, env);
    var u := Prepared(before, env).0;
    if Prepared(before, env).1 {
      PreparedStreamsIff(before, env);
      SendsTheRest(u.sha.of, if Reusable(before) then resumeFrom else 0, u.mode, e2ee, id);
    }
  }

  class OutgoingTransfer {
    var archiveMode: Mode
    var archiveBytes: string
    var baseDir: string
    var archiveDir: string
    var archiveSHA256: Digest
    var archiveSize: nat
    var chunkCount: nat
    var cleanupTimer: Option<nat>
    var cleanupGen: nat
    var sendingTargets: set<string>
    var temp: map<string, Option<string>>

    ghost function Value(): Outgoing
      reads this
    {
      Outgoing(archiveMode, archiveBytes, baseDir, archiveDir, archiveSHA256, archiveSize, chunkCount,
               cleanupTimer, cleanupGen, sendingTargets, temp)
    }

    constructor ()
      ensures Value() == Outgoing(Unset, "", "", "", NO_SHA, 0, 0, None, 0, {}, map[])
    {
      archiveMode, archiveBytes, baseDir, archiveDir := Unset, "", "", "";
      archiveSHA256, archiveSize, chunkCount := NO_SHA, 0, 0;
      cleanupTimer, cleanupGen, sendingTargets, temp := None, 0, {}, map[];
    }

    method Claim(target: string) returns (claimed: bool)
      modifies this`sendingTargets
      ensures claimed <==> target !in old(sendingTargets)
      ensures sendingTargets == old(sendingTargets) + {target}
    {
      claimed := target !in sendingTargets;
      if claimed {
        sendingTargets := sendingTargets + {target};
      }
    }

    method Unclaim(target: string)
      modifies this`sendingTargets
      ensures sendingTargets == old(sendingTargets) - {target}
    {
      sendingTargets := sendingTargets - {target};
    }

    method HasReusableArchive() returns (found: bool)
      ensures found <==> Reusable(Value())
    {
      if archiveBytes != "" {
        return true;
      }
      if archiveDir == "" {
        return false;
      }
      return archiveDir in temp && temp[archiveDir].Some?;
    }

    method Prepare(env: Env) returns (ok: bool)
      modifies this
      ensures (Value(), ok) == Prepared(old(Value()), env)
    {
      if cleanupTimer.Some? {
        cleanupTimer := None;
      }
      cleanupGen := cleanupGen + 1;
      if archiveBytes != "" {
        archiveMode := Memory;
        return true;
      }
      if archiveDir != "" && archiveDir in temp && temp[archiveDir].Some? {
        archiveMode := Disk;
        return true;
      }
      if env.peers != 0 && env.estimate <= env.threshold {
        ok := PrepareInMemory(env);
        if ok {
          return;
        }
      }
      ok := PrepareOnDisk(env);
    }

    method PrepareInMemory(env: Env) returns (ok: bool)
      modifies this
      ensures ok <==> env.memoryBuild.Some? && |env.memoryBuild.value| <= env.threshold
      ensures Value() == if ok then InMemory(old(Value()), env.memoryBuild.value) else old(Value())
    {
      if env.memoryBuild.None? {
        return false;
      }
      var data := env.memoryBuild.value;
      if |data| > env.threshold {
        return false;
      }
      archiveMode, archiveBytes, baseDir, archiveDir := Memory, data, "", "";
      archiveSHA256, archiveSize, chunkCount := Sha256(data), |data|, ChunkCount(|data|);
      ok := true;
    }

    method PrepareOnDisk(env: Env) returns (ok: bool)
      modifies this
      ensures (Value(), ok) == OnDisk(old(Value()), env)
    {
      if baseDir == "" {
        if env.tempDir == "" {
          return false;
        }
        temp := temp[env.tempDir := None];
        baseDir := env.tempDir;
      }
      if env.fault.MakeDirFails? {
        return false;
      }
      if baseDir !in temp {
        temp := temp[baseDir := None];
      }
      if env.fault.BuildFails? {
        if env.fault.left.Some? {
          temp := temp[baseDir := env.fault.left];
        }
        return false;
      }
      temp := temp[baseDir := Some(env.diskBuild)];
      if env.fault.HashFails? {
        return false;
      }
      archiveMode, archiveBytes, archiveDir := Disk, "", baseDir;
      archiveSHA256, archiveSize, chunkCount := Sha256(env.diskBuild), |env.diskBuild|, ChunkCount(|env.diskBuild|);
      ok := true;
    }

    method OpenReader() returns (data: Option<string>)
      ensures data == Readable(Value())
    {
      if archiveBytes != "" {
        return Some(archiveBytes);
      }
      return if archiveDir != "" && archiveDir in temp then temp[archiveDir] else None;
    }

    /** Arms a new timer; the generation is what the timer will compare when it fires. */
    method ScheduleCleanup() returns (armed: nat)
      modifies this
      ensures Value() == Scheduled(old(Value())) && armed == cleanupGen
    {
      cleanupGen := cleanupGen + 1;
      cleanupTimer := Some(cleanupGen);
      armed := cleanupGen;
    }

    /** The timer's critical section; the directory it returns is removed after the lock is given up. */
    method FireCleanup(armed: nat) returns (doomed: string)
      modifies this
      ensures Value() == Fired(old(Value()), armed)
      ensures doomed == if old(cleanupGen) == armed then old(baseDir) else ""
    {
      if cleanupGen != armed {
        return "";
      }
      doomed := baseDir;
      Clear();
    }

    method Release() returns (doomed: string)
      modifies this
      ensures Value() == Released(old(Value()))
      ensures doomed == if old(sendingTargets) == {} then old(baseDir) else ""
    {
      if sendingTargets != {} {
        return "";
      }
      doomed := baseDir;
      cleanupGen := cleanupGen + 1;
      Clear();
    }

    method Clear()
      modifies this
      ensures Value() == Cleared(old(Value()))
    {
      archiveMode, archiveBytes, baseDir, archiveDir := Disk, "", "", "";
      archiveSHA256, archiveSize, chunkCount := NO_SHA, 0, 0;
      cleanupTimer := None;
    }

    method RemoveAll(dir: string)
      modifies this`temp
      ensures temp == old(temp) - {dir}
    {
      temp := temp - {dir};
    }

    /**
     * One file_request from claim to completion with nobody else in between. Whatever goes out is
     * taken from one archive, and a completion names exactly that archive.
     */
    method HandleFileRequest(target: string, resumeFrom: int, e2ee: bool, id: string, env: Env, accepts: nat)
      returns (sent: seq<FileChunk>, reply: Reply)
      requires Describes(Value())
      modifies this
      ensures sendingTargets == old(sendingTargets) && Describes(Value())
      ensures target in old(sendingTargets) ==> sent == [] && reply == Nothing && Value() == old(Value())
      ensures target !in old(sendingTargets) ==>
                var busy := old(sendingTargets) + {target};
                Exchange(old(Value()).(sending := busy), Value().(sending := busy),
                         resumeFrom, e2ee, id, env, accepts, sent, reply)
    {
      ghost var before := Value();
      sent, reply := [], Nothing;
      if target in sendingTargets {
        return;
      }
      var claimed := Claim(target);
      sent, reply := SendTo(resumeFrom, e2ee, id, env, accepts);
      ghost var after := Value();
      Unclaim(target);
      assert Value() == after.(sending := before.sending);
    }

    method SendTo(resumeFrom: int, e2ee: bool, id: string, env: Env, accepts: nat)
      returns (sent: seq<FileChunk>, reply: Reply)
      requires Describes(Value())
      modifies this
      ensures Exchange(old(Value()), Value(), resumeFrom, e2ee, id, env, accepts, sent, reply)
      ensures sendingTargets == old(sendingTargets) && Describes(Value())
    {
      ghost var before := Value();
      PreparedDescribes(before, env);
      sent, reply := [], Nothing;
      var reusable := HasReusableArchive();
      var from := if reusable then resumeFrom else 0;
      var ok := Prepare(env);
      if !ok {
        reply := Failure("archive_failed");
        return;
      }
      PreparedStreamsIff(before, env);
      var data := OpenReader();
      if data.None? {
        reply := Failure("send_failed");
        return;
      }
      sent, ok := SendArchiveChunks(data.value, from, chunkCount, archiveMode, e2ee, id, accepts);
      if !ok {
        reply := Failure("send_failed");
        return;
      }
      if |sent| == accepts {
        return;
      }
      reply := Completed(FileComplete(archiveMode, archiveSHA256, archiveSize));
      var armed := ScheduleCleanup();
    }
  }
}

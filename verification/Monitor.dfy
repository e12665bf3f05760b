/**
 * The clipboard monitor of one device: change detection by hash, and the counter that suppresses the
 * change events the program's own writes cause. Hashes are plain numbers; nothing below needs them
 * to be free of collisions.
 */
module Monitor {
  import opened Wrappers

  // Nanoseconds; 0 is the zero time.
  type Time = nat

  const FIVE_SECONDS: nat := 5_000_000_000

  datatype Kind = TextKind | ImageKind | FileStubKind | FileEagerKind | OtherKind

  datatype State = State(lastHash: nat, suppressedEdits: int, suppressedAt: Time)

  // Which platform calls of a write succeed. decodeOK: payload decodes (and converts, for an image);
  // nativeOK: the platform writer took it; storeOK: the temporary file and path list were set.
  datatype WriteIO = WriteIO(decodeOK: bool, nativeOK: bool, storeOK: bool)

  /** Suppressions older than five seconds are dropped. */
  function Expired(s: State, now: Time): State {
    if s.suppressedEdits > 0 && s.suppressedAt != 0 && now - s.suppressedAt > FIVE_SECONDS then s.(suppressedEdits := 0) else s
  }

  datatype Seen = Seen(s: State, emits: bool)

  /** handleChange: a suppressed or unchanged capture is swallowed, any other is emitted. */
  function Changed(s: State, hash: nat, now: Time): Seen {
    var t := Expired(s, now);
    if t.suppressedEdits > 0 then Seen(t.(lastHash := hash, suppressedEdits := t.suppressedEdits - 1), false)
    else Seen(t.(lastHash := hash), hash != t.lastHash)
  }

  function Armed(s: State, hash: nat, now: Time): State {
    s.(lastHash := hash, suppressedEdits := s.suppressedEdits + 1, suppressedAt := now)
  }

  function Extra(s: State, now: Time): State {
    s.(suppressedEdits := s.suppressedEdits + 1, suppressedAt := now)
  }

  // wrote: the system clipboard was written, so change events will follow.
  datatype Write = Write(s: State, ok: bool, wrote: bool)

  /** Paste: on every error the state is as before the call. */
  function Pasted(s: State, hash: nat, kind: Kind, io: WriteIO, now: Time): Write {
    var armed := Armed(s, hash, now);
    var tripled := Extra(Extra(armed, now), now);
    match kind
    case TextKind => Write(if io.nativeOK then tripled else armed, true, true)
    case ImageKind => if !io.decodeOK then Write(s, false, false) else Write(if io.nativeOK then tripled else armed, true, true)
    case FileStubKind => Write(armed, true, false)
    case FileEagerKind => if io.decodeOK && io.storeOK then Write(armed, true, true) else Write(s, false, false)
    case OtherKind => Write(s, false, false)
  }

  function StagedText(s: State, hash: nat, io: WriteIO, now: Time): Write {
    var armed := Armed(s, hash, now);
    Write(if io.nativeOK then Extra(Extra(armed, now), now) else armed, true, true)
  }

  function StagedImage(s: State, hash: nat, io: WriteIO, now: Time): Write {
    if !io.decodeOK then Write(s, false, false) else Write(Extra(Extra(Armed(s, hash, now), now), now), true, true)
  }

  function StagedFiles(s: State, hash: nat, paths: seq<string>, io: WriteIO, now: Time): Write {
    if paths == [] then Write(s, true, false)
    else if !io.storeOK then Write(s, false, false)
    else Write(Extra(Extra(Armed(s, hash, now), now), now), true, true)
  }

  class Manager {
    var lastHash: nat
    var suppressedEdits: int
    var suppressedAt: Time

    constructor ()
      ensures Value() == State(0, 0, 0)
    {
      lastHash, suppressedEdits, suppressedAt := 0, 0, 0;
    }

    ghost function Value(): State
      reads this
    {
      State(lastHash, suppressedEdits, suppressedAt)
    }

    method HandleChange(hash: nat, now: Time) returns (emits: bool)
      modifies this
      ensures Seen(Value(), emits) == Changed(old(Value()), hash, now)
    {
      if suppressedEdits > 0 && suppressedAt != 0 && now - suppressedAt > FIVE_SECONDS {
        suppressedEdits := 0;
      }
      if suppressedEdits > 0 {
        lastHash := hash;
        suppressedEdits := suppressedEdits - 1;
        return false;
      }
      if hash == lastHash {
        return false;
      }
      lastHash := hash;
      return true;
    }

    method PrepareForLocalWrite(hash: nat, now: Time)
      modifies this
      ensures Value() == Armed(old(Value()), hash, now)
    {
      lastHash := hash;
      suppressedEdits := suppressedEdits + 1;
      suppressedAt := now;
    }

    method AddExtraSuppression(now: Time)
      modifies this
      ensures Value() == Extra(old(Value()), now)
    {
      suppressedEdits := suppressedEdits + 1;
      suppressedAt := now;
    }

    method Restore(state: State)
      modifies this
      ensures Value() == state
    {
      lastHash := state.lastHash;
      suppressedEdits := state.suppressedEdits;
      suppressedAt := state.suppressedAt;
    }

    method Snapshot() returns (state: State)
      ensures state == Value()
    {
      state := State(lastHash, suppressedEdits, suppressedAt);
    }

    method Paste(hash: nat, kind: Kind, io: WriteIO, now: Time) returns (ok: bool, wrote: bool)
      modifies this
      ensures Write(Value(), ok, wrote) == Pasted(old(Value()), hash, kind, io, now)
    {
      var previous := Snapshot();
      PrepareForLocalWrite(hash, now);
      match kind {
        case TextKind =>
          if io.nativeOK {
            AddExtraSuppression(now);
            AddExtraSuppression(now);
          }
          return true, true;
        case ImageKind =>
          if !io.decodeOK {
            Restore(previous);
            return false, false;
          }
          if io.nativeOK {
            AddExtraSuppression(now);
            AddExtraSuppression(now);
          }
          return true, true;
        case FileStubKind =>
          return true, false;
        case FileEagerKind =>
          if !io.decodeOK || !io.storeOK {
            Restore(previous);
            return false, false;
          }
          return true, true;
        case OtherKind =>
          Restore(previous);
          return false, false;
      }
    }

    method StageText(hash: nat, io: WriteIO, now: Time) returns (ok: bool, wrote: bool)
      modifies this
      ensures Write(Value(), ok, wrote) == StagedText(old(Value()), hash, io, now)
    {
      PrepareForLocalWrite(hash, now);
      if io.nativeOK {
        AddExtraSuppression(now);
        AddExtraSuppression(now);
      }
      return true, true;
    }

    method StageImageFile(hash: nat, io: WriteIO, now: Time) returns (ok: bool, wrote: bool)
      modifies this
      ensures Write(Value(), ok, wrote) == StagedImage(old(Value()), hash, io, now)
    {
      if !io.decodeOK {
        return false, false;
      }
      PrepareForLocalWrite(hash, now);
      AddExtraSuppression(now);
      AddExtraSuppression(now);
      return true, true;
    }

    method StageFilePaths(hash: nat, paths: seq<string>, io: WriteIO, now: Time) returns (ok: bool, wrote: bool)
      modifies this
      ensures Write(Value(), ok, wrote) == StagedFiles(old(Value()), hash, paths, io, now)
    {
      if |paths| == 0 {
        return true, false;
      }
      var previous := Snapshot();
      PrepareForLocalWrite(hash, now);
      AddExtraSuppression(now);
      AddExtraSuppression(now);
      if !io.storeOK {
        Restore(previous);
        return false, false;
      }
      return true, true;
    }
  }

  // A write of any of the four kinds.
  datatype Job = PasteJob(kind: Kind) | TextJob | ImageJob | FilesJob(paths: seq<string>)

  function Done(s: State, hash: nat, job: Job, io: WriteIO, now: Time): Write {
    match job
    case PasteJob(kind) => Pasted(s, hash, kind, io, now)
    case TextJob => StagedText(s, hash, io, now)
    case ImageJob => StagedImage(s, hash, io, now)
    case FilesJob(paths) => StagedFiles(s, hash, paths, io, now)
  }

  /** A write arms at least one suppression, stamped now; a call that fails leaves no trace. */
  lemma WritesArm(s: State, hash: nat, job: Job, io: WriteIO, now: Time)
    ensures var w := Done(s, hash, job, io, now);
            && (w.wrote ==> w.ok && w.s.suppressedEdits > s.suppressedEdits && w.s.suppressedAt == now && w.s.lastHash == hash)
            && (!w.ok ==> w.s == s)
            && w.s.suppressedEdits >= s.suppressedEdits
            && (w.s.suppressedAt == now || w.s == s)
  {
  }

  /** A suppression armed within the last five seconds is left. */
  predicate Covered(s: State, now: Time) {
    s.suppressedEdits > 0 && (s.suppressedAt == 0 || now - s.suppressedAt <= FIVE_SECONDS)
  }

  /** A capture is emitted exactly when it differs from the last one seen and no recent suppression is left. */
  lemma EmittedIff(s: State, hash: nat, now: Time)
    ensures var seen := Changed(s, hash, now);
            && (seen.emits <==> hash != s.lastHash && !Covered(s, now))
            && seen.s.lastHash == hash && seen.s.suppressedAt == s.suppressedAt
            && seen.s.suppressedEdits == (if Covered(s, now) then s.suppressedEdits - 1
                                          else if s.suppressedEdits > 0 then 0 else s.suppressedEdits)
  {
  }

  /** Three for what the native writers, an image file or a path list put on the clipboard; one otherwise. */
  function ArmCount(job: Job, io: WriteIO): nat {
    match job
    case ImageJob => 3
    case FilesJob(_) => 3
    case TextJob => if io.nativeOK then 3 else 1
    case PasteJob(kind) => if (kind == TextKind || kind == ImageKind) && io.nativeOK then 3 else 1
  }

  /** Which writes reach the clipboard at all. */
  predicate Reaches(job: Job, io: WriteIO) {
    match job
    case TextJob => true
    case ImageJob => io.decodeOK
    case FilesJob(paths) => paths != [] && io.storeOK
    case PasteJob(kind) =>
      kind == TextKind || (kind == ImageKind && io.decodeOK) || (kind == FileEagerKind && io.decodeOK && io.storeOK)
  }

  /** How many suppressions a call leaves behind: a file's stub arms one although it is not written. */
  function Arming(job: Job, io: WriteIO): nat {
    if Reaches(job, io) || job == PasteJob(FileStubKind) then ArmCount(job, io) else 0
  }

  lemma WriteArmsExactly(s: State, hash: nat, job: Job, io: WriteIO, now: Time)
    ensures var w := Done(s, hash, job, io, now);
            && w.wrote == Reaches(job, io)
            && w.ok == (Reaches(job, io) || job == PasteJob(FileStubKind) || job == FilesJob([]))
            && w.s == if Arming(job, io) > 0 then State(hash, s.suppressedEdits + Arming(job, io), now) else s
  {
  }

  /** The monitor after captures that follow each other at the same time. */
  function AfterCaptures(s: State, hashes: seq<nat>, now: Time): State {
    if hashes == [] then s else Changed(AfterCaptures(s, hashes[..|hashes| - 1], now), hashes[|hashes| - 1], now).s
  }

  lemma {:induction false} SwallowsWhatWasArmed(s: State, hashes: seq<nat>, now: Time)
    requires s.suppressedEdits >= |hashes| && (s.suppressedAt == 0 || now - s.suppressedAt <= FIVE_SECONDS)
    ensures var t := AfterCaptures(s, hashes, now);
            && t.suppressedEdits == s.suppressedEdits - |hashes| && t.suppressedAt == s.suppressedAt
            && (hashes != [] ==> t.lastHash == hashes[|hashes| - 1])
    ensures forall k :: 0 <= k < |hashes| ==> !Changed(AfterCaptures(s, hashes[..k], now), hashes[k], now).emits
  {
    if hashes != [] {
      var front := hashes[..|hashes| - 1];
      SwallowsWhatWasArmed(s, front, now);
      forall k | 0 <= k < |hashes|
        ensures !Changed(AfterCaptures(s, hashes[..k], now), hashes[k], now).emits
      {
        if k < |front| {
          assert front[..k] == hashes[..k];
        } else {
          assert front == hashes[..k];
        }
      }
    }
  }

  /**
   * A write that reaches the clipboard of a quiet monitor swallows exactly as many captures as it should,
   * of whatever content, and the next differing one is emitted; five seconds later none is swallowed.
   */
  lemma WriteSwallowsExactly(s: State, hash: nat, job: Job, io: WriteIO, now: Time, hashes: seq<nat>, soon: Time, next: nat, late: Time)
    requires s.suppressedEdits == 0 && Reaches(job, io) && now > 0
    requires |hashes| == ArmCount(job, io) && now <= soon && soon - now <= FIVE_SECONDS && late > now && late - now > FIVE_SECONDS
    ensures var w := Done(s, hash, job, io, now);
            && w.wrote && w.ok
            && (forall k :: 0 <= k < |hashes| ==> !Changed(AfterCaptures(w.s, hashes[..k], soon), hashes[k], soon).emits)
            && (Changed(AfterCaptures(w.s, hashes, soon), next, soon).emits <==> next != hashes[|hashes| - 1])
            && (Changed(w.s, next, late).emits <==> next != hash)
  {
    hide AfterCaptures;
    SwallowsWhatWasArmed(Done(s, hash, job, io, now).s, hashes, soon);
  }
}

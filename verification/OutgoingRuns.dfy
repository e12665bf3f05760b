/**
 * Any number of request handlers, timers and releases interleaved over one outgoing transfer. Each
 * step is one critical section of the source.
 */
module OutgoingRuns {
  import opened Wrappers
  import opened Archive
  import opened OutgoingArchive

  // Where the handler of one accepted file_request stands.
  datatype Phase =
    | Claimed(resume: int)
    | Ready(from: int)
    | Streaming(archive: string, from: int)
    | Announced(archive: string, message: FileComplete)
    | Failed
    | Armed
    | Gone

  datatype Send = Send(target: string, phase: Phase)

  // timers: the generation each armed timer remembers; doomed: directories still to be removed.
  datatype Sys = Sys(t: Outgoing, sends: seq<Send>, timers: seq<nat>, doomed: set<string>)

  datatype Event =
    | Ask(target: string, resume: int)
    | Prepare(i: nat, env: Env)
    | Open(i: nat)
    | Finish(i: nat, delivered: bool)
    | Schedule(i: nat)
    | Leave(i: nat)
    | Release
    | Fire(k: nat)
    | Remove(dir: string)

  const START := Sys(Outgoing(Unset, "", "", "", NO_SHA, 0, 0, None, 0, {}, map[]), [], [], {})

  predicate Active(p: Phase) {
    !p.Gone?
  }

  function Moved(s: Sys, i: nat, p: Phase): Sys
    requires i < |s.sends|
  {
    s.(sends := s.sends[i := s.sends[i].(phase := p)])
  }

  function Doomed(s: Sys, dir: string): set<string> {
    if dir == "" then s.doomed else s.doomed + {dir}
  }

  function Asked(s: Sys, target: string, resume: int): Sys {
    if target in s.t.sending then s
    else s.(t := s.t.(sending := s.t.sending + {target}), sends := s.sends + [Send(target, Claimed(resume))])
  }

  function PrepareStep(s: Sys, i: nat, env: Env): Sys
    requires i < |s.sends|
  {
    match s.sends[i].phase
    case Claimed(resume) =>
      var (u, ok) := Prepared(s.t, env);
      Moved(s.(t := u), i, if ok then Ready(if Reusable(s.t) then resume else 0) else Failed)
    case _ => s
  }

  function OpenStep(s: Sys, i: nat): Sys
    requires i < |s.sends|
  {
    match s.sends[i].phase
    case Ready(from) =>
      Moved(s, i, if Readable(s.t).Some? then Streaming(Readable(s.t).value, from) else Failed)
    case _ => s
  }

  /** The chunks went out, or the transport failed; the completion reads the fields as they are now. */
  function FinishStep(s: Sys, i: nat, delivered: bool): Sys
    requires i < |s.sends|
  {
    match s.sends[i].phase
    case Streaming(archive, _) => Moved(s, i, if delivered then Announced(archive, Completion(s.t)) else Failed)
    case _ => s
  }

  function ScheduleStep(s: Sys, i: nat): Sys
    requires i < |s.sends|
  {
    if s.sends[i].phase.Announced? then
      Moved(s.(t := Scheduled(s.t), timers := s.timers + [s.t.gen + 1]), i, Armed)
    else s
  }

  function LeaveStep(s: Sys, i: nat): Sys
    requires i < |s.sends|
  {
    if s.sends[i].phase.Failed? || s.sends[i].phase.Armed? then
      Moved(s.(t := s.t.(sending := s.t.sending - {s.sends[i].target})), i, Gone)
    else s
  }

  function ReleaseStep(s: Sys): Sys {
    s.(t := Released(s.t), doomed := if s.t.sending == {} then Doomed(s, s.t.baseDir) else s.doomed)
  }

  predicate Clears(s: Sys, k: nat) {
    k < |s.timers| && s.timers[k] == s.t.gen
  }

  function FireStep(s: Sys, k: nat): Sys {
    if k < |s.timers| then
      s.(t := Fired(s.t, s.timers[k]), doomed := if Clears(s, k) then Doomed(s, s.t.baseDir) else s.doomed)
    else s
  }

  function RemoveStep(s: Sys, dir: string): Sys {
    if dir in s.doomed then s.(t := s.t.(temp := s.t.temp - {dir}), doomed := s.doomed - {dir}) else s
  }

  function Step(s: Sys, e: Event): Sys {
    match e
    case Ask(target, resume) => Asked(s, target, resume)
    case Prepare(i, env) => if i < |s.sends| then PrepareStep(s, i, env) else s
    case Open(i) => if i < |s.sends| then OpenStep(s, i) else s
    case Finish(i, delivered) => if i < |s.sends| then FinishStep(s, i, delivered) else s
    case Schedule(i) => if i < |s.sends| then ScheduleStep(s, i) else s
    case Leave(i) => if i < |s.sends| then LeaveStep(s, i) else s
    case Release => ReleaseStep(s)
    case Fire(k) => FireStep(s, k)
    case Remove(dir) => RemoveStep(s, dir)
  }

  /** A new temporary directory did not exist before. */
  predicate Lawful(s: Sys, e: Event) {
    e.Prepare? ==> e.env.tempDir !in s.t.temp
  }

  predicate LawfulRun(s: Sys, events: seq<Event>)
    decreases |events|
  {
    events == [] || (Lawful(s, events[0]) && LawfulRun(Step(s, events[0]), events[1..]))
  }

  function After(s: Sys, events: seq<Event>): Sys
    decreases |events|
  {
    if events == [] then s else After(Step(s, events[0]), events[1..])
  }

  // ----- Every reachable state -----

  predicate OneSendPerTarget(s: Sys) {
    forall i, j :: 0 <= i < j < |s.sends| && Active(s.sends[i].phase) && Active(s.sends[j].phase) ==>
      s.sends[i].target != s.sends[j].target
  }

  predicate ClaimsAreListed(s: Sys) {
    forall i :: 0 <= i < |s.sends| && Active(s.sends[i].phase) ==> s.sends[i].target in s.t.sending
  }

  ghost predicate ListedAreClaimed(s: Sys) {
    forall x :: x in s.t.sending ==> exists i :: 0 <= i < |s.sends| && Active(s.sends[i].phase) && s.sends[i].target == x
  }

  /** The directory in use exists and nobody is about to remove it. */
  predicate DirsSound(s: Sys) {
    && (s.t.baseDir != "" ==> s.t.baseDir in s.t.temp && s.t.baseDir !in s.doomed)
    && s.doomed <= s.t.temp.Keys
  }

  predicate TimersSound(s: Sys) {
    && (forall k :: 0 <= k < |s.timers| ==> s.timers[k] <= s.t.gen)
    && (s.t.timer.Some? ==> s.timers != [] && s.timers[|s.timers| - 1] == s.t.timer.value == s.t.gen)
  }

  ghost predicate Sound(s: Sys) {
    Describes(s.t) && DirsSound(s) && TimersSound(s) && OneSendPerTarget(s) && ClaimsAreListed(s) && ListedAreClaimed(s)
  }

  lemma OnDiskKeepsDirs(t: Outgoing, env: Env, doomed: set<string>)
    requires t.baseDir != "" ==> t.baseDir in t.temp && t.baseDir !in doomed
    requires doomed <= t.temp.Keys && env.tempDir !in t.temp
    ensures var u := OnDisk(t, env).0;
            && (u.baseDir != "" ==> u.baseDir in u.temp && u.baseDir !in doomed)
            && t.temp.Keys <= u.temp.Keys
  {
  }

  lemma PrepareKeepsDirs(s: Sys, i: nat, env: Env)
    requires DirsSound(s) && i < |s.sends| && env.tempDir !in s.t.temp
    ensures DirsSound(PrepareStep(s, i, env))
  {
    OnDiskKeepsDirs(s.t.(timer := None, gen := s.t.gen + 1), env, s.doomed);
  }

  lemma StepKeepsDirs(s: Sys, e: Event)
    requires DirsSound(s) && Lawful(s, e)
    ensures DirsSound(Step(s, e))
  {
    if e.Prepare? && e.i < |s.sends| {
      PrepareKeepsDirs(s, e.i, e.env);
    }
  }

  lemma PreparedTimers(t: Outgoing, env: Env)
    ensures Prepared(t, env).0.gen == t.gen + 1 && Prepared(t, env).0.timer == None
    ensures Prepared(t, env).0.sending == t.sending
  {
  }

  lemma StepKeepsTimers(s: Sys, e: Event)
    requires TimersSound(s)
    ensures TimersSound(Step(s, e))
  {
    hide Prepared;
    if e.Prepare? {
      PreparedTimers(s.t, e.env);
    }
  }

  lemma StepKeepsDescription(s: Sys, e: Event)
    requires Describes(s.t) && DirsSound(s)
    ensures Describes(Step(s, e).t)
  {
    hide Prepared;
    if e.Prepare? {
      PreparedDescribes(s.t, e.env);
    }
  }

  lemma StepKeepsClaims(s: Sys, e: Event)
    requires OneSendPerTarget(s) && ClaimsAreListed(s)
    ensures OneSendPerTarget(Step(s, e)) && ClaimsAreListed(Step(s, e))
  {
    hide Prepared;
    if e.Prepare? {
      PreparedTimers(s.t, e.env);
    }
  }

  lemma StepKeepsListed(s: Sys, e: Event)
    requires OneSendPerTarget(s) && ListedAreClaimed(s)
    ensures ListedAreClaimed(Step(s, e))
  {
    hide Prepared;
    if e.Prepare? {
      PreparedTimers(s.t, e.env);
    }
    var s' := Step(s, e);
    forall x | x in s'.t.sending
      ensures exists i :: 0 <= i < |s'.sends| && Active(s'.sends[i].phase) && s'.sends[i].target == x
    {
      if x in s.t.sending {
        var i :| 0 <= i < |s.sends| && Active(s.sends[i].phase) && s.sends[i].target == x;
        assert s'.sends[i].target == x && Active(s'.sends[i].phase);
      } else {
        assert s'.sends[|s.sends|].target == x;
      }
    }
  }

  /** Main result: every run keeps the description, the timers, the directories and the claims sound. */
  lemma {:induction false} RunsAreSound(s: Sys, events: seq<Event>)
    requires Sound(s) && LawfulRun(s, events)
    ensures Sound(After(s, events))
    decreases |events|
  {
    hide Step, Describes, DirsSound, TimersSound, OneSendPerTarget, ClaimsAreListed, ListedAreClaimed, Lawful;
    if events != [] {
      StepKeepsDirs(s, events[0]);
      StepKeepsTimers(s, events[0]);
      StepKeepsDescription(s, events[0]);
      StepKeepsClaims(s, events[0]);
      StepKeepsListed(s, events[0]);
      RunsAreSound(Step(s, events[0]), events[1..]);
    }
  }

  lemma StartIsSound()
    ensures Sound(START)
  {
  }

  // ----- Releases and timers -----

  /** A release clears the archive exactly when no handler is between its claim and its end. */
  lemma ReleaseClearsIff(s: Sys)
    requires Sound(s)
    ensures (exists i :: 0 <= i < |s.sends| && Active(s.sends[i].phase)) ==> Step(s, Release) == s
    ensures (forall i :: 0 <= i < |s.sends| ==> !Active(s.sends[i].phase)) ==>
              Step(s, Release).t == Cleared(s.t).(gen := s.t.gen + 1)
  {
    if forall i :: 0 <= i < |s.sends| ==> !Active(s.sends[i].phase) {
      assert s.t.sending == {} by {
        if x :| x in s.t.sending {
          assert false;
        }
      }
    }
  }

  /** The steps that count up the generation: a preparation, an effective release, a newer timer. */
  predicate Bumps(s: Sys, e: Event) {
    match e
    case Prepare(i, _) => i < |s.sends| && s.sends[i].phase.Claimed?
    case Release => s.t.sending == {}
    case Schedule(i) => i < |s.sends| && s.sends[i].phase.Announced?
    case _ => false
  }

  predicate Quiet(s: Sys, events: seq<Event>)
    decreases |events|
  {
    events == [] || (!Bumps(s, events[0]) && Quiet(Step(s, events[0]), events[1..]))
  }

  lemma StepCounts(s: Sys, e: Event)
    ensures Step(s, e).t.gen == s.t.gen + if Bumps(s, e) then 1 else 0
    ensures s.timers <= Step(s, e).timers
  {
    hide Prepared;
    if e.Prepare? {
      PreparedTimers(s.t, e.env);
    }
  }

  lemma {:induction false} GenerationCounts(s: Sys, events: seq<Event>)
    ensures After(s, events).t.gen >= s.t.gen && s.timers <= After(s, events).timers
    ensures After(s, events).t.gen == s.t.gen <==> Quiet(s, events)
    decreases |events|
  {
    hide Step, Bumps;
    if events != [] {
      StepCounts(s, events[0]);
      GenerationCounts(Step(s, events[0]), events[1..]);
    }
  }

  /**
   * Main result: a timer that fires any time later clears the archive exactly when no preparation,
   * effective release or newer timer happened since it was armed.
   */
  lemma TimerClearsIff(s: Sys, i: nat, later: seq<Event>)
    requires i < |s.sends| && s.sends[i].phase.Announced?
    ensures var armed := Step(s, Schedule(i));
            var now := After(armed, later);
            && (Quiet(armed, later) ==> Step(now, Fire(|s.timers|)).t == Cleared(now.t))
            && (!Quiet(armed, later) ==> Step(now, Fire(|s.timers|)) == now)
  {
    var armed := Step(s, Schedule(i));
    GenerationCounts(armed, later);
    var now := After(armed, later);
    assert now.timers[|s.timers|] == armed.timers[|s.timers|] == armed.t.gen;
  }

  // ----- No directory is left behind, but for one case -----

  /** A directory an unfinished build on disk left to the transfer is forgotten when the next build fits in memory. */
  function LostBy(s: Sys, e: Event): set<string> {
    if e.Prepare? && e.i < |s.sends| && s.sends[e.i].phase.Claimed? && !Reusable(s.t) && BuildsInMemory(e.env) && s.t.baseDir != ""
    then {s.t.baseDir} else {}
  }

  function Lost(s: Sys, events: seq<Event>): set<string>
    decreases |events|
  {
    if events == [] then {} else LostBy(s, events[0]) + Lost(Step(s, events[0]), events[1..])
  }

  function InUse(t: Outgoing): set<string> {
    if t.baseDir == "" then {} else {t.baseDir}
  }

  /** Every directory there is is in use, about to be removed, or one of the lost ones; and only one of these. */
  predicate Accounted(s: Sys, lost: set<string>) {
    && s.t.temp.Keys == InUse(s.t) + s.doomed + lost
    && s.t.baseDir !in s.doomed + lost && s.doomed !! lost && "" !in s.doomed + lost
  }

  lemma PrepareAccounts(s: Sys, i: nat, env: Env, lost: set<string>)
    requires Accounted(s, lost) && i < |s.sends| && env.tempDir !in s.t.temp
    ensures Accounted(PrepareStep(s, i, env), lost + LostBy(s, Prepare(i, env)))
  {
    hide Prepared;
    PreparedIff(s.t, env);
  }

  lemma StepAccounts(s: Sys, e: Event, lost: set<string>)
    requires Accounted(s, lost) && Lawful(s, e)
    ensures Accounted(Step(s, e), lost + LostBy(s, e))
  {
    hide PrepareStep, Reusable;
    if e.Prepare? && e.i < |s.sends| {
      PrepareAccounts(s, e.i, e.env, lost);
    }
  }

  /**
   * Main result: at any point of any interleaving the temporary directories that exist are exactly the
   * one in use, those a timer or release is about to remove, and those a build in memory has forgotten.
   */
  lemma {:induction false} DirectoriesAreAccounted(s: Sys, events: seq<Event>, lost: set<string>)
    requires Accounted(s, lost) && LawfulRun(s, events)
    ensures Accounted(After(s, events), lost + Lost(s, events))
    decreases |events|
  {
    hide Step, Accounted, LostBy, Lawful;
    if events != [] {
      StepAccounts(s, events[0], lost);
      DirectoriesAreAccounted(Step(s, events[0]), events[1..], lost + LostBy(s, events[0]));
      assert lost + LostBy(s, events[0]) + Lost(Step(s, events[0]), events[1..]) == lost + Lost(s, events);
    } else {
      assert lost + Lost(s, events) == lost;
    }
  }

  lemma StartIsAccounted()
    ensures Accounted(START, {})
  {
  }

  /** It happens: the disk is full for the first request, and a peer is ready for the second. */
  lemma ADirectoryIsForgotten(content: string) returns (events: seq<Event>)
    ensures LawfulRun(START, events) && Lost(START, events) == {"d"}
    ensures var s := After(START, events);
            "d" in s.t.temp && "d" !in s.doomed && s.t.baseDir == ""
  {
    hide After, LawfulRun, Lost;
    var full := Env(0, 0, |content|, None, content, "d", BuildFails(None));
    var memory := Env(1, 0, |content|, Some(content), content, "e", NoFault);
    events := [Ask("a", 0), Prepare(0, full), Ask("b", 0), Prepare(1, memory)];
    var s1 := Step(START, events[0]);
    var s2 := Step(s1, events[1]);
    var s3 := Step(s2, events[2]);
    var s4 := Step(s3, events[3]);
    assert events[1..][1..] == events[2..] && events[2..][1..] == events[3..] && events[3..][1..] == [];
    Unroll(START, events, s1);
    Unroll(s1, events[1..], s2);
    Unroll(s2, events[2..], s3);
    Unroll(s3, events[3..], s4);
    assert LostBy(s3, events[3]) == {"d"};
    LostUnroll(START, events, s1);
    LostUnroll(s1, events[1..], s2);
    LostUnroll(s2, events[2..], s3);
    LostUnroll(s3, events[3..], s4);
  }

  lemma LostUnroll(s: Sys, events: seq<Event>, next: Sys)
    requires events != [] && next == Step(s, events[0])
    ensures Lost(s, events) == LostBy(s, events[0]) + Lost(next, events[1..])
    ensures events[1..] == [] ==> Lost(s, events) == LostBy(s, events[0])
  {
    hide Step, LostBy;
  }

  /** A directory that was given up can be removed, and no other one. */
  lemma RemovesTheDoomed(s: Sys, dir: string)
    ensures var s' := Step(s, Remove(dir));
            && (dir in s.doomed ==> dir !in s'.t.temp && s'.doomed == s.doomed - {dir})
            && (dir !in s.doomed ==> s' == s)
            && forall d :: d != dir ==> (d in s'.t.temp <==> d in s.t.temp) && (d in s.t.temp ==> s'.t.temp[d] == s.t.temp[d])
  {
  }

  // ----- What a completion names -----

  predicate BuildsAnew(s: Sys, e: Event) {
    e.Prepare? && e.i < |s.sends| && s.sends[e.i].phase.Claimed? && !Reusable(s.t)
  }

  // What one step, or the last step that did anything, did to the archive held.
  datatype Change = Unchanged | Emptied | Built(content: string)

  /** The bytes a successful build yields. */
  function BuildResult(env: Env): string {
    if BuildsInMemory(env) then env.memoryBuild.value else env.diskBuild
  }

  function ChangeOf(s: Sys, e: Event): Change {
    if e.Fire? && Clears(s, e.k) then Emptied
    else if BuildsAnew(s, e) && Prepared(s.t, e.env).1 then Built(BuildResult(e.env))
    else Unchanged
  }

  function LastChange(s: Sys, events: seq<Event>): Change
    decreases |events|
  {
    if events == [] then Unchanged
    else
      var later := LastChange(Step(s, events[0]), events[1..]);
      if later.Unchanged? then ChangeOf(s, events[0]) else later
  }

  /** Handler i is streaming the archive that the transfer holds. */
  predicate Holds(s: Sys, i: nat, archive: string) {
    && i < |s.sends| && s.sends[i].phase.Streaming? && s.sends[i].phase.archive == archive
    && Readable(s.t) == Some(archive) && s.t.sha == Sha256(archive) && s.t.size == |archive|
  }

  lemma OpeningHolds(s: Sys, i: nat)
    requires Sound(s) && i < |s.sends| && s.sends[i].phase.Ready? && Reusable(s.t)
    ensures Holds(Step(s, Open(i)), i, Readable(s.t).value)
  {
  }

  predicate Mine(e: Event, i: nat) {
    (e.Finish? || e.Open? || e.Prepare? || e.Schedule? || e.Leave?) && e.i == i
  }

  lemma PreparedSha(t: Outgoing, env: Env)
    ensures var (u, ok) := Prepared(t, env);
            u.sha == if ok && !Reusable(t) then Sha256(BuildResult(env)) else t.sha
  {
  }

  function ShaAfter(sha: Digest, change: Change): Digest {
    match change
    case Unchanged => sha
    case Emptied => NO_SHA
    case Built(content) => Sha256(content)
  }

  /** While handler i is active, the other steps leave it alone and change the hash as ChangeOf says. */
  lemma StepChanges(s: Sys, e: Event, i: nat)
    requires Sound(s) && i < |s.sends| && Active(s.sends[i].phase) && !Mine(e, i)
    ensures var s' := Step(s, e);
            && i < |s'.sends| && s'.sends[i] == s.sends[i]
            && s'.t.sha == ShaAfter(s.t.sha, ChangeOf(s, e))
  {
    hide Prepared;
    assert s.sends[i].target in s.t.sending;
    if e.Prepare? {
      PreparedSha(s.t, e.env);
    }
  }

  lemma {:induction false} RunChanges(s: Sys, i: nat, events: seq<Event>)
    requires Sound(s) && LawfulRun(s, events) && i < |s.sends| && Active(s.sends[i].phase)
    requires forall j :: 0 <= j < |events| ==> !Mine(events[j], i)
    ensures var s' := After(s, events);
            && Sound(s')
            && i < |s'.sends| && s'.sends[i] == s.sends[i]
            && s'.t.sha == ShaAfter(s.t.sha, LastChange(s, events))
    decreases |events|
  {
    hide Step, Sound, Clears, Mine, Lawful, BuildsAnew, ChangeOf, Active;
    if events != [] {
      assert events == [events[0]] + events[1..];
      RunsAreSound(s, [events[0]]);
      assert After(s, [events[0]]) == Step(s, events[0]);
      StepChanges(s, events[0], i);
      RunChanges(Step(s, events[0]), i, events[1..]);
    }
  }

  /**
   * Main result: whatever else happens while handler i streams, its completion names the bytes it
   * streamed exactly when the last step that cleared or built the archive meanwhile, if there was one,
   * built those very bytes. After a timer that cleared last it names nothing.
   */
  lemma CompletionNamesIff(s: Sys, i: nat, archive: string, during: seq<Event>)
    requires Sound(s) && LawfulRun(s, during) && Holds(s, i, archive)
    requires forall j :: 0 <= j < |during| ==> !Mine(during[j], i)
    ensures var now := After(s, during);
            var change := LastChange(s, during);
            && i < |now.sends| && now.sends[i].phase.Streaming?
            && var done := Step(now, Finish(i, true)).sends[i].phase;
            && done.Announced? && done.archive == archive
            && ((done.message.sha == Sha256(archive) && done.message.totalBytes == |archive|)
                <==> change.Unchanged? || change == Built(archive))
            && (change.Emptied? ==> done.message.sha == NO_SHA && done.message.totalBytes == 0)
  {
    hide LawfulRun, After, LastChange, DirsSound, TimersSound, OneSendPerTarget, ClaimsAreListed, ListedAreClaimed;
    RunChanges(s, i, during);
  }

  /**
   * The timer does not look at the targets being served: whenever another handler has announced its
   * completion, its timer may empty the completion of a handler that is still streaming.
   */
  lemma AnotherTargetsTimerCutsASend(s: Sys, i: nat, archive: string, j: nat)
    requires Sound(s) && Holds(s, i, archive) && j < |s.sends| && s.sends[j].phase.Announced?
    ensures var end := After(s, [Schedule(j), Fire(|s.timers|), Finish(i, true)]);
            |end.sends| == |s.sends| && end.sends[i].phase == Announced(archive, FileComplete(Disk, NO_SHA, 0))
  {
    hide Prepared, Sound, After;
    var s1 := Step(s, Schedule(j));
    var s2 := Step(s1, Fire(|s.timers|));
    assert Clears(s1, |s.timers|);
    var s3 := Step(s2, Finish(i, true));
    Unroll(s, [Schedule(j), Fire(|s.timers|), Finish(i, true)], s1);
    Unroll(s1, [Fire(|s.timers|), Finish(i, true)], s2);
    Unroll(s2, [Finish(i, true)], s3);
  }

  /** Such a state is reached by two targets that ask for the same nonempty archive. */
  lemma SuchASendExists(archive: string)
    requires archive != ""
    ensures exists events, s :: LawfulRun(START, events) && s == After(START, events) && Holds(s, 0, archive)
                                && |s.sends| == 2 && s.sends[1].phase.Announced?
  {
    hide After, LawfulRun;
    var env := Env(1, 0, |archive|, Some(archive), "", "d", NoFault);
    var s1 := Step(START, Ask("a", 0));
    var s2 := Step(s1, Prepare(0, env));
    var s3 := Step(s2, Open(0));
    assert Holds(s3, 0, archive);
    SecondTargetJoins(s3, archive, env);
    var joins := Joins(env);
    var events := [Ask("a", 0), Prepare(0, env), Open(0)] + joins;
    Unroll(START, events, s1);
    Unroll(s1, events[1..], s2);
    Unroll(s2, events[2..], s3);
    assert events[1..][1..] == events[2..] && events[2..][1..] == joins;
    assert Holds(After(START, events), 0, archive);
  }

  function Joins(env: Env): seq<Event> {
    [Ask("b", 0), Prepare(1, env), Open(1), Finish(1, true)]
  }

  lemma SecondTargetJoins(s: Sys, archive: string, env: Env)
    requires Holds(s, 0, archive) && |s.sends| == 1 && archive != "" && s.t.bytes == archive
    requires s.t.sending == {"a"} && env.tempDir !in s.t.temp
    ensures var end := After(s, Joins(env));
            LawfulRun(s, Joins(env)) && Holds(end, 0, archive) && |end.sends| == 2 && end.sends[1].phase.Announced?
  {
    hide After, LawfulRun;
    var s4 := Step(s, Ask("b", 0));
    var s5 := Step(s4, Prepare(1, env));
    var s6 := Step(s5, Open(1));
    var s7 := Step(s6, Finish(1, true));
    var events := Joins(env);
    Unroll(s, events, s4);
    Unroll(s4, events[1..], s5);
    Unroll(s5, events[2..], s6);
    Unroll(s6, events[3..], s7);
    assert events[1..][1..] == events[2..] && events[2..][1..] == events[3..] && events[3..][1..] == [];
  }

  lemma Unroll(s: Sys, events: seq<Event>, next: Sys)
    requires events != [] && Lawful(s, events[0]) && next == Step(s, events[0])
    ensures After(s, events) == After(next, events[1..])
    ensures LawfulRun(next, events[1..]) ==> LawfulRun(s, events)
    ensures events[1..] == [] ==> After(s, events) == next && LawfulRun(s, events)
  {
    hide Step, Lawful;
  }

  // ----- One handler alone -----

  /** A handler's own steps in the order it takes them. */
  function AloneFrom(i: nat, target: string, resume: int, env: Env, delivered: bool): seq<Event> {
    [Ask(target, resume), Prepare(i, env), Open(i), Finish(i, delivered), Schedule(i), Leave(i)]
  }

  predicate Announces(s: Sys, i: nat, message: FileComplete) {
    i < |s.sends| && s.sends[i].phase.Announced? && s.sends[i].phase.message == message
  }

  /**
   * A request that nobody disturbs takes the steps of the runs above: the same archive is held at the end,
   * the reply is what the handler announced, and its timer is armed exactly when it announced anything.
   */
  lemma ExchangeIsARun(s: Sys, target: string, resume: int, e2ee: bool, id: string, env: Env, accepts: nat,
                       after: Outgoing, sent: seq<FileChunk>, reply: Reply)
    requires Describes(s.t) && target !in s.t.sending
    requires Exchange(s.t.(sending := s.t.sending + {target}), after, resume, e2ee, id, env, accepts, sent, reply)
    ensures var i := |s.sends|;
            var events := AloneFrom(i, target, resume, env, reply.Completed?);
            var end := After(s, events);
            && end.t == after.(sending := s.t.sending) && end.sends == s.sends + [Send(target, Gone)]
            && end.timers == (if reply.Completed? then s.timers + [end.t.gen] else s.timers)
            && (reply.Completed? ==>
                  && end.t.timer == Some(end.t.gen)
                  && Announces(After(s, events[..4]), i, reply.message))
  {
    hide After, LawfulRun, Prepared, Step, Exchange, Reusable, Describes;
    var i, busy := |s.sends|, s.t.(sending := s.t.sending + {target});
    ExchangeEnds(s.t, target, after, resume, e2ee, id, env, accepts, sent, reply);
    var events := AloneFrom(i, target, resume, env, reply.Completed?);
    var s1 := Step(s, events[0]);
    var s2 := Step(s1, events[1]);
    var s3 := Step(s2, events[2]);
    var s4 := Step(s3, events[3]);
    var s5 := Step(s4, events[4]);
    var s6 := Step(s5, events[5]);
    AloneStarts(s, target, resume, env);
    AloneEnds(s2, i, reply.Completed?);
    UnrollSix(s, events);
  }

  lemma ExchangeEnds(t: Outgoing, target: string, after: Outgoing, resume: int, e2ee: bool, id: string, env: Env,
                     accepts: nat, sent: seq<FileChunk>, reply: Reply)
    requires Describes(t)
    requires Exchange(t.(sending := t.sending + {target}), after, resume, e2ee, id, env, accepts, sent, reply)
    ensures var (u, ok) := Prepared(t.(sending := t.sending + {target}), env);
            && after == (if reply.Completed? then Scheduled(u) else u)
            && (reply.Completed? ==> ok && Reusable(u) && reply.message == Completion(u))
  {
    hide Prepared, Readable;
    PreparedDescribes(t.(sending := t.sending + {target}), env);
  }

  lemma AloneStarts(s: Sys, target: string, resume: int, env: Env)
    requires target !in s.t.sending
    ensures var i, busy := |s.sends|, s.t.(sending := s.t.sending + {target});
            var s2 := Step(Step(s, Ask(target, resume)), Prepare(i, env));
            && s2.t == Prepared(busy, env).0 && s2.timers == s.timers && s2.t.sending == busy.sending
            && s2.sends == s.sends + [Send(target, if Prepared(busy, env).1 then Ready(if Reusable(busy) then resume else 0) else Failed)]
  {
    hide Prepared, Reusable;
    PreparedTimers(s.t.(sending := s.t.sending + {target}), env);
  }

  lemma AloneEnds(s: Sys, i: nat, delivered: bool)
    requires i == |s.sends| - 1 && (s.sends[i].phase.Ready? || s.sends[i].phase.Failed?)
    ensures var s4 := Step(Step(s, Open(i)), Finish(i, delivered));
            var s6 := Step(Step(s4, Schedule(i)), Leave(i));
            var through := s.sends[i].phase.Ready? && Reusable(s.t) && delivered;
            && s6.sends == s.sends[..i] + [Send(s.sends[i].target, Gone)]
            && s6.t == (if through then Scheduled(s.t) else s.t).(sending := s.t.sending - {s.sends[i].target})
            && s6.timers == s.timers + (if through then [s.t.gen + 1] else [])
            && (through ==> Announces(s4, i, Completion(s.t)) && s4.sends[i].phase.archive == Readable(s.t).value)
  {
  }

  lemma UnrollSix(s: Sys, e: seq<Event>)
    requires |e| == 6
    ensures var s4 := Step(Step(Step(Step(s, e[0]), e[1]), e[2]), e[3]);
            After(s, e[..4]) == s4 && After(s, e) == Step(Step(s4, e[4]), e[5])
  {
    hide Step, After;
    var s1, s2 := Step(s, e[0]), Step(Step(s, e[0]), e[1]);
    var s3 := Step(s2, e[2]);
    UnrollTwo(s, e[..4], s1, s2);
    UnrollTwo(s2, e[2..4], s3, Step(s3, e[3]));
    UnrollTwo(s, e, s1, s2);
    UnrollTwo(s2, e[2..], s3, Step(s3, e[3]));
    UnrollTwo(Step(s3, e[3]), e[4..], Step(Step(s3, e[3]), e[4]), Step(Step(Step(s3, e[3]), e[4]), e[5]));
    assert e[..4][2..] == e[2..4] && e[2..4][2..] == [] && e[2..][2..] == e[4..] && e[4..][2..] == [];
  }

  lemma UnrollTwo(s: Sys, e: seq<Event>, s1: Sys, s2: Sys)
    requires |e| >= 2 && s1 == Step(s, e[0]) && s2 == Step(s1, e[1])
    ensures After(s, e) == After(s2, e[2..]) && (|e| == 2 ==> After(s, e) == s2)
  {
    hide Step;
    assert e[1..][1..] == e[2..];
  }

  // ----- Three runs worth knowing -----

  /** An empty file archived in memory is prepared, and then cannot be opened. */
  lemma EmptyFileInMemoryCannotBeSent(target: string, diskBuild: string)
    ensures var env := Env(1, 0, 0, Some(""), diskBuild, "d", NoFault);
            var prepared := After(START, [Ask(target, 0), Prepare(0, env)]);
            && prepared.sends == [Send(target, Ready(0))] && prepared.t.sha == Sha256("")
            && Step(prepared, Open(0)).sends == [Send(target, Failed)]
  {
    var env := Env(1, 0, 0, Some(""), diskBuild, "d", NoFault);
    var s1 := Step(START, Ask(target, 0));
    var s2 := Step(s1, Prepare(0, env));
    Unroll(START, [Ask(target, 0), Prepare(0, env)], s1);
    Unroll(s1, [Prepare(0, env)], s2);
  }

  function MemoryEnv(content: string, dir: string): Env {
    Env(1, 0, |content|, Some(content), "", dir, NoFault)
  }

  /** Target a is sent a part of one archive; then the archive is released. */
  function FirstSend(first: string): seq<Event> {
    [Ask("a", 0), Prepare(0, MemoryEnv(first, "d")), Open(0), Finish(0, false), Leave(0), Release]
  }

  /** Target b has another archive built; target a resumes at chunk k. */
  function SecondSend(second: string, k: int): seq<Event> {
    [Ask("b", 0), Prepare(1, MemoryEnv(second, "e")), Ask("a", k), Prepare(2, MemoryEnv(second, "e")), Open(2)]
  }

  lemma FirstSendEnds(first: string)
    requires first != ""
    ensures var s := After(START, FirstSend(first));
            && LawfulRun(START, FirstSend(first))
            && s.sends == [Send("a", Gone)] && s.t.sending == {} && s.t.bytes == "" && s.t.archiveDir == "" && s.t.temp == map[]
  {
    hide After, LawfulRun;
    var events, env := FirstSend(first), MemoryEnv(first, "d");
    var s1 := Step(START, Ask("a", 0));
    var s2 := Step(s1, Prepare(0, env));
    var s3 := Step(s2, Open(0));
    var s4 := Step(s3, Finish(0, false));
    var s5 := Step(s4, Leave(0));
    var s6 := Step(s5, Release);
    Unroll(START, events, s1);
    Unroll(s1, events[1..], s2);
    assert events[1..][1..] == events[2..];
    Unroll(s2, events[2..], s3);
    assert events[2..][1..] == events[3..];
    Unroll(s3, events[3..], s4);
    assert events[3..][1..] == events[4..];
    Unroll(s4, events[4..], s5);
    assert events[4..][1..] == events[5..] && events[5..][1..] == [];
    Unroll(s5, events[5..], s6);
  }

  /**
   * The sender only asks whether some archive is there: a resume index for one archive is kept for
   * another one that was built for another target in between.
   */
  lemma OtherArchiveIsStreamedFromK(first: string, second: string, k: int) returns (events: seq<Event>)
    requires first != "" && second != ""
    ensures LawfulRun(START, events)
    ensures var s := After(START, events);
            |s.sends| == 3 && s.sends[2] == Send("a", Streaming(second, k))
  {
    hide After, LawfulRun;
    FirstSendEnds(first);
    var s0 := After(START, FirstSend(first));
    var rest, env := SecondSend(second, k), MemoryEnv(second, "e");
    var s1 := Step(s0, Ask("b", 0));
    var s2 := Step(s1, Prepare(1, env));
    assert Reusable(s2.t) && s2.t.bytes == second;
    var s3 := Step(s2, Ask("a", k));
    var s4 := Step(s3, Prepare(2, env));
    var s5 := Step(s4, Open(2));
    Unroll(s0, rest, s1);
    Unroll(s1, rest[1..], s2);
    assert rest[1..][1..] == rest[2..];
    Unroll(s2, rest[2..], s3);
    assert rest[2..][1..] == rest[3..];
    Unroll(s3, rest[3..], s4);
    assert rest[3..][1..] == rest[4..] && rest[4..][1..] == [];
    Unroll(s4, rest[4..], s5);
    events := FirstSend(first) + rest;
    RunAppend(START, FirstSend(first), rest);
  }

  lemma {:induction false} RunAppend(s: Sys, a: seq<Event>, b: seq<Event>)
    requires LawfulRun(s, a) && LawfulRun(After(s, a), b)
    ensures LawfulRun(s, a + b) && After(s, a + b) == After(After(s, a), b)
    decreases |a|
  {
    hide Step, Lawful;
    if a == [] {
      assert a + b == b;
    } else {
      RunAppend(Step(s, a[0]), a[1..], b);
      assert (a + b)[0] == a[0] && (a + b)[1..] == a[1..] + b;
    }
  }
}

/**
 * Single flight for images: threads that need the same history image on disk share one job. A job is
 * referred to by its index in the list of all jobs made so far.
 */
module ImageJobs {
  import opened Wrappers

  // err is what the leader stored; done is the closed channel.
  datatype Job = Job(done: bool, err: Option<string>)

  datatype Jobs = Jobs(all: seq<Job>, table: map<string, nat>)

  /** The table only points at jobs that were made. */
  predicate TableSound(v: Jobs) {
    forall x :: x in v.table ==> v.table[x] < |v.all|
  }

  function Begun(v: Jobs, item: string): (Jobs, nat, bool) {
    if item != "" && item in v.table then (v, v.table[item], false)
    else (Jobs(v.all + [Job(false, None)], if item == "" then v.table else v.table[item := |v.all|]), |v.all|, true)
  }

  function Written(v: Jobs, job: nat, err: Option<string>): Jobs
    requires job < |v.all|
  {
    v.(all := v.all[job := v.all[job].(err := err)])
  }

  function Closed(v: Jobs, job: nat): Jobs
    requires job < |v.all|
  {
    v.(all := v.all[job := v.all[job].(done := true)])
  }

  function Dropped(v: Jobs, item: string, job: nat): Jobs {
    if item in v.table && v.table[item] == job then v.(table := v.table - {item}) else v
  }

  class Application {
    var all: seq<Job>
    var table: map<string, nat>

    ghost function Value(): Jobs
      reads this
    {
      Jobs(all, table)
    }

    ghost predicate Valid()
      reads this
    {
      TableSound(Value())
    }

    method BeginImageMaterializeJob(item: string) returns (job: nat, leader: bool)
      requires Valid()
      modifies this
      ensures Valid()
      ensures (Value(), job, leader) == Begun(old(Value()), item)
    {
      if item == "" {
        job, leader := |all|, true;
        all := all + [Job(false, None)];
        return;
      }
      if item in table {
        return table[item], false;
      }
      job, leader := |all|, true;
      all := all + [Job(false, None)];
      table := table[item := job];
    }

    /** Stores the result, closes the channel, and only then takes the lock to drop its own entry. */
    method FinishImageMaterializeJob(item: string, job: nat, err: Option<string>)
      requires Valid() && job < |all|
      modifies this
      ensures Valid()
      ensures var done := Closed(Written(old(Value()), job, err), job);
              Value() == if item == "" then done else Dropped(done, item, job)
    {
      all := all[job := all[job].(err := err)];
      all := all[job := all[job].(done := true)];
      if item == "" {
        return;
      }
      if item in table && table[item] == job {
        table := table - {item};
      }
    }
  }
}

/** Any number of threads interleaving the begin and finish steps. */
module ImageRuns {
  import opened Wrappers
  import opened ImageJobs

  datatype Phase =
    | Running
    | Wrote(result: Option<string>)
    | Announced(result: Option<string>)
    | Returned(result: Option<string>)
    | Waiting

  // leads: this thread made the job it holds.
  datatype Thread = Thread(item: string, job: nat, leads: bool, phase: Phase)

  // makers[j]: the thread that made job j.
  datatype Sys = Sys(jobs: Jobs, threads: seq<Thread>, makers: seq<nat>)

  datatype Event =
    | Enter(item: string)
    | Finish(i: nat, result: Option<string>)
    | Close(i: nat)
    | Drop(i: nat)
    | Wake(i: nat)

  const START := Sys(Jobs([], map[]), [], [])

  function Moved(s: Sys, i: nat, p: Phase): Sys
    requires i < |s.threads|
  {
    s.(threads := s.threads[i := s.threads[i].(phase := p)])
  }

  /** A thread enters with a real item id; without one the image is written with no job at all. */
  function Entered(s: Sys, item: string): Sys {
    if item == "" then s
    else
      var (v, job, leader) := Begun(s.jobs, item);
      Sys(v, s.threads + [Thread(item, job, leader, if leader then Running else Waiting)],
          if leader then s.makers + [|s.threads|] else s.makers)
  }

  function Step(s: Sys, e: Event): Sys {
    match e
    case Enter(item) => Entered(s, item)
    case Finish(i, result) =>
      if i < |s.threads| && s.threads[i].phase.Running? && s.threads[i].job < |s.jobs.all| then
        Moved(s.(jobs := Written(s.jobs, s.threads[i].job, result)), i, Wrote(result))
      else s
    case Close(i) =>
      if i < |s.threads| && s.threads[i].phase.Wrote? && s.threads[i].job < |s.jobs.all| then
        Moved(s.(jobs := Closed(s.jobs, s.threads[i].job)), i, Announced(s.threads[i].phase.result))
      else s
    case Drop(i) =>
      if i < |s.threads| && s.threads[i].phase.Announced? then
        Moved(s.(jobs := Dropped(s.jobs, s.threads[i].item, s.threads[i].job)), i, Returned(s.threads[i].phase.result))
      else s
    case Wake(i) =>
      if i < |s.threads| && s.threads[i].phase.Waiting? && s.threads[i].job < |s.jobs.all| && s.jobs.all[s.threads[i].job].done then
        Moved(s, i, Returned(s.jobs.all[s.threads[i].job].err))
      else s
  }

  function After(s: Sys, events: seq<Event>): Sys
    decreases |events|
  {
    if events == [] then s else After(Step(s, events[0]), events[1..])
  }

  // ----- What every run keeps -----

  predicate Owns(t: Thread) {
    t.leads && (t.phase.Running? || t.phase.Wrote? || t.phase.Announced?)
  }

  predicate JobTells(t: Thread, job: Job) {
    if t.leads then
      && !t.phase.Waiting?
      && (job.done <==> t.phase.Announced? || t.phase.Returned?)
      && (!t.phase.Running? ==> job.err == t.phase.result)
    else
      t.phase.Waiting? || (t.phase.Returned? && job.done && job.err == t.phase.result)
  }

  /** A thread's job was made by a leader for the same item, tells what the thread did, and is listed while owned. */
  predicate ThreadSound(s: Sys, i: nat)
    requires i < |s.threads|
  {
    var t := s.threads[i];
    && t.job < |s.jobs.all| && t.job < |s.makers| && s.makers[t.job] < |s.threads|
    && s.threads[s.makers[t.job]].leads && s.threads[s.makers[t.job]].job == t.job && s.threads[s.makers[t.job]].item == t.item
    && (t.leads ==> s.makers[t.job] == i)
    && JobTells(t, s.jobs.all[t.job])
    && (Owns(t) ==> t.item in s.jobs.table && s.jobs.table[t.item] == t.job)
  }

  /** The table lists only jobs whose leader has not left, each under the leader's item. */
  predicate EntrySound(s: Sys, x: string)
    requires x in s.jobs.table
  {
    var job := s.jobs.table[x];
    && job < |s.makers| && s.makers[job] < |s.threads|
    && s.threads[s.makers[job]].job == job && s.threads[s.makers[job]].item == x && Owns(s.threads[s.makers[job]])
  }

  predicate Sound(s: Sys) {
    && |s.makers| == |s.jobs.all|
    && (forall i :: 0 <= i < |s.threads| ==> ThreadSound(s, i))
    && (forall x :: x in s.jobs.table ==> EntrySound(s, x))
  }

  lemma EnterKeepsThread(s: Sys, item: string, i: nat)
    requires Sound(s) && i < |Entered(s, item).threads|
    ensures ThreadSound(Entered(s, item), i)
  {
    if i < |s.threads| {
      assert ThreadSound(s, i);
    } else if item in s.jobs.table {
      assert EntrySound(s, item);
    }
  }

  lemma StepKeepsThread(s: Sys, e: Event, i: nat)
    requires Sound(s) && i < |Step(s, e).threads|
    ensures ThreadSound(Step(s, e), i)
  {
    hide Entered, Begun;
    if e.Enter? {
      EnterKeepsThread(s, e.item, i);
    } else {
      assert ThreadSound(s, i);
      assert ThreadSound(s, s.makers[s.threads[i].job]);
      if e.i < |s.threads| {
        assert ThreadSound(s, e.i);
      }
    }
  }

  lemma StepKeepsEntry(s: Sys, e: Event, x: string)
    requires Sound(s) && x in Step(s, e).jobs.table
    ensures EntrySound(Step(s, e), x)
  {
    if x in s.jobs.table {
      assert EntrySound(s, x);
    }
    if !e.Enter? && e.i < |s.threads| {
      assert ThreadSound(s, e.i);
    }
  }

  lemma {:induction false} RunsAreSound(s: Sys, events: seq<Event>)
    requires Sound(s)
    ensures Sound(After(s, events))
    decreases |events|
  {
    hide ThreadSound, EntrySound;
    if events != [] {
      var next := Step(s, events[0]);
      forall i | 0 <= i < |next.threads| ensures ThreadSound(next, i) {
        StepKeepsThread(s, events[0], i);
      }
      forall x | x in next.jobs.table ensures EntrySound(next, x) {
        StepKeepsEntry(s, events[0], x);
      }
      RunsAreSound(next, events[1..]);
    }
  }

  lemma SameItemSameOwner(s: Sys, i: nat, j: nat)
    requires Sound(s) && i < |s.threads| && j < |s.threads| && Owns(s.threads[i]) && Owns(s.threads[j])
    requires s.threads[i].item == s.threads[j].item
    ensures i == j
  {
    assert ThreadSound(s, i) && ThreadSound(s, j);
  }

  /** Main result: after any interleaving, at most one thread is writing a given image. */
  lemma OneWriterPerItem(events: seq<Event>, i: nat, j: nat)
    requires var s := After(START, events);
             && i < |s.threads| && j < |s.threads| && s.threads[i].item == s.threads[j].item
             && s.threads[i].phase.Running? && s.threads[j].phase.Running?
    ensures i == j
  {
    hide After, Step;
    RunsAreSound(START, events);
    var s := After(START, events);
    assert ThreadSound(s, i) && ThreadSound(s, j);
    SameItemSameOwner(s, i, j);
  }

  /** Main result: every job a thread holds has exactly one leader, and a listed one has a leader still at work. */
  lemma OneLeaderPerJob(events: seq<Event>, i: nat)
    requires i < |After(START, events).threads|
    ensures var s := After(START, events);
            && (exists l :: 0 <= l < |s.threads| && s.threads[l].leads && s.threads[l].job == s.threads[i].job)
            && (forall l :: 0 <= l < |s.threads| && l != i && s.threads[i].leads && s.threads[l].leads ==>
                  s.threads[l].job != s.threads[i].job)
            && (s.threads[i].item in s.jobs.table && s.jobs.table[s.threads[i].item] == s.threads[i].job <==>
                  exists l :: 0 <= l < |s.threads| && s.threads[l].job == s.threads[i].job && Owns(s.threads[l]))
  {
    hide After, Step;
    RunsAreSound(START, events);
    var s := After(START, events);
    assert ThreadSound(s, i);
    forall l | 0 <= l < |s.threads|
      ensures l != i && s.threads[i].leads && s.threads[l].leads ==> s.threads[l].job != s.threads[i].job
      ensures s.threads[l].job == s.threads[i].job && Owns(s.threads[l]) ==>
                s.threads[i].item in s.jobs.table && s.jobs.table[s.threads[i].item] == s.threads[i].job
    {
      assert ThreadSound(s, l);
    }
    if s.threads[i].item in s.jobs.table && s.jobs.table[s.threads[i].item] == s.threads[i].job {
      assert EntrySound(s, s.threads[i].item);
    }
  }

  /** Main result: whoever returns from a job has the result its leader stored, and the leader had announced it. */
  lemma FollowersGetTheLeadersResult(events: seq<Event>, i: nat, l: nat)
    requires var s := After(START, events);
             && i < |s.threads| && l < |s.threads| && s.threads[l].leads && s.threads[i].job == s.threads[l].job
             && s.threads[i].phase.Returned?
    ensures var s := After(START, events);
            && s.threads[i].item == s.threads[l].item
            && (s.threads[l].phase.Announced? || s.threads[l].phase.Returned?)
            && s.threads[i].phase.result == s.threads[l].phase.result
  {
    hide After, Step;
    RunsAreSound(START, events);
    var s := After(START, events);
    assert ThreadSound(s, i) && ThreadSound(s, l);
  }

  /** A follower can go on exactly when its leader has closed the job. */
  lemma FollowersWakeIff(events: seq<Event>, i: nat, l: nat)
    requires var s := After(START, events);
             && i < |s.threads| && l < |s.threads| && s.threads[l].leads && s.threads[i].job == s.threads[l].job
             && s.threads[i].phase.Waiting?
    ensures var s := After(START, events);
            |Step(s, Wake(i)).threads| == |s.threads|
            && (Step(s, Wake(i)).threads[i].phase.Returned? <==> s.threads[l].phase.Announced? || s.threads[l].phase.Returned?)
  {
    hide After;
    RunsAreSound(START, events);
    var s := After(START, events);
    assert ThreadSound(s, i) && ThreadSound(s, l);
  }

  /** No job is closed twice, and the entry a leader drops is its own. */
  lemma ClosedOnceAndDropsItsOwn(events: seq<Event>, i: nat)
    requires i < |After(START, events).threads|
    ensures var s := After(START, events); var t := s.threads[i];
            && (t.phase.Wrote? ==> t.job < |s.jobs.all| && !s.jobs.all[t.job].done)
            && (t.phase.Announced? ==> t.item in s.jobs.table && s.jobs.table[t.item] == t.job
                                       && Step(s, Drop(i)).jobs.table == s.jobs.table - {t.item})
  {
    hide After;
    RunsAreSound(START, events);
    assert ThreadSound(After(START, events), i);
  }

  /** Whoever finds no job for its item leads a new one, listed unless the item has no id; others join the listed one. */
  lemma BeginIff(v: Jobs, item: string)
    requires TableSound(v)
    ensures var (v', job, leader) := Begun(v, item);
            && (leader <==> item == "" || item !in v.table)
            && (leader ==> job == |v.all| && v'.all == v.all + [Job(false, None)]
                           && v'.table == (if item == "" then v.table else v.table[item := job]))
            && (!leader ==> v' == v && job == v.table[item] && job < |v.all|)
  {
  }

  /** Finishing drops the entry only if it is still this job's. */
  lemma DropsItsOwnOnly(v: Jobs, item: string, job: nat)
    ensures var v' := Dropped(v, item, job);
            && v'.all == v.all
            && forall x :: (x in v'.table <==> x in v.table && (x != item || v.table[x] != job)) && (x in v'.table ==> v'.table[x] == v.table[x])
  {
  }

  /**
   * Nobody gets stuck: a writer can always finish, with any result, after which its job is closed and no
   * longer listed; whoever waits for it can then go on, with that result.
   */
  lemma LeaderEndsAndFollowersWake(s: Sys, i: nat, f: nat, result: Option<string>)
    requires Sound(s) && i < |s.threads| && s.threads[i].phase.Running? && s.threads[i].leads
    requires f < |s.threads| && s.threads[f].phase.Waiting? && s.threads[f].job == s.threads[i].job
    ensures var end := Step(Step(Step(s, Finish(i, result)), Close(i)), Drop(i));
            && |end.threads| == |s.threads| && end.threads[i] == s.threads[i].(phase := Returned(result))
            && s.threads[i].item !in end.jobs.table
            && Step(end, Wake(f)).threads[f] == s.threads[f].(phase := Returned(result))
  {
    assert ThreadSound(s, i) && ThreadSound(s, f);
  }

  /** Entering starts a writer exactly when nobody writes this item; everybody else waits for the one who does. */
  lemma EntersIff(s: Sys, item: string)
    requires Sound(s) && item != ""
    ensures var s' := Step(s, Enter(item));
            var i := |s.threads|;
            && |s'.threads| == i + 1 && s'.threads[i].item == item && s'.threads[..i] == s.threads
            && (s'.threads[i].phase.Running? <==> forall j :: 0 <= j < i && s.threads[j].item == item ==> !Owns(s.threads[j]))
            && (!s'.threads[i].phase.Running? ==>
                  s'.threads[i].phase.Waiting? && exists j :: 0 <= j < i && Owns(s.threads[j]) && s.threads[j].job == s'.threads[i].job)
  {
    if item in s.jobs.table {
      assert EntrySound(s, item);
    }
    forall j | 0 <= j < |s.threads| && s.threads[j].item == item && Owns(s.threads[j])
      ensures item in s.jobs.table
    {
      assert ThreadSound(s, j);
    }
  }
}

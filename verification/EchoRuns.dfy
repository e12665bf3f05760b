/**
 * Any number of devices sharing a clipboard: local copies, change events, broadcasts, receipts that
 * write the clipboard again, and hotkey writes, in any order and interleaving.
 */
module EchoRuns {
  import opened Wrappers
  import opened Monitor

  const RECEIVE_WINDOW: nat := 500_000_000
  const SEND_WINDOW: nat := 10_000_000_000

  // ---------------------------------------------------------------- the application's own filters

  // Last message received, last capture sent, and the last replay write still to be recognised.
  datatype Guards = Guards(recvKey: string, recvTime: Time, sendKey: string, sendTime: Time, replayTime: Time)

  datatype Filtered = Filtered(g: Guards, dropped: bool)

  /** onReceive drops the same message within half a second. */
  function ReceiveFilter(g: Guards, key: string, now: Time): Filtered {
    if g.recvKey == key && now - g.recvTime < RECEIVE_WINDOW then Filtered(g, true)
    else Filtered(g.(recvKey := key, recvTime := now), false)
  }

  /** The monitor callback drops the same capture within ten seconds. */
  function SendFilter(g: Guards, key: string, now: Time): Filtered {
    if g.sendKey == key && now - g.sendTime < SEND_WINDOW then Filtered(g, true)
    else Filtered(g.(sendKey := key, sendTime := now), false)
  }

  /** A capture that matches the last replay write is dropped once, for five seconds. */
  function ReplayFilter(g: Guards, matches: bool, now: Time): Filtered {
    if g.replayTime == 0 || now - g.replayTime > FIVE_SECONDS then Filtered(g.(replayTime := 0), false)
    else if matches then Filtered(g.(replayTime := 0), true)
    else Filtered(g, false)
  }

  /** isClipboardWriteAllowed for incoming data: text and images of another session, or of none. */
  predicate IncomingWriteAllowed(kind: Kind, source: string, session: string) {
    (kind == TextKind || kind == ImageKind) && (source == "" || source != session)
  }

  // ---------------------------------------------------------------- what the filters mean

  // One message or capture offered to a filter. Keys are digests, never "".
  datatype Attempt = Attempt(key: string, at: Time)

  /** Position of the last attempt let through, or -1: all but a twin of the one before, too soon after it. */
  function LastPassed(tries: seq<Attempt>, window: nat): (k: int)
    ensures -1 <= k < |tries|
  {
    if tries == [] then -1
    else
      var last := |tries| - 1;
      var k := LastPassed(tries[..last], window);
      if k >= 0 && tries[k].key == tries[last].key && tries[last].at - tries[k].at < window then k else last
  }

  predicate Passed(tries: seq<Attempt>, n: nat, window: nat)
    requires n < |tries|
  {
    LastPassed(tries[..n + 1], window) == n
  }

  /** A passed attempt of the same key, less than a window before n, with none passed in between. */
  ghost predicate HasTwin(tries: seq<Attempt>, n: nat, window: nat)
    requires n < |tries|
  {
    exists k :: 0 <= k < n && Passed(tries, k, window) && tries[k].key == tries[n].key && tries[n].at - tries[k].at < window
                && forall j :: k < j < n ==> !Passed(tries, j, window)
  }

  lemma {:induction false} LastPassedIsLast(tries: seq<Attempt>, window: nat)
    ensures var k := LastPassed(tries, window);
            && (k >= 0 ==> Passed(tries, k, window))
            && (forall j :: k < j < |tries| ==> !Passed(tries, j, window))
  {
    if tries != [] {
      var front := tries[..|tries| - 1];
      LastPassedIsLast(front, window);
      assert tries[..|tries|] == tries;
      forall j | 0 <= j < |front|
        ensures Passed(tries, j, window) <==> Passed(front, j, window)
      {
        assert tries[..j + 1] == front[..j + 1];
      }
    }
  }

  /** Attempt n is judged against the last one passed before it. */
  lemma JudgedByLast(tries: seq<Attempt>, n: nat, window: nat)
    requires n < |tries|
    ensures var k := LastPassed(tries[..n], window);
            && (!Passed(tries, n, window) <==> k >= 0 && tries[k].key == tries[n].key && tries[n].at - tries[k].at < window)
            && (k >= 0 ==> Passed(tries, k, window))
            && (forall j :: k < j < n ==> !Passed(tries, j, window))
  {
    var upTo, front := tries[..n + 1], tries[..n];
    assert upTo[..n] == front;
    LastPassedIsLast(front, window);
    forall j | 0 <= j < n
      ensures Passed(tries, j, window) <==> Passed(front, j, window)
    {
      assert tries[..j + 1] == front[..j + 1];
    }
  }

  /** An attempt is dropped exactly when a twin passed less than a window ago and nothing passed since. */
  lemma DroppedIffTwin(tries: seq<Attempt>, n: nat, window: nat)
    requires n < |tries|
    ensures !Passed(tries, n, window) <==> HasTwin(tries, n, window)
  {
    hide Passed, LastPassed;
    JudgedByLast(tries, n, window);
  }

  /** Of one key alone, what passes is at least a window apart. */
  lemma TwinsAreApart(tries: seq<Attempt>, i: nat, j: nat, window: nat)
    requires i < j < |tries| && Passed(tries, i, window) && Passed(tries, j, window)
    requires forall m, n :: i <= m <= n <= j ==> tries[m].key == tries[n].key && tries[m].at <= tries[n].at
    ensures tries[j].at - tries[i].at >= window
  {
    hide Passed, LastPassed;
    JudgedByLast(tries, j, window);
    assert i <= LastPassed(tries[..j], window);
  }

  // A hotkey's clipboard write, or a capture that matches the last one or not.
  datatype ReplayEvent = Wrote(at: Time) | Capture(matches: bool, at: Time)

  /** Times are real and do not go back. */
  ghost predicate InOrder(log: seq<ReplayEvent>) {
    && (forall i :: 0 <= i < |log| ==> log[i].at > 0)
    && (forall i, j :: 0 <= i <= j < |log| ==> log[i].at <= log[j].at)
  }

  /** The write at k still stands at n: no other write and no matching capture since. */
  predicate Stands(log: seq<ReplayEvent>, k: nat, n: nat)
    requires k < n <= |log|
  {
    log[k].Wrote? && forall j :: k < j < n ==> log[j].Capture? && !log[j].matches
  }

  /** Entry n is a capture that matches the last write, which is at most five seconds old and was not matched yet. */
  ghost predicate Recognised(log: seq<ReplayEvent>, n: nat)
    requires n < |log|
  {
    log[n].Capture? && log[n].matches
    && exists k :: 0 <= k < n && Stands(log, k, n) && log[n].at - log[k].at <= FIVE_SECONDS
  }

  /** The time the application remembers after a log. */
  function Remembered(log: seq<ReplayEvent>): Time {
    if log == [] then 0
    else
      var t := Remembered(log[..|log| - 1]);
      RememberedAfter(t, log[|log| - 1])
  }

  /** What is remembered is a write that still stands; what is forgotten was matched or is too old. */
  lemma {:induction false} RememberedStands(log: seq<ReplayEvent>)
    requires InOrder(log)
    ensures Remembered(log) != 0 ==> exists k :: 0 <= k < |log| && Stands(log, k, |log|) && log[k].at == Remembered(log)
    ensures Remembered(log) == 0 ==> forall k :: 0 <= k < |log| && Stands(log, k, |log|) ==>
              log[|log| - 1].at - log[k].at > FIVE_SECONDS
  {
    if log != [] {
      var n := |log| - 1;
      var front := log[..n];
      RememberedStands(front);
      forall k | 0 <= k < n
        ensures Stands(log, k, |log|) <==> Stands(front, k, n) && log[n].Capture? && !log[n].matches
      {
        if Stands(front, k, n) && log[n].Capture? && !log[n].matches {
          assert forall j :: k < j < n ==> front[j] == log[j];
        }
        if Stands(log, k, |log|) {
          assert forall j :: k < j < n ==> front[j] == log[j];
        }
      }
      if log[n].Wrote? {
        assert Stands(log, n, |log|);
      } else if Remembered(log) != 0 {
        var k :| 0 <= k < n && Stands(front, k, n) && front[k].at == Remembered(front);
        assert Stands(log, k, |log|);
      } else {
        forall k | 0 <= k < |log| && Stands(log, k, |log|)
          ensures log[n].at - log[k].at > FIVE_SECONDS
        {
          assert k < n && Stands(front, k, n);
          if Remembered(front) != 0 {
            var m :| 0 <= m < n && Stands(front, m, n) && front[m].at == Remembered(front);
            OnlyOneStands(front, k, m, n);
          }
        }
      }
    }
  }

  lemma OnlyOneStands(log: seq<ReplayEvent>, k: nat, m: nat, n: nat)
    requires k < n && m < n && n <= |log| && Stands(log, k, n) && Stands(log, m, n)
    ensures k == m
  {
  }

  /** The filter's decision, from what it remembers, is Recognised. */
  lemma RecognisedIff(log: seq<ReplayEvent>, matches: bool, at: Time)
    requires InOrder(log + [Capture(matches, at)])
    ensures var t := Remembered(log);
            Recognised(log + [Capture(matches, at)], |log|) <==> matches && t != 0 && at - t <= FIVE_SECONDS
  {
    var whole := log + [Capture(matches, at)];
    var n := |log|;
    assert InOrder(log) by {
      assert forall i :: 0 <= i < n ==> log[i] == whole[i];
    }
    RememberedStands(log);
    forall k | 0 <= k < n
      ensures Stands(whole, k, n) <==> Stands(log, k, n)
    {
      assert forall j :: k < j < n ==> whole[j] == log[j];
    }
    if Remembered(log) != 0 {
      var k :| 0 <= k < n && Stands(log, k, n) && log[k].at == Remembered(log);
      assert Stands(whole, k, n) && whole[k] == log[k];
      forall m | 0 <= m < n && Stands(whole, m, n)
        ensures m == k
      {
        OnlyOneStands(log, k, m, n);
      }
    } else {
      forall k | 0 <= k < n && Stands(whole, k, n)
        ensures whole[n].at - whole[k].at > FIVE_SECONDS
      {
        assert whole[n - 1].at <= whole[n].at;
      }
    }
  }

  class Application {
    var lastRecvKey: string
    var lastRecvTime: Time
    var lastMonitorSendKey: string
    var lastMonitorSendTime: Time
    var replayWriteTime: Time

    // Everything offered to each filter so far.
    ghost var received: seq<Attempt>
    ghost var captured: seq<Attempt>
    ghost var replays: seq<ReplayEvent>

    ghost predicate Valid()
      reads this
    {
      && HoldsLast(lastRecvKey, lastRecvTime, received, RECEIVE_WINDOW)
      && HoldsLast(lastMonitorSendKey, lastMonitorSendTime, captured, SEND_WINDOW)
      && InOrder(replays) && replayWriteTime == Remembered(replays)
    }

    constructor ()
      ensures Valid() && Value() == Guards("", 0, "", 0, 0)
      ensures received == [] && captured == [] && replays == []
    {
      lastRecvKey, lastRecvTime, lastMonitorSendKey, lastMonitorSendTime, replayWriteTime := "", 0, "", 0, 0;
      received, captured, replays := [], [], [];
    }

    ghost function Value(): Guards
      reads this
    {
      Guards(lastRecvKey, lastRecvTime, lastMonitorSendKey, lastMonitorSendTime, replayWriteTime)
    }

    /** Drops exactly the twin of the last message let through, within half a second of it. */
    method IsDuplicateReceipt(key: string, now: Time) returns (dropped: bool)
      requires Valid() && key != ""
      modifies `lastRecvKey, `lastRecvTime, `received
      ensures Valid() && received == old(received) + [Attempt(key, now)]
      ensures dropped <==> HasTwin(received, |old(received)|, RECEIVE_WINDOW)
      ensures Filtered(Value(), dropped) == ReceiveFilter(old(Value()), key, now)
    {
      hide HoldsLast, HasTwin, InOrder, Remembered;
      OneMoreTry(lastRecvKey, lastRecvTime, received, key, now, RECEIVE_WINDOW);
      received := received + [Attempt(key, now)];
      if lastRecvKey == key && now - lastRecvTime < RECEIVE_WINDOW {
        return true;
      }
      lastRecvKey := key;
      lastRecvTime := now;
      return false;
    }

    /** Drops exactly the twin of the last capture let through, within ten seconds of it. */
    method ShouldSuppressDuplicateMonitorCapture(key: string, now: Time) returns (dropped: bool)
      requires Valid() && key != ""
      modifies `lastMonitorSendKey, `lastMonitorSendTime, `captured
      ensures Valid() && captured == old(captured) + [Attempt(key, now)]
      ensures dropped <==> HasTwin(captured, |old(captured)|, SEND_WINDOW)
      ensures Filtered(Value(), dropped) == SendFilter(old(Value()), key, now)
    {
      hide HoldsLast, HasTwin, InOrder, Remembered;
      OneMoreTry(lastMonitorSendKey, lastMonitorSendTime, captured, key, now, SEND_WINDOW);
      captured := captured + [Attempt(key, now)];
      if lastMonitorSendKey == key && now - lastMonitorSendTime < SEND_WINDOW {
        return true;
      }
      lastMonitorSendKey := key;
      lastMonitorSendTime := now;
      return false;
    }

    method RememberReplayClipboardWrite(now: Time)
      requires Valid() && now > 0 && forall i :: 0 <= i < |replays| ==> replays[i].at <= now
      modifies `replayWriteTime, `replays
      ensures Valid() && replays == old(replays) + [Wrote(now)]
      ensures Value() == old(Value()).(replayTime := now)
    {
      hide HoldsLast, InOrder, Remembered;
      OneMoreReplay(replays, Wrote(now));
      replays := replays + [Wrote(now)];
      replayWriteTime := now;
    }

    /** Drops exactly a capture recognised as the last replay write's own, once and within five seconds. */
    method ShouldSuppressReplayCapture(matches: bool, now: Time) returns (dropped: bool)
      requires Valid() && now > 0 && forall i :: 0 <= i < |replays| ==> replays[i].at <= now
      modifies `replayWriteTime, `replays
      ensures Valid() && replays == old(replays) + [Capture(matches, now)]
      ensures dropped <==> Recognised(replays, |old(replays)|)
      ensures Filtered(Value(), dropped) == ReplayFilter(old(Value()), matches, now)
    {
      hide HoldsLast, InOrder, Remembered, Recognised;
      OneMoreReplay(replays, Capture(matches, now));
      RecognisedIff(replays, matches, now);
      replays := replays + [Capture(matches, now)];
      if replayWriteTime == 0 || now - replayWriteTime > FIVE_SECONDS {
        replayWriteTime := 0;
        return false;
      }
      if matches {
        replayWriteTime := 0;
        return true;
      }
      return false;
    }
  }

  /** The two fields of a filter hold the last attempt it let through. */
  predicate HoldsLast(key: string, at: Time, tries: seq<Attempt>, window: nat) {
    var k := LastPassed(tries, window);
    && (forall i :: 0 <= i < |tries| ==> tries[i].key != "")
    && if k < 0 then key == "" && at == 0 else key == tries[k].key && at == tries[k].at
  }

  lemma OneMoreTry(lastKey: string, lastAt: Time, before: seq<Attempt>, key: string, now: Time, window: nat)
    requires key != "" && HoldsLast(lastKey, lastAt, before, window)
    ensures var tries := before + [Attempt(key, now)];
            var twin := lastKey == key && now - lastAt < window;
            && HoldsLast(if twin then lastKey else key, if twin then lastAt else now, tries, window)
            && (HasTwin(tries, |before|, window) <==> twin)
  {
    var tries := before + [Attempt(key, now)];
    assert tries[..|before|] == before && tries[..|before| + 1] == tries;
    DroppedIffTwin(tries, |before|, window);
  }

  /** What is remembered after one more entry. */
  function RememberedAfter(t: Time, e: ReplayEvent): Time {
    match e
    case Wrote(at) => at
    case Capture(matches, at) => if t == 0 || at - t > FIVE_SECONDS || matches then 0 else t
  }

  lemma OneMoreReplay(before: seq<ReplayEvent>, e: ReplayEvent)
    requires InOrder(before) && e.at > 0 && forall i :: 0 <= i < |before| ==> before[i].at <= e.at
    ensures InOrder(before + [e]) && Remembered(before + [e]) == RememberedAfter(Remembered(before), e)
  {
    hide InOrder, RememberedAfter;
    OneMoreInOrder(before, e);
    var log := before + [e];
    assert log[..|log| - 1] == before && log[|log| - 1] == e;
  }

  lemma OneMoreInOrder(before: seq<ReplayEvent>, e: ReplayEvent)
    requires InOrder(before) && e.at > 0 && forall i :: 0 <= i < |before| ==> before[i].at <= e.at
    ensures InOrder(before + [e])
  {
    var log := before + [e];
    forall i | 0 <= i < |log|
      ensures log[i].at > 0 && log[i].at <= e.at
    {
      assert i < |before| ==> log[i] == before[i];
    }
    forall i, j | 0 <= i <= j < |log|
      ensures log[i].at <= log[j].at
    {
      if j < |before| {
        assert log[i] == before[i] && log[j] == before[j];
      }
    }
  }

  // ---------------------------------------------------------------- the system

  datatype Message = Message(kind: Kind, payload: string, source: string)

  // userPending and programPending count change events the system has still to deliver.
  datatype Device = Device(mon: State, guards: Guards, session: string, userPending: nat, programPending: nat)

  datatype System = System(devs: seq<Device>, net: set<Message>, now: Time, copies: nat, userEvents: nat, broadcasts: nat)

  datatype Step =
    | UserCopy(d: nat, events: nat)
    | ChangeEvent(d: nat, byUser: bool, kind: Kind, payload: string, key: string, matches: bool, sendOK: bool)
    | OtherMessage(d: nat, key: string)
    | Receive(d: nat, m: Message, reuse: bool, io: WriteIO, events: nat)
    | HotkeyWrite(d: nat, payload: string, job: Job, io: WriteIO, events: nat)
    | Tick(to: Time)

  /** What a received message is recognised by: its type and payload, put together. */
  function Key(kind: Kind, payload: string): string {
    (match kind
     case TextKind => "text" case ImageKind => "image" case FileStubKind => "file_stub"
     case FileEagerKind => "file_eager" case OtherKind => "") + payload
  }

  /** A capture the monitor emits, through the application's filters; true when it is broadcast. */
  function Captured(g: Guards, key: string, matches: bool, sendOK: bool, now: Time): (Guards, bool) {
    var f := SendFilter(g, key, now);
    if f.dropped then (f.g, false)
    else
      var r := ReplayFilter(f.g, matches, now);
      (r.g, !r.dropped && sendOK)
  }

  datatype Arrived = Arrived(dev: Device, wrote: bool, armed: int)

  /** The filters, the history's echo check and the write decision let the message through to the clipboard. */
  predicate Heard(dev: Device, m: Message, reuse: bool, now: Time) {
    !ReceiveFilter(dev.guards, Key(m.kind, m.payload), now).dropped && !reuse && IncomingWriteAllowed(m.kind, m.source, dev.session)
  }

  /** A message arrives, and is written when it is let through. */
  function Delivered(dev: Device, m: Message, reuse: bool, hash: string -> nat, io: WriteIO, events: nat, now: Time): Arrived {
    var f := ReceiveFilter(dev.guards, Key(m.kind, m.payload), now);
    var heard := dev.(guards := f.g);
    if !Heard(dev, m, reuse, now) then Arrived(heard, false, 0)
    else
      var w := Pasted(dev.mon, hash(m.payload), m.kind, io, now);
      Arrived(heard.(mon := w.s, programPending := dev.programPending + if w.wrote then events else 0),
              w.wrote, w.s.suppressedEdits - dev.mon.suppressedEdits)
  }

  /** A hotkey writes the clipboard; the write is remembered so that its own capture is recognised. */
  function HotkeyDone(dev: Device, payload: string, job: Job, hash: string -> nat, io: WriteIO, events: nat, now: Time): Arrived {
    var w := Done(dev.mon, hash(payload), job, io, now);
    Arrived(dev.(mon := w.s, guards := dev.guards.(replayTime := now),
                 programPending := dev.programPending + if w.wrote then events else 0),
            w.wrote, w.s.suppressedEdits - dev.mon.suppressedEdits)
  }

  function EventTaken(dev: Device, byUser: bool): Device
    requires if byUser then dev.userPending > 0 else dev.programPending > 0
  {
    if byUser then dev.(userPending := dev.userPending - 1) else dev.(programPending := dev.programPending - 1)
  }

  /**
   * The environment's side of the bargain: a message received was sent, an event delivered was caused,
   * a program write causes at most as many change events as it armed suppressions, and those events
   * arrive within five seconds of the device's latest write.
   */
  ghost predicate Enabled(s: System, step: Step, hash: string -> nat) {
    match step
    case UserCopy(d, _) => d < |s.devs|
    case ChangeEvent(d, byUser, _, _, _, _, _) =>
      d < |s.devs| && if byUser then s.devs[d].userPending > 0 else s.devs[d].programPending > 0
    case Receive(d, m, reuse, io, events) =>
      d < |s.devs| && m in s.net && events <= Abs(Delivered(s.devs[d], m, reuse, hash, io, events, s.now).armed)
    case HotkeyWrite(d, payload, job, io, events) =>
      d < |s.devs| && events <= Abs(HotkeyDone(s.devs[d], payload, job, hash, io, events, s.now).armed)
    case OtherMessage(d, _) => d < |s.devs|
    case Tick(to) =>
      s.now <= to && forall d :: 0 <= d < |s.devs| && s.devs[d].programPending > 0 ==> to - s.devs[d].mon.suppressedAt <= FIVE_SECONDS
  }

  function Abs(x: int): nat {
    if x < 0 then -x else x
  }

  ghost function Next(s: System, step: Step, hash: string -> nat): System
    requires Enabled(s, step, hash)
  {
    match step
    case UserCopy(d, events) =>
      s.(devs := s.devs[d := s.devs[d].(userPending := s.devs[d].userPending + events)], copies := s.copies + 1,
         userEvents := s.userEvents + events)
    case ChangeEvent(d, byUser, kind, payload, key, matches, sendOK) =>
      var dev := EventTaken(s.devs[d], byUser);
      var seen := Changed(dev.mon, hash(payload), s.now);
      if !seen.emits then s.(devs := s.devs[d := dev.(mon := seen.s)])
      else
        var (g, sent) := Captured(dev.guards, key, matches, sendOK, s.now);
        var devs := s.devs[d := dev.(mon := seen.s, guards := g)];
        if sent then s.(devs := devs, net := s.net + {Message(kind, payload, dev.session)}, broadcasts := s.broadcasts + 1)
        else s.(devs := devs)
    case Receive(d, m, reuse, io, events) =>
      s.(devs := s.devs[d := Delivered(s.devs[d], m, reuse, hash, io, events, s.now).dev])
    case HotkeyWrite(d, payload, job, io, events) =>
      s.(devs := s.devs[d := HotkeyDone(s.devs[d], payload, job, hash, io, events, s.now).dev])
    case OtherMessage(d, key) =>
      s.(devs := s.devs[d := s.devs[d].(guards := ReceiveFilter(s.devs[d].guards, key, s.now).g)])
    case Tick(to) => s.(now := to)
  }

  // ---------------------------------------------------------------- the potential

  /** Broadcasts a device may still make: its user events, and program events no suppression covers. */
  function Potential(dev: Device): nat {
    dev.userPending + if dev.programPending > dev.mon.suppressedEdits then Abs(dev.programPending - dev.mon.suppressedEdits) else 0
  }

  function TotalPotential(devs: seq<Device>): nat {
    if devs == [] then 0 else TotalPotential(devs[..|devs| - 1]) + Potential(devs[|devs| - 1])
  }

  lemma {:induction false} PotentialUpdate(devs: seq<Device>, d: nat, dev: Device)
    requires d < |devs|
    ensures TotalPotential(devs[d := dev]) == TotalPotential(devs) - Potential(devs[d]) + Potential(dev)
  {
    var last := |devs| - 1;
    if d == last {
      assert devs[d := dev][..last] == devs[..last];
    } else {
      PotentialUpdate(devs[..last], d, dev);
      assert devs[d := dev][..last] == devs[..last][d := dev];
    }
  }

  predicate DeviceSound(dev: Device, now: Time) {
    && dev.mon.suppressedEdits >= 0
    && (dev.programPending > 0 ==> dev.mon.suppressedAt != 0 && now - dev.mon.suppressedAt <= FIVE_SECONDS)
  }

  ghost predicate Sound(s: System) {
    && s.now > 0
    && (forall d :: 0 <= d < |s.devs| ==> DeviceSound(s.devs[d], s.now))
    && s.broadcasts + TotalPotential(s.devs) <= s.userEvents
  }

  /** A change event never raises the potential, and lowers it when it is emitted. */
  lemma EventPays(dev: Device, byUser: bool, hash: nat, now: Time)
    requires DeviceSound(dev, now) && if byUser then dev.userPending > 0 else dev.programPending > 0
    ensures var seen := Changed(dev.mon, hash, now);
            var dev' := EventTaken(dev, byUser).(mon := seen.s);
            && DeviceSound(dev', now)
            && Potential(dev') + (if seen.emits then 1 else 0) <= Potential(dev)
  {
  }

  /** A write arms at least as many suppressions as it causes events, so the potential does not grow. */
  lemma WriteIsCovered(dev: Device, hash: nat, job: Job, io: WriteIO, events: nat, now: Time)
    requires DeviceSound(dev, now) && now > 0
    requires events <= Abs(Done(dev.mon, hash, job, io, now).s.suppressedEdits - dev.mon.suppressedEdits)
    ensures var w := Done(dev.mon, hash, job, io, now);
            var dev' := dev.(mon := w.s, programPending := dev.programPending + if w.wrote then events else 0);
            DeviceSound(dev', now) && Potential(dev') <= Potential(dev)
  {
    WritesArm(dev.mon, hash, job, io, now);
  }

  /** One device changed, and what was broadcast is paid for out of its potential or by a copy. */
  lemma OneDeviceChanged(s: System, s': System, d: nat, dev: Device)
    requires Sound(s) && d < |s.devs|
    requires s'.now == s.now && s'.devs == s.devs[d := dev] && DeviceSound(dev, s.now)
    requires s'.broadcasts + Potential(dev) + s.userEvents <= s.broadcasts + Potential(s.devs[d]) + s'.userEvents
    ensures Sound(s')
  {
    PotentialUpdate(s.devs, d, dev);
  }

  lemma StepStaysSound(s: System, step: Step, hash: string -> nat)
    requires Sound(s) && Enabled(s, step, hash)
    ensures Sound(Next(s, step, hash))
  {
    hide TotalPotential;
    var s' := Next(s, step, hash);
    match step
    case UserCopy(d, _) => OneDeviceChanged(s, s', d, s'.devs[d]);
    case ChangeEvent(d, byUser, kind, payload, key, matches, sendOK) =>
      EventPays(s.devs[d], byUser, hash(payload), s.now);
      OneDeviceChanged(s, s', d, s'.devs[d]);
    case Receive(d, m, reuse, io, events) =>
      ReceiptIsCovered(s.devs[d], m, reuse, hash, io, events, s.now);
      OneDeviceChanged(s, s', d, s'.devs[d]);
    case HotkeyWrite(d, payload, job, io, events) =>
      WriteIsCovered(s.devs[d], hash(payload), job, io, events, s.now);
      OneDeviceChanged(s, s', d, s'.devs[d]);
    case OtherMessage(d, _) => OneDeviceChanged(s, s', d, s'.devs[d]);
    case Tick(to) =>
  }

  lemma ReceiptIsCovered(dev: Device, m: Message, reuse: bool, hash: string -> nat, io: WriteIO, events: nat, now: Time)
    requires DeviceSound(dev, now) && now > 0
    requires events <= Abs(Delivered(dev, m, reuse, hash, io, events, now).armed)
    ensures var dev' := Delivered(dev, m, reuse, hash, io, events, now).dev;
            DeviceSound(dev', now) && Potential(dev') <= Potential(dev)
  {
    var f := ReceiveFilter(dev.guards, Key(m.kind, m.payload), now);
    if !(f.dropped || reuse || !IncomingWriteAllowed(m.kind, m.source, dev.session)) {
      WriteIsCovered(dev, hash(m.payload), PasteJob(m.kind), io, events, now);
    }
  }

  // ---------------------------------------------------------------- whole runs

  ghost predicate Fresh(s: System) {
    && s.now > 0 && s.copies == 0 && s.userEvents == 0 && s.broadcasts == 0
    && forall d :: 0 <= d < |s.devs| ==>
         s.devs[d].mon == State(s.devs[d].mon.lastHash, 0, 0) && s.devs[d].userPending == 0 && s.devs[d].programPending == 0
  }

  /** states[0] is a fresh system and each step leads from one state to the next. */
  ghost predicate IsRun(states: seq<System>, steps: seq<Step>, hash: string -> nat) {
    && |states| == |steps| + 1 && Fresh(states[0])
    && forall i :: 0 <= i < |steps| ==> Enabled(states[i], steps[i], hash) && states[i + 1] == Next(states[i], steps[i], hash)
  }

  lemma {:induction false} FreshHasNoPotential(devs: seq<Device>)
    requires forall d :: 0 <= d < |devs| ==> Potential(devs[d]) == 0
    ensures TotalPotential(devs) == 0
  {
    if devs != [] {
      FreshHasNoPotential(devs[..|devs| - 1]);
    }
  }

  lemma {:induction false} RunsStaySound(states: seq<System>, steps: seq<Step>, hash: string -> nat, n: nat)
    requires IsRun(states, steps, hash) && n <= |steps|
    ensures Sound(states[n])
  {
    if n == 0 {
      FreshHasNoPotential(states[0].devs);
    } else {
      RunsStaySound(states, steps, hash, n - 1);
      StepStaysSound(states[n - 1], steps[n - 1], hash);
    }
  }

  lemma {:induction false} CopiesCoverEvents(states: seq<System>, steps: seq<Step>, hash: string -> nat, n: nat)
    requires IsRun(states, steps, hash) && n <= |steps|
    requires forall i :: 0 <= i < n && steps[i].UserCopy? ==> steps[i].events <= 1
    ensures states[n].userEvents <= states[n].copies
  {
    if n > 0 {
      CopiesCoverEvents(states, steps, hash, n - 1);
    }
  }

  /**
   * Main result: no broadcast loop. At every point of every run, among any number of devices and for
   * any hash function, there have been at most as many broadcasts as change events caused by users -
   * counting already those the pending ones may still cause - and so at most as many as user copies if
   * none of these causes more than one event.
   */
  lemma NoBroadcastLoop(states: seq<System>, steps: seq<Step>, hash: string -> nat, n: nat)
    requires IsRun(states, steps, hash) && n <= |steps|
    ensures states[n].broadcasts + TotalPotential(states[n].devs) <= states[n].userEvents
    ensures (forall i :: 0 <= i < n && steps[i].UserCopy? ==> steps[i].events <= 1) ==>
              states[n].broadcasts + TotalPotential(states[n].devs) <= states[n].copies
  {
    RunsStaySound(states, steps, hash, n);
    if forall i :: 0 <= i < n && steps[i].UserCopy? ==> steps[i].events <= 1 {
      CopiesCoverEvents(states, steps, hash, n);
    }
  }

  // ---------------------------------------------------------------- no copy is lost for long

  /** How many suppressions step n arms at device d: those of the write it lets through, if any. */
  ghost function ArmedBy(states: seq<System>, steps: seq<Step>, d: nat, n: nat): nat
    requires n < |steps| && n < |states|
  {
    match steps[n]
    case Receive(e, m, reuse, io, _) =>
      if e == d < |states[n].devs| && Heard(states[n].devs[d], m, reuse, states[n].now) then Arming(PasteJob(m.kind), io) else 0
    case HotkeyWrite(e, _, job, io, _) => if e == d then Arming(job, io) else 0
    case _ => 0
  }

  /** How many device d's writes armed before step n, and when they last did. */
  ghost function Armed(states: seq<System>, steps: seq<Step>, d: nat, n: nat): nat
    requires n <= |steps| < |states|
  {
    if n == 0 then 0 else Armed(states, steps, d, n - 1) + ArmedBy(states, steps, d, n - 1)
  }

  ghost function LastArmed(states: seq<System>, steps: seq<Step>, d: nat, n: nat): Time
    requires n <= |steps| < |states|
  {
    if n == 0 then 0
    else if ArmedBy(states, steps, d, n - 1) > 0 then states[n - 1].now
    else LastArmed(states, steps, d, n - 1)
  }

  /** Step n is a change event at d with another content than the last one seen, and the monitor drops it. */
  ghost predicate Swallows(states: seq<System>, steps: seq<Step>, hash: string -> nat, d: nat, n: nat)
    requires IsRun(states, steps, hash) && n < |steps|
  {
    steps[n].ChangeEvent? && steps[n].d == d &&
    var mon := states[n].devs[d].mon;
    hash(steps[n].payload) != mon.lastHash && !Changed(mon, hash(steps[n].payload), states[n].now).emits
  }

  ghost function CountSwallowed(states: seq<System>, steps: seq<Step>, hash: string -> nat, d: nat, n: nat): nat
    requires IsRun(states, steps, hash) && n <= |steps|
  {
    if n == 0 then 0
    else CountSwallowed(states, steps, hash, d, n - 1) + if Swallows(states, steps, hash, d, n - 1) then 1 else 0
  }

  /** What one step does to a device's suppressions. */
  lemma StepArms(states: seq<System>, steps: seq<Step>, hash: string -> nat, d: nat, n: nat)
    requires IsRun(states, steps, hash) && n < |steps| && d < |states[n].devs| && states[n].devs[d].mon.suppressedEdits >= 0
    ensures d < |states[n + 1].devs| && states[n].now <= states[n + 1].now
    ensures var before, after := states[n].devs[d].mon, states[n + 1].devs[d].mon;
            var armed := ArmedBy(states, steps, d, n);
            && after.suppressedAt == (if armed > 0 then states[n].now else before.suppressedAt)
            && 0 <= after.suppressedEdits <= before.suppressedEdits + armed - if Swallows(states, steps, hash, d, n) then 1 else 0
  {
    hide Pasted, Done, Captured, Changed, Heard;
    var s, step := states[n], steps[n];
    assert states[n + 1] == Next(s, step, hash);
    match step
    case ChangeEvent(e, _, _, payload, _, _, _) => EmittedIff(s.devs[e].mon, hash(payload), s.now);
    case Receive(e, m, reuse, io, events) =>
      WriteArmsExactly(s.devs[e].mon, hash(m.payload), PasteJob(m.kind), io, s.now);
      PasteIsJob(s.devs[e].mon, hash(m.payload), m.kind, io, s.now);
    case HotkeyWrite(e, payload, job, io, events) => WriteArmsExactly(s.devs[e].mon, hash(payload), job, io, s.now);
    case _ =>
  }

  lemma PasteIsJob(s: State, hash: nat, kind: Kind, io: WriteIO, now: Time)
    ensures Done(s, hash, PasteJob(kind), io, now) == Pasted(s, hash, kind, io, now)
  {
  }

  /** Suppressions left and captures swallowed so far never exceed what writes armed. */
  lemma {:induction false} SwallowedAreArmed(states: seq<System>, steps: seq<Step>, hash: string -> nat, d: nat, n: nat)
    requires IsRun(states, steps, hash) && n <= |steps| && d < |states[0].devs|
    ensures d < |states[n].devs| && states[n].devs[d].mon.suppressedEdits >= 0
    ensures CountSwallowed(states, steps, hash, d, n) + states[n].devs[d].mon.suppressedEdits <= Armed(states, steps, d, n)
    ensures states[n].devs[d].mon.suppressedAt == LastArmed(states, steps, d, n)
  {
    hide Next, ArmedBy, Swallows;
    if n > 0 {
      SwallowedAreArmed(states, steps, hash, d, n - 1);
      StepArms(states, steps, hash, d, n - 1);
    }
  }

  /**
   * Main result, the other half: in every run the differing captures a device's monitor swallows are no
   * more than the suppressions its writes armed, and a capture more than five seconds after the last of
   * these writes is emitted whenever it differs from the last one seen.
   */
  lemma CopiesGetThrough(states: seq<System>, steps: seq<Step>, hash: string -> nat, d: nat, n: nat)
    requires IsRun(states, steps, hash) && n < |steps| && d < |states[0].devs|
    ensures CountSwallowed(states, steps, hash, d, n) <= Armed(states, steps, d, n)
    ensures d < |states[n].devs|
    ensures steps[n].ChangeEvent? && steps[n].d == d
            && LastArmed(states, steps, d, n) + FIVE_SECONDS < states[n].now ==>
              (Changed(states[n].devs[d].mon, hash(steps[n].payload), states[n].now).emits
               <==> hash(steps[n].payload) != states[n].devs[d].mon.lastHash)
  {
    hide Next, Changed, Armed, CountSwallowed, LastArmed;
    SwallowedAreArmed(states, steps, hash, d, n);
    if steps[n].ChangeEvent? && steps[n].d == d {
      EmittedIff(states[n].devs[d].mon, hash(steps[n].payload), states[n].now);
      QuietMeansNone(states, steps, hash, d, n);
    }
  }

  /** With nothing armed yet there is nothing to swallow with. */
  lemma {:induction false} QuietMeansNone(states: seq<System>, steps: seq<Step>, hash: string -> nat, d: nat, n: nat)
    requires IsRun(states, steps, hash) && n <= |steps| && d < |states[0].devs|
    ensures states[n].now > 0 && (LastArmed(states, steps, d, n) == 0 ==> Armed(states, steps, d, n) == 0)
  {
    hide ArmedBy, Enabled, Next;
    if n > 0 {
      QuietMeansNone(states, steps, hash, d, n - 1);
      TimeGoesOn(states[n - 1], steps[n - 1], hash);
    }
  }

  lemma TimeGoesOn(s: System, step: Step, hash: string -> nat)
    requires Enabled(s, step, hash)
    ensures s.now <= Next(s, step, hash).now
  {
    hide Changed, Done, Pasted;
  }

  /** An emitted capture is broadcast exactly unless its twin just was, a replay write is recognised, or sending fails. */
  lemma BroadcastIff(s: System, step: Step, hash: string -> nat)
    requires Enabled(s, step, hash) && step.ChangeEvent?
    ensures var dev := s.devs[step.d];
            var g := dev.guards;
            Next(s, step, hash).broadcasts == s.broadcasts + 1 <==>
              && step.sendOK
              && hash(step.payload) != dev.mon.lastHash && !Covered(dev.mon, s.now)
              && !(g.sendKey == step.key && s.now - g.sendTime < SEND_WINDOW)
              && !(step.matches && g.replayTime != 0 && s.now - g.replayTime <= FIVE_SECONDS)
    ensures Next(s, step, hash).broadcasts == s.broadcasts + 1 ==>
              Next(s, step, hash).net == s.net + {Message(step.kind, step.payload, s.devs[step.d].session)}
  {
  }

  /**
   * A message is written exactly when it is a text or a readable image, comes from another session or from
   * none, is no echo of the history and no twin of the one before; otherwise the clipboard is left alone.
   */
  lemma WrittenIff(s: System, step: Step, hash: string -> nat)
    requires Enabled(s, step, hash) && step.Receive?
    ensures var d := step.d;
            var m := step.m;
            var before, after := s.devs[d], Next(s, step, hash).devs[d];
            var twin := before.guards.recvKey == Key(m.kind, m.payload) && s.now - before.guards.recvTime < RECEIVE_WINDOW;
            var written := && (m.kind == TextKind || (m.kind == ImageKind && step.io.decodeOK))
                           && (m.source == "" || m.source != before.session) && !step.reuse && !twin;
            && after.mon == (if written then State(hash(m.payload), before.mon.suppressedEdits + Arming(PasteJob(m.kind), step.io), s.now)
                             else before.mon)
            && after.programPending == before.programPending + (if written then step.events else 0)
            && after.guards == (if twin then before.guards
                                else before.guards.(recvKey := Key(m.kind, m.payload), recvTime := s.now))
            && after.userPending == before.userPending && after.session == before.session
  {
    hide Key;
  }

  /** A hotkey's write is remembered for its own capture; it arms and causes events as far as it reaches the clipboard. */
  lemma HotkeyArms(s: System, step: Step, hash: string -> nat)
    requires Enabled(s, step, hash) && step.HotkeyWrite?
    ensures var before, after := s.devs[step.d], Next(s, step, hash).devs[step.d];
            var armed := Arming(step.job, step.io);
            && after.guards == before.guards.(replayTime := s.now)
            && after.mon == (if armed > 0 then State(hash(step.payload), before.mon.suppressedEdits + armed, s.now) else before.mon)
            && after.programPending == before.programPending + (if Reaches(step.job, step.io) then step.events else 0)
            && after.userPending == before.userPending && after.session == before.session
  {
  }

  // ---------------------------------------------------------------- one message over two channels

  /** Step n lets a received message be written to device d's clipboard. */
  ghost predicate WritesReceipt(states: seq<System>, steps: seq<Step>, hash: string -> nat, n: nat)
    requires IsRun(states, steps, hash) && n < |steps|
  {
    steps[n].Receive? &&
    var r := steps[n];
    Delivered(states[n].devs[r.d], r.m, r.reuse, hash, r.io, r.events, states[n].now).wrote
  }

  /** A message of any type, also of a file transfer, comes in at device d. */
  predicate Arrives(step: Step, d: nat) {
    (step.Receive? || step.OtherMessage?) && step.d == d
  }

  lemma {:induction false} GuardStays(states: seq<System>, steps: seq<Step>, hash: string -> nat, d: nat, i: nat, n: nat)
    requires IsRun(states, steps, hash) && i <= n <= |steps| && d < |states[i].devs|
    requires forall j :: i <= j < n ==> !Arrives(steps[j], d)
    ensures d < |states[n].devs| && states[i].now <= states[n].now
    ensures states[n].devs[d].guards.recvKey == states[i].devs[d].guards.recvKey
    ensures states[n].devs[d].guards.recvTime == states[i].devs[d].guards.recvTime
  {
    if i < n {
      GuardStays(states, steps, hash, d, i, n - 1);
      StepKeepsGuard(states[n - 1], steps[n - 1], hash, d);
    }
  }

  lemma StepKeepsGuard(s: System, step: Step, hash: string -> nat, d: nat)
    requires Enabled(s, step, hash) && d < |s.devs| && !Arrives(step, d)
    ensures var s' := Next(s, step, hash);
            && d < |s'.devs| && s.now <= s'.now
            && s'.devs[d].guards.recvKey == s.devs[d].guards.recvKey && s'.devs[d].guards.recvTime == s.devs[d].guards.recvTime
  {
    hide Changed, Done;
  }

  /**
   * The same message arriving twice at a device within half a second - over both channels, say - with no
   * other message arriving there in between, is written at most once.
   */
  lemma TwiceReceivedWrittenOnce(states: seq<System>, steps: seq<Step>, hash: string -> nat, i: nat, j: nat)
    requires IsRun(states, steps, hash) && i < j < |steps| && steps[i].Receive? && steps[j].Receive?
    requires steps[j].d == steps[i].d && steps[j].m.kind == steps[i].m.kind && steps[j].m.payload == steps[i].m.payload
    requires forall k :: i < k < j ==> !Arrives(steps[k], steps[i].d)
    requires states[j].now - states[i].now < RECEIVE_WINDOW
    ensures !(WritesReceipt(states, steps, hash, i) && WritesReceipt(states, steps, hash, j))
  {
    hide Pasted, Key;
    var d := steps[i].d;
    if WritesReceipt(states, steps, hash, i) {
      GuardStays(states, steps, hash, d, i + 1, j);
      assert states[i + 1] == Next(states[i], steps[i], hash);
      assert states[i + 1].devs[d].guards.recvTime == states[i].now;
    }
  }

  // ---------------------------------------------------------------- the bound is the right one

  /**
   * The bound is reached, and only as a count: here two devices make two copies and two broadcasts, but
   * the second broadcast is the first text again, sent back by a device whose user copied another one.
   * That user's own change event was seen first and used up the suppression.
   */
  lemma UserCopyLetsAnEchoThrough(hash: string -> nat) returns (states: seq<System>, steps: seq<Step>)
    requires hash("x") != hash("y") && hash("x") != 0
    ensures IsRun(states, steps, hash)
    ensures var last := states[|steps|];
            && last.copies == 2 && last.broadcasts == 2
            && last.net == {Message(TextKind, "x", "A"), Message(TextKind, "x", "B")}
  {
    hide IsRun, Next, Enabled;
    var s0 := System([Idle("A"), Idle("B")], {}, 1, 0, 0, 0);
    steps := [UserCopy(0, 1), ChangeEvent(0, true, TextKind, "x", "kx", false, true),
              Receive(1, Message(TextKind, "x", "A"), false, WriteIO(true, false, true), 1),
              UserCopy(1, 1), ChangeEvent(1, true, TextKind, "y", "ky", false, true), ChangeEvent(1, false, TextKind, "x", "kx", false, true)];
    var s1, s2 := FirstCopyGoesOut(s0, steps[0], steps[1], hash);
    var s3 := SecondDeviceWrites(s2, steps[2], hash);
    var s4, s5, s6 := EchoGoesOut(s3, steps[3], steps[4], steps[5], hash);
    states := [s0, s1, s2, s3, s4, s5, s6];
    SixSteps(states, steps, hash);
  }

  function Idle(session: string): Device {
    Device(State(0, 0, 0), Guards("", 0, "", 0, 0), session, 0, 0)
  }

  lemma FirstCopyGoesOut(s0: System, copy: Step, event: Step, hash: string -> nat) returns (s1: System, s2: System)
    requires s0 == System([Idle("A"), Idle("B")], {}, 1, 0, 0, 0) && hash("x") != 0
    requires copy == UserCopy(0, 1) && event == ChangeEvent(0, true, TextKind, "x", "kx", false, true)
    ensures Enabled(s0, copy, hash) && s1 == Next(s0, copy, hash) && Enabled(s1, event, hash) && s2 == Next(s1, event, hash)
    ensures |s2.devs| == 2 && s2.devs[1] == Idle("B") && s2.net == {Message(TextKind, "x", "A")}
    ensures s2.now == 1 && s2.copies == 1 && s2.broadcasts == 1
  {
    s1 := Next(s0, copy, hash);
    s2 := Next(s1, event, hash);
  }

  lemma SecondDeviceWrites(s2: System, receipt: Step, hash: string -> nat) returns (s3: System)
    requires |s2.devs| == 2 && s2.devs[1] == Idle("B") && s2.net == {Message(TextKind, "x", "A")} && s2.now == 1
    requires receipt == Receive(1, Message(TextKind, "x", "A"), false, WriteIO(true, false, true), 1)
    ensures Enabled(s2, receipt, hash) && s3 == Next(s2, receipt, hash)
    ensures |s3.devs| == 2 && s3.devs[1].mon == State(hash("x"), 1, 1) && s3.devs[1].programPending == 1
    ensures s3.devs[1].session == "B" && s3.devs[1].userPending == 0 && s3.devs[1].guards.sendKey == ""
    ensures s3.devs[1].guards.replayTime == 0
    ensures s3.net == s2.net && s3.now == 1 && s3.copies == s2.copies && s3.broadcasts == s2.broadcasts
  {
    s3 := Next(s2, receipt, hash);
  }

  lemma EchoGoesOut(s3: System, copy: Step, event: Step, echo: Step, hash: string -> nat) returns (s4: System, s5: System, s6: System)
    requires |s3.devs| == 2 && s3.devs[1].mon == State(hash("x"), 1, 1) && s3.devs[1].programPending == 1
    requires s3.devs[1].session == "B" && s3.devs[1].userPending == 0 && s3.devs[1].guards.sendKey == ""
    requires s3.devs[1].guards.replayTime == 0 && s3.now == 1 && hash("x") != hash("y")
    requires copy == UserCopy(1, 1) && event == ChangeEvent(1, true, TextKind, "y", "ky", false, true)
    requires echo == ChangeEvent(1, false, TextKind, "x", "kx", false, true)
    ensures Enabled(s3, copy, hash) && s4 == Next(s3, copy, hash) && Enabled(s4, event, hash) && s5 == Next(s4, event, hash)
    ensures Enabled(s5, echo, hash) && s6 == Next(s5, echo, hash)
    ensures s6.copies == s3.copies + 1 && s6.broadcasts == s3.broadcasts + 1
    ensures s6.net == s3.net + {Message(TextKind, "x", "B")}
  {
    s4 := Next(s3, copy, hash);
    s5 := Next(s4, event, hash);
    assert s5.devs[1].mon == State(hash("y"), 0, 1) && s5.broadcasts == s3.broadcasts;
    s6 := Next(s5, echo, hash);
  }

  lemma SixSteps(states: seq<System>, steps: seq<Step>, hash: string -> nat)
    requires |steps| == 6 && |states| == 7 && Fresh(states[0])
    requires Enabled(states[0], steps[0], hash) && states[1] == Next(states[0], steps[0], hash)
    requires Enabled(states[1], steps[1], hash) && states[2] == Next(states[1], steps[1], hash)
    requires Enabled(states[2], steps[2], hash) && states[3] == Next(states[2], steps[2], hash)
    requires Enabled(states[3], steps[3], hash) && states[4] == Next(states[3], steps[3], hash)
    requires Enabled(states[4], steps[4], hash) && states[5] == Next(states[4], steps[4], hash)
    requires Enabled(states[5], steps[5], hash) && states[6] == Next(states[5], steps[5], hash)
    ensures IsRun(states, steps, hash)
  {
    hide Next, Enabled, Fresh;
  }
}

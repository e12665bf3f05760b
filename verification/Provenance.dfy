/** Sender and receiver composed over whole runs: where the bytes that land come from. */
module Provenance {
  import opened Wrappers
  import opened Archive
  import Outgoing = OutgoingArchive
  import Sending = OutgoingRuns
  import Receiver
  import Facts = TransferFacts

  /** The archives built in a run of the sender. */
  ghost function BuiltIn(s: Sending.Sys, events: seq<Sending.Event>): set<string>
    decreases |events|
  {
    if events == [] then {} else BuiltBy(s, events[0]) + BuiltIn(Sending.Step(s, events[0]), events[1..])
  }

  function BuiltBy(s: Sending.Sys, e: Sending.Event): set<string> {
    match Sending.ChangeOf(s, e)
    case Built(content) => {content}
    case _ => {}
  }

  /** A hash that is unset or that of an archive built. */
  predicate KnownSha(sha: Digest, built: set<string>) {
    sha == Outgoing.NO_SHA || (sha.Sha256? && sha.of in built)
  }

  /** The fields and every announced completion name archives built so far, or nothing. */
  predicate Known(s: Sending.Sys, built: set<string>) {
    && KnownSha(s.t.sha, built)
    && forall i :: 0 <= i < |s.sends| && s.sends[i].phase.Announced? ==> KnownSha(s.sends[i].phase.message.sha, built)
  }

  /** The hash after any step: kept, cleared, or that of the archive the step built. */
  lemma StepSha(s: Sending.Sys, e: Sending.Event)
    ensures Sending.Step(s, e).t.sha in {s.t.sha, Outgoing.NO_SHA, Sending.ShaAfter(s.t.sha, Sending.ChangeOf(s, e))}
  {
    hide Outgoing.Prepared;
    if e.Prepare? {
      Sending.PreparedSha(s.t, e.env);
    }
  }

  lemma StepAnnounces(s: Sending.Sys, e: Sending.Event, i: nat)
    requires i < |Sending.Step(s, e).sends| && Sending.Step(s, e).sends[i].phase.Announced?
    ensures var m := Sending.Step(s, e).sends[i].phase.message;
            m.sha == s.t.sha || (i < |s.sends| && s.sends[i].phase.Announced? && m == s.sends[i].phase.message)
  {
    hide Outgoing.Prepared;
  }

  lemma StepKnown(s: Sending.Sys, e: Sending.Event, built: set<string>)
    requires Known(s, built)
    ensures Known(Sending.Step(s, e), built + BuiltBy(s, e))
  {
    hide Sending.Step;
    StepSha(s, e);
    var s' := Sending.Step(s, e);
    forall i | 0 <= i < |s'.sends| && s'.sends[i].phase.Announced?
      ensures KnownSha(s'.sends[i].phase.message.sha, built + BuiltBy(s, e))
    {
      StepAnnounces(s, e, i);
    }
  }

  lemma {:induction false} RunKnown(s: Sending.Sys, events: seq<Sending.Event>, built: set<string>)
    requires Known(s, built)
    ensures Known(Sending.After(s, events), built + BuiltIn(s, events))
    decreases |events|
  {
    hide Sending.Step, Known, BuiltBy;
    if events == [] {
      assert built + {} == built;
    } else {
      StepKnown(s, events[0], built);
      RunKnown(Sending.Step(s, events[0]), events[1..], built + BuiltBy(s, events[0]));
      assert built + BuiltBy(s, events[0]) + BuiltIn(Sending.Step(s, events[0]), events[1..]) == built + BuiltIn(s, events);
    }
  }

  /** BuiltIn means what it says: some step of the run built that archive. */
  lemma {:induction false} BuiltInIsReal(s: Sending.Sys, events: seq<Sending.Event>, content: string) returns (j: nat)
    requires content in BuiltIn(s, events)
    ensures j < |events| && Sending.ChangeOf(Sending.After(s, events[..j]), events[j]) == Sending.Built(content)
    decreases |events|
  {
    hide Sending.Step, Sending.ChangeOf;
    var next := Sending.Step(s, events[0]);
    if content in BuiltBy(s, events[0]) {
      j := 0;
    } else {
      var k := BuiltInIsReal(next, events[1..], content);
      j := k + 1;
      assert events[..j][0] == events[0] && events[..j][1..] == events[1..][..k];
    }
  }

  /**
   * Main result: after any run of the sender, whatever its handlers, timers and releases did, and in any
   * state of a receiver, whatever chunks reached it: if a raw transfer closes on a completion the sender
   * announced, what lies at its target is an archive this sender built in that run.
   */
  lemma ClosedTransferIsABuiltArchive(events: seq<Sending.Event>, i: nat, w: Receiver.World, io: Receiver.CompleteIO, now: nat)
    returns (path: string, content: string)
    requires var s := Sending.After(Sending.START, events); i < |s.sends| && s.sends[i].phase.Announced?
    requires var m := Sending.After(Sending.START, events).sends[i].phase.message;
             Facts.ClosesNow(w, m, io, now) && w.inc.value.manifest.raw
    ensures content in BuiltIn(Sending.START, events)
    ensures var m := Sending.After(Sending.START, events).sends[i].phase.message;
            Receiver.CompleteStep(w, m, io, now).targets == w.targets[path := content]
  {
    hide Sending.After, Facts.ClosesNow, Receiver.CompleteStep;
    var m := Sending.After(Sending.START, events).sends[i].phase.message;
    RunKnown(Sending.START, events, {});
    assert {} + BuiltIn(Sending.START, events) == BuiltIn(Sending.START, events);
    path, content := Landed(w, m, io, now);
  }

  lemma Landed(w: Receiver.World, m: FileComplete, io: Receiver.CompleteIO, now: nat) returns (path: string, content: string)
    requires Facts.ClosesNow(w, m, io, now) && w.inc.value.manifest.raw
    ensures m.sha == Sha256(content) && Receiver.CompleteStep(w, m, io, now).targets == w.targets[path := content]
  {
    hide Receiver.CompleteStep, Facts.ClosesNow;
    Facts.RawSuccessDeliversTheArchive(w, m, io, now);
    assert w.inc.Some? by { Facts.ClosingIsTakenUp(w, m, io, now); }
    var p, c :| Facts.Delivered(w, Receiver.CompleteStep(w, m, io, now), m, io, p, c);
    path, content := p, c;
  }
}

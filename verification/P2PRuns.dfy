/**
 * Every stream of packets a receiver can see: fragments of many messages with distinct ids,
 * interleaved, reordered, repeated and lost in any way.
 */
module P2PRuns {
  import opened Wrappers
  import opened P2P
  import opened Utf8

  // The messages on the way: id to payloads as decoded, none of them empty.
  type Messages = map<string, seq<string>>

  ghost predicate Sendable(ms: Messages) {
    forall id :: id in ms ==> ms[id] != [] && forall i :: 0 <= i < |ms[id]| ==> ms[id][i] != ""
  }

  // One arrival: fragment `index` of message `id`.
  datatype Arrival = Arrival(id: string, index: nat)

  ghost predicate FromSenders(stream: seq<Arrival>, ms: Messages) {
    forall k :: 0 <= k < |stream| ==> stream[k].id in ms && stream[k].index < |ms[stream[k].id]|
  }

  function PacketOf(a: Arrival, ms: Messages): Packet
    requires a.id in ms && a.index < |ms[a.id]|
  {
    Packet("", Some(Fragment(ms[a.id][a.index], a.id, a.index, |ms[a.id]|)))
  }

  /** The receiver's table after the stream, and the bodies delivered with the id they came under. */
  datatype Received = Received(receiving: map<string, seq<string>>, delivered: seq<(string, string)>, panicked: bool)

  function After(stream: seq<Arrival>, ms: Messages): Received
    requires FromSenders(stream, ms)
  {
    if stream == [] then Received(map[], [], false)
    else
      var before := After(stream[..|stream| - 1], ms);
      var a := stream[|stream| - 1];
      var out := OnPacket(before.receiving, PacketOf(a, ms));
      Received(out.receiving, before.delivered + if out.delivered.Some? then [(a.id, out.delivered.value)] else [],
               before.panicked || out.panicked)
  }

  function Arrivals(stream: seq<Arrival>, id: string, index: nat): nat {
    if stream == [] then 0
    else Arrivals(stream[..|stream| - 1], id, index) + if stream[|stream| - 1] == Arrival(id, index) then 1 else 0
  }

  function Deliveries(delivered: seq<(string, string)>, id: string): nat {
    if delivered == [] then 0
    else Deliveries(delivered[..|delivered| - 1], id) + if delivered[|delivered| - 1].0 == id then 1 else 0
  }

  // ---------------------------------------------------------------- the invariant

  /** Fragment `index` of the message is waiting in its slot. */
  predicate Waiting(r: map<string, seq<string>>, id: string, index: nat) {
    id in r && index < |r[id]| && r[id][index] != ""
  }

  /** Every slot is empty or holds its own fragment, and no message is complete. */
  ghost predicate SlotsRight(r: map<string, seq<string>>, ms: Messages) {
    forall id :: id in r ==>
      && id in ms && |r[id]| == |ms[id]| > 1 && !Complete(r[id])
      && forall i :: 0 <= i < |r[id]| ==> r[id][i] == "" || r[id][i] == ms[id][i]
  }

  ghost predicate BodiesRight(delivered: seq<(string, string)>, ms: Messages) {
    forall k :: 0 <= k < |delivered| ==> delivered[k].0 in ms && delivered[k].1 == Joined(ms[delivered[k].0])
  }

  /** One packet of a sender: the slots stay right, no panic, and what is delivered is the whole message. */
  lemma PacketKeepsSlots(r: map<string, seq<string>>, a: Arrival, ms: Messages)
    requires Sendable(ms) && SlotsRight(r, ms) && a.id in ms && a.index < |ms[a.id]|
    ensures var out := OnPacket(r, PacketOf(a, ms));
            && SlotsRight(out.receiving, ms) && !out.panicked
            && (out.delivered.Some? ==> out.delivered.value == Joined(ms[a.id]))
  {
    var total := |ms[a.id]|;
    if total == 1 {
      SinglePiece(ms[a.id]);
    } else {
      var slots := Slots(r, a.id, total);
      assert |slots| == total;
      var filled := slots[a.index := ms[a.id][a.index]];
      if Complete(filled) {
        assert filled == ms[a.id];
      }
    }
  }

  lemma SinglePiece(parts: seq<string>)
    requires |parts| == 1
    ensures Joined(parts) == parts[0]
  {
    assert parts[1..] == [];
    assert parts[0] + "" == parts[0];
  }

  /** What one packet does to one slot of one message, seen with whether that message was delivered. */
  lemma PacketAndSlot(r: map<string, seq<string>>, a: Arrival, ms: Messages, id: string, i: nat)
    requires Sendable(ms) && SlotsRight(r, ms) && a.id in ms && a.index < |ms[a.id]|
    requires id in ms && i < |ms[id]| && |ms[id]| > 1
    ensures var out := OnPacket(r, PacketOf(a, ms));
            var done := a.id == id && out.delivered.Some?;
            && (done ==> (Waiting(r, id, i) || a.index == i) && !Waiting(out.receiving, id, i))
            && (!done ==> (Waiting(out.receiving, id, i) <==> Waiting(r, id, i) || a == Arrival(id, i)))
  {
    if a.id == id {
      var slots := Slots(r, id, |ms[id]|);
      var filled := slots[a.index := ms[id][a.index]];
      assert filled[i] != "" <==> Waiting(r, id, i) || a.index == i;
    }
  }

  /** A message of several fragments is delivered exactly when every other fragment already waits. */
  lemma DeliversWhenLast(r: map<string, seq<string>>, a: Arrival, ms: Messages)
    requires Sendable(ms) && SlotsRight(r, ms) && a.id in ms && a.index < |ms[a.id]| && |ms[a.id]| > 1
    ensures OnPacket(r, PacketOf(a, ms)).delivered.Some? <==>
            forall i :: 0 <= i < |ms[a.id]| ==> Waiting(r, a.id, i) || a.index == i
  {
    var slots := Slots(r, a.id, |ms[a.id]|);
    assert |slots| == |ms[a.id]|;
    var filled := slots[a.index := ms[a.id][a.index]];
    assert forall i :: 0 <= i < |slots| ==> (filled[i] != "" <==> Waiting(r, a.id, i) || a.index == i);
  }

  // ---------------------------------------------------------------- whole streams

  lemma {:induction false} StreamsAreSafe(stream: seq<Arrival>, ms: Messages)
    requires Sendable(ms) && FromSenders(stream, ms)
    ensures SlotsRight(After(stream, ms).receiving, ms) && !After(stream, ms).panicked
    ensures BodiesRight(After(stream, ms).delivered, ms)
  {
    if stream != [] {
      StreamsAreSafe(stream[..|stream| - 1], ms);
      PacketKeepsSlots(After(stream[..|stream| - 1], ms).receiving, stream[|stream| - 1], ms);
    }
  }

  lemma DeliveriesStep(delivered: seq<(string, string)>, last: (string, string), id: string)
    ensures Deliveries(delivered + [last], id) == Deliveries(delivered, id) + if last.0 == id then 1 else 0
    ensures Deliveries(delivered + [], id) == Deliveries(delivered, id)
  {
    assert (delivered + [last])[..|delivered|] == delivered;
    assert delivered + [] == delivered;
  }

  /** The count one arrival adds. */
  lemma DeliveriesAfter(stream: seq<Arrival>, ms: Messages, id: string)
    requires FromSenders(stream, ms) && stream != []
    ensures var before := After(stream[..|stream| - 1], ms);
            var a := stream[|stream| - 1];
            var out := OnPacket(before.receiving, PacketOf(a, ms));
            Deliveries(After(stream, ms).delivered, id)
            == Deliveries(before.delivered, id) + if a.id == id && out.delivered.Some? then 1 else 0
  {
    var before := After(stream[..|stream| - 1], ms);
    DeliveriesStep(before.delivered, (stream[|stream| - 1].id, ""), id);
    var out := OnPacket(before.receiving, PacketOf(stream[|stream| - 1], ms));
    if out.delivered.Some? {
      DeliveriesStep(before.delivered, (stream[|stream| - 1].id, out.delivered.value), id);
    }
  }

  /**
   * Main result: whatever the order and the repeats, every body delivered is a whole message, and no
   * message is delivered more often than any one of its fragments arrived.
   */
  lemma {:induction false} NeverMoreThanArrived(stream: seq<Arrival>, ms: Messages, id: string, i: nat)
    requires Sendable(ms) && FromSenders(stream, ms) && id in ms && i < |ms[id]|
    ensures BodiesRight(After(stream, ms).delivered, ms)
    ensures Deliveries(After(stream, ms).delivered, id) + (if Waiting(After(stream, ms).receiving, id, i) then 1 else 0)
            <= Arrivals(stream, id, i)
  {
    hide OnPacket, BodiesRight, Waiting;
    StreamsAreSafe(stream, ms);
    if stream != [] {
      var front := stream[..|stream| - 1];
      NeverMoreThanArrived(front, ms, id, i);
      StreamsAreSafe(front, ms);
      DeliveriesAfter(stream, ms, id);
      var r := After(front, ms).receiving;
      if |ms[id]| > 1 {
        PacketAndSlot(r, stream[|stream| - 1], ms, id, i);
      } else {
        SingleIsNeverWaiting(r, ms, id, i);
        SingleIsNeverWaiting(After(stream, ms).receiving, ms, id, i);
        SingleDelivers(r, stream[|stream| - 1], ms);
      }
    } else {
      NothingWaits(id, i);
    }
  }

  lemma NothingWaits(id: string, i: nat)
    ensures !Waiting(map[], id, i)
  {
  }

  lemma SingleIsNeverWaiting(r: map<string, seq<string>>, ms: Messages, id: string, i: nat)
    requires SlotsRight(r, ms) && id in ms && |ms[id]| <= 1
    ensures !Waiting(r, id, i)
  {
  }

  lemma SingleDelivers(r: map<string, seq<string>>, a: Arrival, ms: Messages)
    requires a.id in ms && a.index < |ms[a.id]|
    ensures |ms[a.id]| == 1 ==> OnPacket(r, PacketOf(a, ms)).delivered.Some?
  {
  }

  ghost predicate AllArrived(stream: seq<Arrival>, ms: Messages, id: string)
    requires id in ms
  {
    forall i :: 0 <= i < |ms[id]| ==> Arrivals(stream, id, i) >= 1
  }

  ghost predicate RepeatFree(stream: seq<Arrival>) {
    forall j, k :: 0 <= j < k < |stream| ==> stream[j] != stream[k]
  }

  lemma {:induction false} RepeatFreeArrivals(stream: seq<Arrival>, id: string, i: nat)
    requires RepeatFree(stream)
    ensures Arrivals(stream, id, i) == if Arrival(id, i) in stream then 1 else 0
  {
    if stream != [] {
      var front := stream[..|stream| - 1];
      RepeatFreeArrivals(front, id, i);
      assert stream == front + [stream[|stream| - 1]];
    }
  }

  /** The state of one message in a repeat-free stream: delivered once all arrived, else arrivals wait. */
  ghost predicate OnTrack(stream: seq<Arrival>, ms: Messages, id: string)
    requires FromSenders(stream, ms) && id in ms
  {
    var got := After(stream, ms);
    && Deliveries(got.delivered, id) == (if AllArrived(stream, ms, id) then 1 else 0)
    && (!AllArrived(stream, ms, id) ==>
          forall i :: 0 <= i < |ms[id]| ==> (Waiting(got.receiving, id, i) <==> Arrivals(stream, id, i) >= 1))
  }

  /**
   * Main result: a repeat-free stream delivers each message exactly once, and - the same statement read
   * for every prefix - exactly when its last missing fragment arrives.
   */
  lemma {:induction false} RepeatFreeDeliversOnce(stream: seq<Arrival>, ms: Messages, id: string)
    requires Sendable(ms) && FromSenders(stream, ms) && RepeatFree(stream) && id in ms
    ensures OnTrack(stream, ms, id)
  {
    if stream == [] {
      assert Arrivals(stream, id, 0) == 0;
    } else {
      var front, a := stream[..|stream| - 1], stream[|stream| - 1];
      RepeatFreeDeliversOnce(front, ms, id);
      StreamsAreSafe(front, ms);
      DeliveriesAfter(stream, ms, id);
      if a.id != id {
        OtherMessage(stream, ms, id);
      } else if |ms[id]| == 1 {
        SingleOnTrack(stream, ms, id);
      } else {
        ManyOnTrack(stream, ms, id);
      }
    }
  }

  lemma OtherMessage(stream: seq<Arrival>, ms: Messages, id: string)
    requires Sendable(ms) && FromSenders(stream, ms) && stream != [] && id in ms && stream[|stream| - 1].id != id
    requires OnTrack(stream[..|stream| - 1], ms, id)
    requires SlotsRight(After(stream[..|stream| - 1], ms).receiving, ms)
    requires Deliveries(After(stream, ms).delivered, id) == Deliveries(After(stream[..|stream| - 1], ms).delivered, id)
    ensures OnTrack(stream, ms, id)
  {
    hide Deliveries;
    var front, a := stream[..|stream| - 1], stream[|stream| - 1];
    assert forall i :: 0 <= i < |ms[id]| ==> Arrivals(stream, id, i) == Arrivals(front, id, i);
    var r := After(front, ms).receiving;
    var out := OnPacket(r, PacketOf(a, ms)).receiving;
    assert forall i :: 0 <= i < |ms[id]| ==> (Waiting(out, id, i) <==> Waiting(r, id, i));
  }

  lemma SingleOnTrack(stream: seq<Arrival>, ms: Messages, id: string)
    requires Sendable(ms) && FromSenders(stream, ms) && RepeatFree(stream) && stream != []
    requires stream[|stream| - 1].id == id && |ms[id]| == 1
    requires OnTrack(stream[..|stream| - 1], ms, id)
    requires Deliveries(After(stream, ms).delivered, id) == Deliveries(After(stream[..|stream| - 1], ms).delivered, id) + 1
    ensures OnTrack(stream, ms, id)
  {
    hide After, Deliveries;
    var front, a := stream[..|stream| - 1], stream[|stream| - 1];
    assert a == Arrival(id, 0);
    RepeatFreeArrivals(front, id, 0);
    assert a !in front;
    assert Arrivals(front, id, 0) == 0 && Arrivals(stream, id, 0) == 1;
    assert AllArrived(stream, ms, id);
  }

  lemma ManyOnTrack(stream: seq<Arrival>, ms: Messages, id: string)
    requires Sendable(ms) && FromSenders(stream, ms) && RepeatFree(stream) && stream != []
    requires stream[|stream| - 1].id == id && |ms[id]| > 1
    requires OnTrack(stream[..|stream| - 1], ms, id)
    requires SlotsRight(After(stream[..|stream| - 1], ms).receiving, ms)
    requires var r := After(stream[..|stream| - 1], ms);
             Deliveries(After(stream, ms).delivered, id) == Deliveries(r.delivered, id)
               + if OnPacket(r.receiving, PacketOf(stream[|stream| - 1], ms)).delivered.Some? then 1 else 0
    ensures OnTrack(stream, ms, id)
  {
    var front, a := stream[..|stream| - 1], stream[|stream| - 1];
    var r := After(front, ms).receiving;
    RepeatFreeArrivals(front, id, a.index);
    assert a !in front;
    assert !AllArrived(front, ms, id) by {
      assert Arrivals(front, id, a.index) == 0;
    }
    forall i | 0 <= i < |ms[id]|
      ensures Arrivals(stream, id, i) >= 1 <==> Waiting(r, id, i) || a.index == i
    {
      assert Waiting(r, id, i) <==> Arrivals(front, id, i) >= 1;
    }
    DeliversWhenLast(r, a, ms);
    forall i | 0 <= i < |ms[id]| && !AllArrived(stream, ms, id)
      ensures Waiting(After(stream, ms).receiving, id, i) <==> Arrivals(stream, id, i) >= 1
    {
      PacketAndSlot(r, a, ms, id, i);
    }
  }

  // ---------------------------------------------------------------- sent texts

  /** Payloads of these texts as their fragments carry them. */
  function Carried(texts: map<string, string>): Messages {
    map id | id in texts :: ViaJsonAll(Pieces(texts[id]))
  }

  lemma CarriedIsSendable(texts: map<string, string>)
    requires forall id :: id in texts ==> texts[id] != ""
    ensures Sendable(Carried(texts))
  {
    forall id, i | id in texts && 0 <= i < |Pieces(texts[id])|
      ensures ViaJson(Pieces(texts[id])[i]) != ""
    {
      assert Pieces(texts[id])[i] in Pieces(texts[id]);
      JsonExactIffValid(Pieces(texts[id])[i]);
    }
  }

  // ---------------------------------------------------------------- from Send to delivery

  /** The receiver after a stream of fragments, each with the message that carried it. */
  function FragmentsAfter(stream: seq<Fragment>): Received {
    if stream == [] then Received(map[], [], false)
    else
      var before := FragmentsAfter(stream[..|stream| - 1]);
      var f := stream[|stream| - 1];
      var out := OnPacket(before.receiving, Packet("", Some(f)));
      Received(out.receiving, before.delivered + if out.delivered.Some? then [(f.id, out.delivered.value)] else [],
               before.panicked || out.panicked)
  }

  /** Every fragment is one that Send cuts out of the text with that id. */
  ghost predicate Emitted(stream: seq<Fragment>, texts: map<string, string>) {
    forall k :: 0 <= k < |stream| ==> stream[k].id in texts && stream[k] in AllOf(texts[stream[k].id], stream[k].id)
  }

  function ArrivalOf(f: Fragment): Arrival {
    Arrival(f.id, if f.index < 0 then 0 else f.index)
  }

  function ArrivalsOf(stream: seq<Fragment>): seq<Arrival> {
    seq(|stream|, k requires 0 <= k < |stream| => ArrivalOf(stream[k]))
  }

  /** A fragment of Send is the packet its number promises. */
  lemma FragmentIsPacket(f: Fragment, texts: map<string, string>)
    requires f.id in texts && f in AllOf(texts[f.id], f.id)
    ensures f.id in Carried(texts)
    ensures 0 <= f.index < |Carried(texts)[f.id]| && PacketOf(ArrivalOf(f), Carried(texts)) == Packet("", Some(f))
    ensures f == AllOf(texts[f.id], f.id)[f.index]
  {
  }

  lemma {:induction false} FragmentsAreArrivals(stream: seq<Fragment>, texts: map<string, string>)
    requires Emitted(stream, texts)
    ensures FromSenders(ArrivalsOf(stream), Carried(texts))
    ensures FragmentsAfter(stream) == After(ArrivalsOf(stream), Carried(texts))
  {
    hide OnPacket, AllOf, Carried, PacketOf;
    if stream != [] {
      var front, f := stream[..|stream| - 1], stream[|stream| - 1];
      FragmentsAreArrivals(front, texts);
      FragmentIsPacket(f, texts);
      var all := ArrivalsOf(stream);
      assert all[..|all| - 1] == ArrivalsOf(front);
      forall k | 0 <= k < |all|
        ensures all[k].id in Carried(texts) && all[k].index < |Carried(texts)[all[k].id]|
      {
        FragmentIsPacket(stream[k], texts);
      }
    }
  }

  /**
   * Main result: from any interleaving, reordering, repetition and loss of what Send cuts out of valid
   * texts whose cuts fall on code point boundaries - all ASCII texts among them - every body delivered
   * is the text sent under that id.
   */
  lemma DeliveredAsSent(stream: seq<Fragment>, texts: map<string, string>)
    requires forall id :: id in texts ==> texts[id] != "" && ValidUtf8(texts[id]) && CutsOnBoundaries(texts[id])
    requires Emitted(stream, texts)
    ensures var got := FragmentsAfter(stream).delivered;
            forall k :: 0 <= k < |got| ==> got[k].0 in texts && got[k].1 == texts[got[k].0]
  {
    hide After, FragmentsAfter, Carried, CutsOnBoundaries, ValidUtf8;
    CarriedIsSendable(texts);
    FragmentsAreArrivals(stream, texts);
    StreamsAreSafe(ArrivalsOf(stream), Carried(texts));
    var got := FragmentsAfter(stream).delivered;
    forall k | 0 <= k < |got|
      ensures got[k].0 in texts && got[k].1 == texts[got[k].0]
    {
      CarriedBodies(texts, got[k].0);
      ExactIffCutsOnBoundaries(texts[got[k].0]);
    }
  }

  lemma CarriedBodies(texts: map<string, string>, id: string)
    requires id in Carried(texts)
    ensures id in texts && Carried(texts)[id] == ViaJsonAll(Pieces(texts[id]))
  {
  }

  /**
   * Main result: a stream of fragments of Send without repeats, in any order and mixed with those of
   * other texts, delivers a text once if all its fragments are in it, and not at all before.
   */
  lemma SentOnceDeliveredOnce(stream: seq<Fragment>, texts: map<string, string>, id: string)
    requires forall t :: t in texts ==> texts[t] != ""
    requires Emitted(stream, texts) && id in texts
    requires forall j, k :: 0 <= j < k < |stream| ==> stream[j] != stream[k]
    ensures Deliveries(FragmentsAfter(stream).delivered, id)
         == if forall f :: f in AllOf(texts[id], id) ==> f in stream then 1 else 0
  {
    hide After, FragmentsAfter, OnPacket, PacketOf, Arrivals, AllOf, Emitted, Deliveries;
    var all, ms := ArrivalsOf(stream), Carried(texts);
    CarriedIsSendable(texts);
    FragmentsAreArrivals(stream, texts);
    NoRepeats(stream, texts);
    RepeatFreeDeliversOnce(all, ms, id);
    AllThereIff(stream, texts, id);
  }

  lemma NoRepeats(stream: seq<Fragment>, texts: map<string, string>)
    requires Emitted(stream, texts) && forall j, k :: 0 <= j < k < |stream| ==> stream[j] != stream[k]
    ensures RepeatFree(ArrivalsOf(stream))
  {
    hide AllOf, Carried, PacketOf;
    var all := ArrivalsOf(stream);
    forall j, k | 0 <= j < k < |all|
      ensures all[j] != all[k]
    {
      FragmentIsPacket(stream[j], texts);
      FragmentIsPacket(stream[k], texts);
    }
  }

  lemma AllThereIff(stream: seq<Fragment>, texts: map<string, string>, id: string)
    requires Emitted(stream, texts) && id in texts && RepeatFree(ArrivalsOf(stream)) && id in Carried(texts)
    ensures AllArrived(ArrivalsOf(stream), Carried(texts), id) <==> forall f :: f in AllOf(texts[id], id) ==> f in stream
  {
    hide PacketOf, FragmentOf, RepeatFree, Emitted;
    var all, frags := ArrivalsOf(stream), AllOf(texts[id], id);
    assert |frags| == |Carried(texts)[id]|;
    forall i | 0 <= i < |frags|
      ensures frags[i] in stream <==> Arrivals(all, id, i) >= 1
    {
      RepeatFreeArrivals(all, id, i);
      FragmentThere(stream, texts, id, i);
    }
    forall f | f in frags
      ensures exists i :: 0 <= i < |frags| && frags[i] == f
    {
    }
  }

  lemma FragmentThere(stream: seq<Fragment>, texts: map<string, string>, id: string, i: nat)
    requires Emitted(stream, texts) && id in texts && i < |AllOf(texts[id], id)|
    ensures AllOf(texts[id], id)[i] in stream <==> Arrival(id, i) in ArrivalsOf(stream)
  {
    var all, f := ArrivalsOf(stream), AllOf(texts[id], id)[i];
    assert ArrivalOf(f) == Arrival(id, i);
    if f in stream {
      var k :| 0 <= k < |stream| && stream[k] == f;
      assert all[k] == Arrival(id, i);
    }
    if Arrival(id, i) in all {
      var k :| 0 <= k < |all| && all[k] == Arrival(id, i);
      FragmentIsPacket(stream[k], texts);
      assert stream[k] == f;
    }
  }
}

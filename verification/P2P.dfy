/** The P2P client: cutting a message into fragments and putting fragments together again. */
module P2P {
  import opened Wrappers
  import opened Utf8

  const FRAGMENT_SIZE: nat := 16384

  datatype Fragment = Fragment(payload: string, id: string, index: int, total: int)

  // A data channel message: its text, and the fragment it decodes to, if it does.
  datatype Packet = Packet(text: string, frag: Option<Fragment>)

  // ---------------------------------------------------------------- sending

  function Pieces(data: string): (ps: seq<string>)
    ensures data != "" ==> ps != []
    ensures forall p :: p in ps ==> 0 < |p| <= FRAGMENT_SIZE
  {
    if data == "" then []
    else if |data| <= FRAGMENT_SIZE then [data]
    else [data[..FRAGMENT_SIZE]] + Pieces(data[FRAGMENT_SIZE..])
  }

  function Joined(parts: seq<string>): string {
    if parts == [] then "" else parts[0] + Joined(parts[1..])
  }

  /** The i-th fragment as the receiver decodes it: the piece has been through a JSON string. */
  function FragmentOf(data: string, id: string, i: nat): Fragment
    requires i < |Pieces(data)|
  {
    Fragment(ViaJson(Pieces(data)[i]), id, i, |Pieces(data)|)
  }

  /** The whole message as fragments, in the order they are cut. */
  function AllOf(data: string, id: string): seq<Fragment> {
    seq(|Pieces(data)|, i requires 0 <= i < |Pieces(data)| => FragmentOf(data, id, i))
  }

  lemma {:induction false} TakenUnrefused(data: string, id: string, n: nat, refuses: (string, nat) -> bool, peer: string)
    requires n <= |Pieces(data)| && forall i :: 0 <= i < n ==> !refuses(peer, i)
    ensures Taken(data, id, n, refuses, peer) == AllOf(data, id)[..n]
  {
    if n > 0 {
      TakenUnrefused(data, id, n - 1, refuses, peer);
    }
  }

  /** What a peer takes of the first n fragments, given which sends its channel refuses. */
  function Taken(data: string, id: string, n: nat, refuses: (string, nat) -> bool, peer: string): seq<Fragment>
    requires n <= |Pieces(data)|
  {
    if n == 0 then []
    else Taken(data, id, n - 1, refuses, peer) + if refuses(peer, n - 1) then [] else [FragmentOf(data, id, n - 1)]
  }

  /** Where the piece that starts at lo ends. */
  function PieceEnd(data: string, lo: nat): (hi: nat)
    requires lo <= |data|
    ensures lo <= hi <= |data|
  {
    if lo + FRAGMENT_SIZE <= |data| then lo + FRAGMENT_SIZE else |data|
  }

  lemma SliceOfRest(data: string, n: nat, lo: nat, hi: nat)
    requires n <= lo <= hi <= |data|
    ensures data[n..][lo - n..hi - n] == data[lo..hi]
  {
    var a, b := data[n..][lo - n..hi - n], data[lo..hi];
    assert |a| == |b|;
    forall i | 0 <= i < |a|
      ensures a[i] == b[i]
    {
      assert a[i] == data[n..][lo - n + i] == data[lo + i];
    }
  }

  lemma {:induction false} PieceFrom(data: string, i: nat, lo: nat)
    requires lo == i * FRAGMENT_SIZE < |data|
    ensures i < |Pieces(data)|
    ensures Pieces(data)[i] == data[lo..PieceEnd(data, lo)]
  {
    if i > 0 {
      var rest := data[FRAGMENT_SIZE..];
      var lower := lo - FRAGMENT_SIZE;
      assert lower == (i - 1) * FRAGMENT_SIZE < |rest|;
      PieceFrom(rest, i - 1, lower);
      assert Pieces(data)[i] == Pieces(rest)[i - 1];
      assert PieceEnd(rest, lower) == PieceEnd(data, lo) - FRAGMENT_SIZE;
      SliceOfRest(data, FRAGMENT_SIZE, lo, PieceEnd(data, lo));
    }
  }

  lemma PieceAt(data: string, i: nat)
    requires i * FRAGMENT_SIZE < |data|
    ensures i < |Pieces(data)|
    ensures Pieces(data)[i] == data[i * FRAGMENT_SIZE..PieceEnd(data, i * FRAGMENT_SIZE)]
  {
    PieceFrom(data, i, i * FRAGMENT_SIZE);
  }

  lemma {:induction false} PieceCount(data: string)
    ensures |Pieces(data)| == (|data| + FRAGMENT_SIZE - 1) / FRAGMENT_SIZE
  {
    if |data| > FRAGMENT_SIZE {
      PieceCount(data[FRAGMENT_SIZE..]);
    }
  }

  lemma {:induction false} PiecesJoin(data: string)
    ensures Joined(Pieces(data)) == data
  {
    if 0 < |data| <= FRAGMENT_SIZE {
      assert [data][1..] == [];
      assert Joined([data][1..]) == "";
    } else if data != "" {
      PiecesJoin(data[FRAGMENT_SIZE..]);
      assert Pieces(data)[1..] == Pieces(data[FRAGMENT_SIZE..]);
      assert data == data[..FRAGMENT_SIZE] + data[FRAGMENT_SIZE..];
    }
  }

  // ---------------------------------------------------------------- receiving

  datatype Outcome = Outcome(receiving: map<string, seq<string>>, delivered: Option<string>, panicked: bool)

  function Slots(receiving: map<string, seq<string>>, id: string, total: nat): seq<string> {
    if id in receiving then receiving[id] else seq(total, _ => "")
  }

  predicate Complete(slots: seq<string>) {
    forall i :: 0 <= i < |slots| ==> slots[i] != ""
  }

  /** The message handler. An index outside the slots is an index panic, the slots already made. */
  function OnPacket(receiving: map<string, seq<string>>, p: Packet): Outcome {
    if p.frag.None? || p.frag.value.total == 0 then Outcome(receiving, Some(p.text), false)
    else
      var f := p.frag.value;
      if f.total <= 1 then Outcome(receiving, Some(f.payload), false)
      else
        var slots := Slots(receiving, f.id, f.total);
        if !(0 <= f.index < |slots|) then Outcome(receiving[f.id := slots], None, true)
        else
          var filled := slots[f.index := f.payload];
          if Complete(filled) then Outcome(receiving - {f.id}, Some(Joined(filled)), false)
          else Outcome(receiving[f.id := filled], None, false)
  }

  /** A message without fragments is delivered as it is; a table entry is never touched by it. */
  lemma WholeMessages(receiving: map<string, seq<string>>, p: Packet)
    ensures p.frag.None? || p.frag.value.total <= 1 ==>
              OnPacket(receiving, p)
              == Outcome(receiving, Some(if p.frag.Some? && p.frag.value.total != 0 then p.frag.value.payload else p.text), false)
  {
  }

  /** The handler fails exactly on a fragment whose index has no slot, and then delivers nothing. */
  lemma PanicsIff(receiving: map<string, seq<string>>, p: Packet)
    ensures var r := OnPacket(receiving, p);
            && (r.panicked <==>
                  && p.frag.Some? && p.frag.value.total > 1
                  && var slots := if p.frag.value.id in receiving then |receiving[p.frag.value.id]| else p.frag.value.total;
                     p.frag.value.index < 0 || p.frag.value.index >= slots)
            && (r.panicked ==> r.delivered.None?)
            && forall id :: p.frag.Some? && id != p.frag.value.id ==>
                 (id in r.receiving <==> id in receiving) && (id in receiving ==> r.receiving[id] == receiving[id])
  {
  }

  class Client {
    // Peers whose data channel exists; open holds those that are ready.
    var peers: set<string>
    var open: set<string>
    var sent: map<string, seq<Fragment>>
    var receivingFragments: map<string, seq<string>>

    ghost predicate Valid()
      reads this
    {
      sent.Keys == peers
    }

    constructor (peers: set<string>, open: set<string>)
      ensures Valid() && this.peers == peers && this.open == open && receivingFragments == map[]
    {
      this.peers, this.open := peers, open;
      sent := map p | p in peers :: [];
      receivingFragments := map[];
    }

    predicate Targeted(peer: string, target: string)
      reads `peers, `open
    {
      peer in peers && peer in open && (target == "" || peer == target)
    }

    /** What a peer gets of the first n fragments. */
    ghost function Gets(peer: string, data: string, target: string, id: string, n: nat, refuses: (string, nat) -> bool): seq<Fragment>
      requires n <= |Pieces(data)|
      reads `peers, `open
    {
      if Targeted(peer, target) then Taken(data, id, n, refuses, peer) else []
    }

    /** The peers that got at least one of the first n fragments. */
    ghost function Takers(data: string, target: string, id: string, n: nat, refuses: (string, nat) -> bool): set<string>
      requires n <= |Pieces(data)|
      reads `peers, `open
    {
      set p | p in peers && Gets(p, data, target, id, n, refuses) != []
    }

    /** A peer that is meant, open and refuses nothing gets the whole message. */
    lemma UnrefusedGetsAll(peer: string, data: string, target: string, id: string, refuses: (string, nat) -> bool)
      requires Targeted(peer, target) && forall i: nat :: i < |Pieces(data)| ==> !refuses(peer, i)
      ensures Gets(peer, data, target, id, |Pieces(data)|, refuses) == AllOf(data, id)
    {
      TakenUnrefused(data, id, |Pieces(data)|, refuses, peer);
    }

    lemma TakersNone(data: string, target: string, id: string, refuses: (string, nat) -> bool)
      ensures Takers(data, target, id, 0, refuses) == {}
    {
    }

    lemma TakersMore(data: string, target: string, id: string, n: nat, refuses: (string, nat) -> bool)
      requires n < |Pieces(data)|
      ensures Takers(data, target, id, n + 1, refuses)
              == Takers(data, target, id, n, refuses) + set p | p in peers && Targeted(p, target) && !refuses(p, n)
    {
    }

    lemma GetsNone(peer: string, data: string, target: string, id: string, refuses: (string, nat) -> bool)
      ensures Gets(peer, data, target, id, 0, refuses) == []
    {
    }

    lemma GetsMore(peer: string, data: string, target: string, id: string, n: nat, refuses: (string, nat) -> bool)
      requires n < |Pieces(data)|
      ensures Gets(peer, data, target, id, n + 1, refuses)
              == Gets(peer, data, target, id, n, refuses)
                 + if Targeted(peer, target) && !refuses(peer, n) then [FragmentOf(data, id, n)] else []
    {
    }

    /** Since `before`, every peer got its share of the first n fragments. */
    ghost predicate Reached(before: map<string, seq<Fragment>>, data: string, target: string, id: string, n: nat,
                            refuses: (string, nat) -> bool)
      requires n <= |Pieces(data)| && Valid() && before.Keys == peers
      reads this
    {
      forall p :: p in peers ==> sent[p] == before[p] + Gets(p, data, target, id, n, refuses)
    }

    lemma ReachedNone(data: string, target: string, id: string, refuses: (string, nat) -> bool)
      requires Valid()
      ensures Reached(sent, data, target, id, 0, refuses)
    {
    }

    lemma ReachedMore(before: map<string, seq<Fragment>>, mid: map<string, seq<Fragment>>, data: string, target: string,
                      id: string, n: nat, refuses: (string, nat) -> bool)
      requires Valid() && n < |Pieces(data)| && before.Keys == mid.Keys == peers
      requires forall p :: p in peers ==> mid[p] == before[p] + Gets(p, data, target, id, n, refuses)
      requires forall p :: p in peers ==>
        sent[p] == mid[p] + if Targeted(p, target) && !refuses(p, n) then [FragmentOf(data, id, n)] else []
      ensures Reached(before, data, target, id, n + 1, refuses)
    {
      hide Pieces, Taken, FragmentOf, Gets, Client.Targeted;
      forall p | p in peers
        ensures sent[p] == before[p] + Gets(p, data, target, id, n + 1, refuses)
      {
        GetsMore(p, data, target, id, n, refuses);
      }
    }

    /**
     * Cuts the data into fragments and offers each to every open channel that is meant. Each such peer
     * gets exactly the fragments its channel does not refuse, in order; the count is of peers that
     * took at least one - not of peers that took them all.
     */
    method Send(data: string, target: string, id: string, refuses: (string, nat) -> bool) returns (count: nat)
      requires Valid()
      modifies `sent
      ensures Valid()
      ensures Reached(old(sent), data, target, id, |Pieces(data)|, refuses)
      ensures count == |Takers(data, target, id, |Pieces(data)|, refuses)|
    {
      hide Pieces, Taken, FragmentOf, Gets, Takers, Client.Targeted, Client.Reached;
      var totalSize := |data|;
      var numFragments := (totalSize + FRAGMENT_SIZE - 1) / FRAGMENT_SIZE;
      PieceCount(data);
      ReachedNone(data, target, id, refuses);
      TakersNone(data, target, id, refuses);
      if numFragments == 0 {
        return 0;
      }
      var sentPeers: set<string> := {};
      for i := 0 to numFragments
        invariant Valid()
        invariant Reached(old(sent), data, target, id, i, refuses)
        invariant sentPeers == Takers(data, target, id, i, refuses)
      {
        var took := SendPiece(data, target, id, i, refuses, old(sent));
        TakersMore(data, target, id, i, refuses);
        sentPeers := sentPeers + took;
      }
      return |sentPeers|;
    }

    /** Cuts out the i-th piece and offers it. */
    method SendPiece(data: string, target: string, id: string, i: nat, refuses: (string, nat) -> bool,
                     ghost before: map<string, seq<Fragment>>)
      returns (took: set<string>)
      requires Valid() && i < |Pieces(data)| && before.Keys == peers && Reached(before, data, target, id, i, refuses)
      modifies `sent
      ensures Valid() && Reached(before, data, target, id, i + 1, refuses)
      ensures took == set p | p in peers && Targeted(p, target) && !refuses(p, i)
    {
      ghost var mid := sent;
      var start := i * FRAGMENT_SIZE;
      var end := start + FRAGMENT_SIZE;
      if end > |data| {
        end := |data|;
      }
      PieceCount(data);
      PieceAt(data, i);
      var numFragments := (|data| + FRAGMENT_SIZE - 1) / FRAGMENT_SIZE;
      var frag := Fragment(ViaJson(data[start..end]), id, i, numFragments);
      took := Offer(frag, i, target, refuses);
      ReachedMore(before, mid, data, target, id, i, refuses);
    }

    /** Offers one fragment to every channel; returns the peers that took it. */
    method Offer(frag: Fragment, i: nat, target: string, refuses: (string, nat) -> bool) returns (took: set<string>)
      requires Valid()
      modifies `sent
      ensures Valid()
      ensures took == set p | p in peers && Targeted(p, target) && !refuses(p, i)
      ensures forall p :: p in peers ==> sent[p] == old(sent)[p] + if p in took then [frag] else []
    {
      took := {};
      var rest := peers;
      while rest != {}
        invariant Valid() && rest <= peers
        invariant took == set p | p in peers - rest && Targeted(p, target) && !refuses(p, i)
        invariant forall p :: p in peers ==> sent[p] == old(sent)[p] + if p in took then [frag] else []
        decreases rest
      {
        var sid :| sid in rest;
        rest := rest - {sid};
        if target != "" && sid != target {
          continue;
        }
        if sid in open && !refuses(sid, i) {
          sent := sent[sid := sent[sid] + [frag]];
          took := took + {sid};
        }
      }
    }

    method OnMessage(p: Packet) returns (delivered: Option<string>, panicked: bool)
      modifies `receivingFragments
      ensures Outcome(receivingFragments, delivered, panicked) == OnPacket(old(receivingFragments), p)
    {
      if p.frag.None? || p.frag.value.total == 0 {
        return Some(p.text), false;
      }
      var f := p.frag.value;
      if f.total <= 1 {
        return Some(f.payload), false;
      }
      if f.id !in receivingFragments {
        receivingFragments := receivingFragments[f.id := seq(f.total, _ => "")];
      }
      var slots := receivingFragments[f.id];
      if f.index < 0 || f.index >= |slots| {
        return None, true;
      }
      slots := slots[f.index := f.payload];
      receivingFragments := receivingFragments[f.id := slots];
      var complete := true;
      for k := 0 to |slots|
        invariant complete
        invariant forall i :: 0 <= i < k ==> slots[i] != ""
      {
        if slots[k] == "" {
          complete := false;
          break;
        }
      }
      if complete {
        var full := "";
        assert slots[0..] == slots;
        for k := 0 to |slots|
          invariant full + Joined(slots[k..]) == Joined(slots)
        {
          assert slots[k..][1..] == slots[k + 1..];
          assert full + (slots[k] + Joined(slots[k + 1..])) == full + slots[k] + Joined(slots[k + 1..]);
          full := full + slots[k];
        }
        assert slots[|slots|..] == [];
        assert full == full + Joined(slots[|slots|..]);
        receivingFragments := receivingFragments - {f.id};
        assert receivingFragments == old(receivingFragments) - {f.id};
        return Some(full), false;
      }
      return None, false;
    }
  }

  // ---------------------------------------------------------------- when a message survives

  function ViaJsonAll(parts: seq<string>): (r: seq<string>)
    ensures |r| == |parts|
    ensures forall i :: 0 <= i < |parts| ==> r[i] == ViaJson(parts[i])
  {
    seq(|parts|, i requires 0 <= i < |parts| => ViaJson(parts[i]))
  }

  predicate AllValid(parts: seq<string>) {
    forall i :: 0 <= i < |parts| ==> ValidUtf8(parts[i])
  }

  /** Joining pieces that went through JSON gives the joined pieces back exactly when each was valid. */
  lemma {:induction false} JoinedJsonIffValid(parts: seq<string>)
    ensures AllValid(parts) ==> Joined(ViaJsonAll(parts)) == Joined(parts)
    ensures !AllValid(parts) ==> |Joined(ViaJsonAll(parts))| > |Joined(parts)|
    ensures |Joined(ViaJsonAll(parts))| >= |Joined(parts)|
  {
    if parts != [] {
      JsonExactIffValid(parts[0]);
      JoinedJsonIffValid(parts[1..]);
      assert ViaJsonAll(parts)[1..] == ViaJsonAll(parts[1..]);
      assert AllValid(parts) <==> ValidUtf8(parts[0]) && AllValid(parts[1..]) by {
        assert forall i :: 0 < i < |parts| ==> parts[i] == parts[1..][i - 1];
      }
    }
  }

  /** Every position the sender cuts at falls between two code points. */
  predicate CutsOnBoundaries(data: string) {
    forall k: nat :: 0 < k < |data| && k % FRAGMENT_SIZE == 0 ==> AtBoundary(data, k)
  }

  lemma {:induction false} PiecesValidIffCuts(data: string)
    requires ValidUtf8(data)
    ensures AllValid(Pieces(data)) <==> CutsOnBoundaries(data)
  {
    if |data| > FRAGMENT_SIZE {
      var rest := data[FRAGMENT_SIZE..];
      CutValidIffBoundary(data, FRAGMENT_SIZE);
      assert AllValid(Pieces(data)) <==> ValidUtf8(data[..FRAGMENT_SIZE]) && AllValid(Pieces(rest)) by {
        assert Pieces(data)[0] == data[..FRAGMENT_SIZE];
        assert forall i :: 0 < i < |Pieces(data)| ==> Pieces(data)[i] == Pieces(rest)[i - 1];
        assert forall j :: 0 <= j < |Pieces(rest)| ==> Pieces(rest)[j] == Pieces(data)[j + 1];
      }
      if AtBoundary(data, FRAGMENT_SIZE) {
        PiecesValidIffCuts(rest);
        CutsOfRest(data);
      }
    }
  }

  lemma CutsOfRest(data: string)
    requires |data| > FRAGMENT_SIZE && AtBoundary(data, FRAGMENT_SIZE)
    ensures CutsOnBoundaries(data) <==> CutsOnBoundaries(data[FRAGMENT_SIZE..])
  {
    var rest := data[FRAGMENT_SIZE..];
    forall k: nat | 0 < k < |rest| && k % FRAGMENT_SIZE == 0
      ensures AtBoundary(rest, k) <==> AtBoundary(data, k + FRAGMENT_SIZE)
    {
      BoundaryShift(data, FRAGMENT_SIZE, k);
    }
    if CutsOnBoundaries(rest) {
      forall k: nat | 0 < k < |data| && k % FRAGMENT_SIZE == 0
        ensures AtBoundary(data, k)
      {
        if k != FRAGMENT_SIZE {
          var j: nat := k - FRAGMENT_SIZE;
          assert j % FRAGMENT_SIZE == 0 && AtBoundary(rest, j);
        }
      }
    }
    if CutsOnBoundaries(data) {
      forall k: nat | 0 < k < |rest| && k % FRAGMENT_SIZE == 0
        ensures AtBoundary(rest, k)
      {
        var j: nat := k + FRAGMENT_SIZE;
        assert j % FRAGMENT_SIZE == 0 && AtBoundary(data, j);
      }
    }
  }

  /** The body a receiver joins from all the fragments of a message. */
  function Rejoined(data: string): string {
    Joined(ViaJsonAll(Pieces(data)))
  }

  /** Main result: a valid text survives exactly when every cut falls on a code point boundary. */
  lemma ExactIffCutsOnBoundaries(data: string)
    requires ValidUtf8(data)
    ensures Rejoined(data) == data <==> CutsOnBoundaries(data)
  {
    PiecesJoin(data);
    JoinedJsonIffValid(Pieces(data));
    PiecesValidIffCuts(data);
  }

  /** So every ASCII message survives, whatever its length. */
  lemma AsciiIsExact(data: string)
    requires Ascii(data)
    ensures Rejoined(data) == data
  {
    AsciiIsValid(data, 0);
    forall k: nat | 0 < k < |data| && k % FRAGMENT_SIZE == 0
      ensures AtBoundary(data, k)
    {
      AsciiIsValid(data, k);
    }
    ExactIffCutsOnBoundaries(data);
  }
}

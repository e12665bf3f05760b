/**
 * The history list: items, the state transition table, and what each list operation
 * means on plain values. HistoryManager.dfy holds the class whose loops are proved
 * equal to these functions.
 */
module History {
  import opened Wrappers

  // A state is a string in the program; any string outside the six known ones is UnknownState.
  datatype ItemState = Ready | Offered | Downloading | ReadyToPaste | Failed | Consumed | UnknownState(text: string)

  datatype ItemType = Text | Image | FileStub | OtherType(name: string)

  datatype ReplayMode = NoMode | Immediate | PathPlaceholder | SystemClipboard

  // A time is a count of nanoseconds; 0 is the zero time.
  type Time = nat

  datatype HistoryItem = HistoryItem(
    id: string,
    itemType: ItemType,
    state: ItemState,
    kind: string,
    displayName: string,
    payload: string,
    payloadType: ItemType,
    fileName: string,
    sourceSessionID: string,
    sourceDevice: string,
    createdAt: Time,
    updatedAt: Time,
    transferID: string,
    localPaths: seq<string>,
    reservedPaths: seq<string>,
    pendingReplayMode: ReplayMode,
    lastChunkIdx: int,
    errorMessage: string)

  datatype HistoryError = InvalidRequest | NotFound | InvalidTransition | Refused(reason: string)

  type Edit = HistoryItem -> Result<HistoryItem, HistoryError>

  const DEFAULT_MAX_ITEMS: nat := 100

  predicate IsKnownState(s: ItemState) {
    !s.UnknownState?
  }

  predicate IsValidTransition(from: ItemState, to: ItemState) {
    match from
    case Ready => to in {Ready, Consumed, Failed}
    case Offered => to in {Offered, Downloading, Failed}
    case Downloading => to in {Downloading, ReadyToPaste, Failed}
    case ReadyToPaste => to in {ReadyToPaste, Consumed, Failed}
    case Failed => to in {Failed, Offered, Downloading}
    case Consumed => to in {Consumed, Ready, Downloading, ReadyToPaste, Failed}
    case UnknownState(_) => false
  }

  predicate IsEvictable(s: ItemState) {
    s == Consumed || s == Failed
  }

  predicate IsValidInitial(item: HistoryItem) {
    match item.itemType
    case Text => item.state == Ready
    case Image => item.state == Ready
    case FileStub => item.state == Offered || item.state == Failed
    case OtherType(_) => false
  }

  // ---------------------------------------------------------------- list positions

  ghost predicate UniqueIDs(items: seq<HistoryItem>) {
    forall i, j :: 0 <= i < j < |items| ==> items[i].id != items[j].id
  }

  ghost predicate NewestFirst(items: seq<HistoryItem>) {
    forall i, j :: 0 <= i < j < |items| ==> items[i].createdAt >= items[j].createdAt
  }

  predicate HasID(items: seq<HistoryItem>, id: string) {
    exists i :: 0 <= i < |items| && items[i].id == id
  }

  /** Position of the first item with this id, or -1. */
  function FindID(items: seq<HistoryItem>, id: string): (k: int)
    ensures -1 <= k < |items|
    ensures k >= 0 ==> items[k].id == id && forall i :: 0 <= i < k ==> items[i].id != id
    ensures k < 0 ==> !HasID(items, id)
  {
    if items == [] then -1
    else if items[0].id == id then 0
    else
      var k := FindID(items[1..], id);
      assert forall i :: 0 < i < |items| ==> items[i] == items[1..][i - 1];
      if k < 0 then -1 else k + 1
  }

  /** Position of the first item carrying this transfer id, or -1. */
  function FindTransfer(items: seq<HistoryItem>, transferID: string): (k: int)
    ensures -1 <= k < |items|
    ensures k >= 0 ==> items[k].transferID == transferID && forall i :: 0 <= i < k ==> items[i].transferID != transferID
    ensures k < 0 ==> forall i :: 0 <= i < |items| ==> items[i].transferID != transferID
  {
    if items == [] then -1
    else if items[0].transferID == transferID then 0
    else
      var k := FindTransfer(items[1..], transferID);
      assert forall i :: 0 < i < |items| ==> items[i] == items[1..][i - 1];
      if k < 0 then -1 else k + 1
  }

  function RemoveAt(items: seq<HistoryItem>, k: nat): seq<HistoryItem>
    requires k < |items|
  {
    items[..k] + items[k + 1..]
  }

  function DropID(items: seq<HistoryItem>, id: string): seq<HistoryItem> {
    var k := FindID(items, id);
    if k < 0 then items else RemoveAt(items, k)
  }

  /** First position holding a strictly older item: equals stay in front of the newcomer. */
  function InsertIndex(items: seq<HistoryItem>, createdAt: Time): (k: nat)
    ensures k <= |items|
    ensures forall i :: 0 <= i < k ==> createdAt <= items[i].createdAt
    ensures k < |items| ==> createdAt > items[k].createdAt
  {
    if items == [] || createdAt > items[0].createdAt then 0
    else
      assert forall i :: 0 < i < |items| ==> items[i] == items[1..][i - 1];
      1 + InsertIndex(items[1..], createdAt)
  }

  function InsertByAge(items: seq<HistoryItem>, item: HistoryItem): seq<HistoryItem> {
    var k := InsertIndex(items, item.createdAt);
    items[..k] + [item] + items[k..]
  }

  // ---------------------------------------------------------------- eviction

  function Evictables(items: seq<HistoryItem>): (n: nat)
    ensures n <= |items|
  {
    if items == [] then 0
    else Evictables(items[..|items| - 1]) + if IsEvictable(items[|items| - 1].state) then 1 else 0
  }

  /** The list without its last `n` evictable items, order kept. */
  function KeepAfterEviction(items: seq<HistoryItem>, n: nat): seq<HistoryItem> {
    if n == 0 || items == [] then items
    else
      var last := items[|items| - 1];
      var front := items[..|items| - 1];
      if IsEvictable(last.state) then KeepAfterEviction(front, n - 1)
      else KeepAfterEviction(front, n) + [last]
  }

  /** The items KeepAfterEviction leaves out. */
  ghost function Evicted(items: seq<HistoryItem>, n: nat): set<HistoryItem> {
    if n == 0 || items == [] then {}
    else
      var last := items[|items| - 1];
      var front := items[..|items| - 1];
      if IsEvictable(last.state) then Evicted(front, n - 1) + {last} else Evicted(front, n)
  }

  function Overflow(items: seq<HistoryItem>, maxItems: nat): nat {
    if |items| > maxItems then |items| - maxItems else 0
  }

  // ---------------------------------------------------------------- operations

  datatype ListState = ListState(items: seq<HistoryItem>, activeID: string)

  /** The stored copy of a new item: missing id and times are filled in. */
  function Defaulted(item: HistoryItem, freshID: string, now: Time): HistoryItem {
    var id := if item.id == "" then freshID else item.id;
    var created := if item.createdAt == 0 then now else item.createdAt;
    var updated := if item.updatedAt == 0 then created else item.updatedAt;
    item.(id := id, createdAt := created, updatedAt := updated)
  }

  /** Drop the old entry, insert by age, evict from the old end, follow the newcomer if it survived. */
  ghost function Added(h: ListState, maxItems: nat, item: HistoryItem, freshID: string, now: Time): ListState {
    if !IsValidInitial(item) then h
    else
      var stored := Defaulted(item, freshID, now);
      var grown := InsertByAge(DropID(h.items, stored.id), stored);
      var n := Overflow(grown, maxItems);
      ListState(KeepAfterEviction(grown, n),
                if exists e :: e in Evicted(grown, n) && e.id == stored.id then "" else stored.id)
  }

  function Activated(h: ListState, id: string): ListState {
    if id == "" || FindID(h.items, id) < 0 then h else h.(activeID := id)
  }

  /** The item with the active id if there is one, else the newest. */
  function ActiveItem(h: ListState): Option<HistoryItem> {
    if h.items == [] then None
    else if h.activeID != "" && FindID(h.items, h.activeID) >= 0 then Some(h.items[FindID(h.items, h.activeID)])
    else Some(h.items[0])
  }

  /** What UpdateState does to the list, and whether it reports success. */
  function StateSet(items: seq<HistoryItem>, id: string, to: ItemState, now: Time): (seq<HistoryItem>, bool) {
    var k := FindID(items, id);
    if id == "" || !IsKnownState(to) || k < 0 || !IsValidTransition(items[k].state, to) then (items, false)
    else (items[k := items[k].(state := to, updatedAt := now)], true)
  }

  /** One item under an edit: refused when the edit fails or moves the state along no table edge. */
  function Edited(before: HistoryItem, edit: Edit, now: Time): Result<HistoryItem, HistoryError> {
    match edit(before)
    case Err(e) => Err(e)
    case Ok(next) =>
      if next.state != before.state && (!IsKnownState(next.state) || !IsValidTransition(before.state, next.state))
      then Err(InvalidTransition)
      else Ok(next.(updatedAt := now))
  }

  /** What Mutate does to the list, and what it returns. */
  function Mutated(items: seq<HistoryItem>, id: string, edit: Edit, now: Time)
    : (seq<HistoryItem>, Result<HistoryItem, HistoryError>)
  {
    var k := FindID(items, id);
    if id == "" then (items, Err(InvalidRequest))
    else if k < 0 then (items, Err(NotFound))
    else
      match Edited(items[k], edit, now)
      case Err(e) => (items, Err(e))
      case Ok(next) => (items[k := next], Ok(next))
  }

  function MutatedByTransfer(items: seq<HistoryItem>, transferID: string, edit: Edit, now: Time)
    : (seq<HistoryItem>, Result<HistoryItem, HistoryError>)
  {
    var k := FindTransfer(items, transferID);
    if transferID == "" then (items, Err(InvalidRequest))
    else if k < 0 || items[k].id == "" then (items, Err(NotFound))
    else Mutated(items, items[k].id, edit, now)
  }

  // ---------------------------------------------------------------- facts about eviction

  lemma {:induction false} EvictionCount(items: seq<HistoryItem>, n: nat)
    ensures |KeepAfterEviction(items, n)| == |items| - (if n <= Evictables(items) then n else Evictables(items))
  {
    if n != 0 && items != [] {
      var front := items[..|items| - 1];
      if IsEvictable(items[|items| - 1].state) {
        EvictionCount(front, n - 1);
      } else {
        EvictionCount(front, n);
      }
    }
  }

  /** What survives keeps its order: it is the original list read at increasing positions. */
  lemma {:induction false} EvictionKeepsOrder(items: seq<HistoryItem>, n: nat) returns (at: seq<nat>)
    ensures |at| == |KeepAfterEviction(items, n)|
    ensures forall i :: 0 <= i < |at| ==> at[i] < |items| && KeepAfterEviction(items, n)[i] == items[at[i]]
    ensures forall i, j :: 0 <= i < j < |at| ==> at[i] < at[j]
    ensures forall k :: 0 <= k < |items| && !IsEvictable(items[k].state) ==> k in at
  {
    if n == 0 || items == [] {
      at := seq(|items|, i => i);
      assert forall k :: 0 <= k < |items| ==> at[k] == k;
    } else {
      var last := |items| - 1;
      var front := items[..last];
      if IsEvictable(items[last].state) {
        at := EvictionKeepsOrder(front, n - 1);
      } else {
        var inner := EvictionKeepsOrder(front, n);
        at := inner + [last];
        assert at[|at| - 1] == last;
        forall k | 0 <= k < |items| && !IsEvictable(items[k].state)
          ensures k in at
        {
          if k < last {
            assert k in inner;
          }
        }
      }
    }
  }

  /** Everything evicted was Consumed or Failed, and every item of the list is kept or evicted. */
  lemma {:induction false} EvictedAreEvictable(items: seq<HistoryItem>, n: nat)
    ensures forall e :: e in Evicted(items, n) ==> e in items && (e.state == Consumed || e.state == Failed)
    ensures forall e :: e in items ==> e in Evicted(items, n) || e in KeepAfterEviction(items, n)
    ensures forall e :: e in KeepAfterEviction(items, n) ==> e in items
  {
    if n != 0 && items != [] {
      var last := items[|items| - 1];
      var front := items[..|items| - 1];
      assert items == front + [last];
      if IsEvictable(last.state) {
        EvictedAreEvictable(front, n - 1);
      } else {
        EvictedAreEvictable(front, n);
      }
    }
  }

  /** Eviction starts at the old end: a spent item is only kept while every spent item before it is. */
  lemma {:induction false} OldestAreEvicted(items: seq<HistoryItem>, n: nat, i: nat, j: nat)
    requires UniqueIDs(items) && i < j < |items| && items[i] in Evicted(items, n) && IsEvictable(items[j].state)
    ensures items[j] in Evicted(items, n)
  {
    var last := |items| - 1;
    var front := items[..last];
    if j < last {
      OldestAreEvicted(front, if IsEvictable(items[last].state) then n - 1 else n, i, j);
    }
  }

  /** With distinct ids, an evicted id is gone from the list. */
  lemma {:induction false} EvictedIsGone(items: seq<HistoryItem>, n: nat)
    requires UniqueIDs(items)
    ensures forall e :: e in Evicted(items, n) ==> !HasID(KeepAfterEviction(items, n), e.id)
  {
    if n != 0 && items != [] {
      var last := items[|items| - 1];
      var front := items[..|items| - 1];
      assert items == front + [last];
      if IsEvictable(last.state) {
        EvictedIsGone(front, n - 1);
        EvictedAreEvictable(front, n - 1);
        assert forall x :: x in KeepAfterEviction(front, n - 1) ==> x.id != last.id;
      } else {
        EvictedIsGone(front, n);
        EvictedAreEvictable(front, n);
        var kept := KeepAfterEviction(front, n);
        forall e | e in Evicted(items, n)
          ensures !HasID(kept + [last], e.id)
        {
          assert e in front;
          assert !HasID(kept, e.id);
        }
      }
    }
  }

  /** Evicting the last evictable item first, then n - 1 more, is evicting n. */
  lemma {:induction false} EvictOneThenRest(items: seq<HistoryItem>, k: nat, n: nat)
    requires k < |items| && n > 0
    requires IsEvictable(items[k].state)
    requires forall i :: k < i < |items| ==> !IsEvictable(items[i].state)
    ensures KeepAfterEviction(items, n) == KeepAfterEviction(RemoveAt(items, k), n - 1)
    ensures Evicted(items, n) == Evicted(RemoveAt(items, k), n - 1) + {items[k]}
  {
    hide IsEvictable;
    var last := |items| - 1;
    var front := items[..last];
    var rest := RemoveAt(items, k);
    if k == last {
      assert rest == front;
    } else {
      EvictOneThenRest(front, k, n);
      assert rest == RemoveAt(front, k) + [items[last]];
      assert rest[..|rest| - 1] == RemoveAt(front, k);
    }
  }

  lemma {:induction false} NothingToEvict(items: seq<HistoryItem>, n: nat)
    requires forall i :: 0 <= i < |items| ==> !IsEvictable(items[i].state)
    ensures KeepAfterEviction(items, n) == items
    ensures Evicted(items, n) == {}
  {
    if n != 0 && items != [] {
      NothingToEvict(items[..|items| - 1], n);
    }
  }

  // ---------------------------------------------------------------- facts about AddItem

  lemma DroppedPositions(items: seq<HistoryItem>, k: nat)
    requires k < |items|
    ensures |RemoveAt(items, k)| == |items| - 1
    ensures forall i :: 0 <= i < k ==> RemoveAt(items, k)[i] == items[i]
    ensures forall i :: k <= i < |items| - 1 ==> RemoveAt(items, k)[i] == items[i + 1]
  {
  }

  lemma DroppedMembers(items: seq<HistoryItem>, id: string)
    requires UniqueIDs(items)
    ensures forall e :: e in DropID(items, id) <==> e in items && e.id != id
  {
    var k := FindID(items, id);
    if k >= 0 {
      assert items == items[..k] + [items[k]] + items[k + 1..];
    }
  }

  lemma DropIDFacts(items: seq<HistoryItem>, id: string)
    requires UniqueIDs(items)
    ensures UniqueIDs(DropID(items, id))
    ensures !HasID(DropID(items, id), id)
    ensures NewestFirst(items) ==> NewestFirst(DropID(items, id))
    ensures forall e :: e in DropID(items, id) <==> e in items && e.id != id
  {
    DroppedMembers(items, id);
    var k := FindID(items, id);
    if k >= 0 {
      DroppedPositions(items, k);
    }
  }

  lemma InsertedPositions(items: seq<HistoryItem>, item: HistoryItem)
    ensures var k := InsertIndex(items, item.createdAt);
            var grown := InsertByAge(items, item);
            && |grown| == |items| + 1
            && grown[k] == item
            && (forall i :: 0 <= i < k ==> grown[i] == items[i])
            && (forall i :: k < i < |grown| ==> grown[i] == items[i - 1])
  {
  }

  lemma InsertByAgeSorted(items: seq<HistoryItem>, item: HistoryItem)
    requires NewestFirst(items)
    ensures NewestFirst(InsertByAge(items, item))
  {
    InsertedPositions(items, item);
    var k := InsertIndex(items, item.createdAt);
    var grown := InsertByAge(items, item);
    forall i, j | 0 <= i < j < |grown|
      ensures grown[i].createdAt >= grown[j].createdAt
    {
      var a, b := if i < k then i else i - 1, if j < k then j else j - 1;
      if i == k {
        assert grown[j] == items[j - 1] && items[k].createdAt >= items[j - 1].createdAt;
      } else if j == k {
        assert grown[i] == items[i];
      } else {
        assert grown[i] == items[a] && grown[j] == items[b];
      }
    }
  }

  lemma InsertByAgeMembers(items: seq<HistoryItem>, item: HistoryItem)
    ensures forall e :: e in InsertByAge(items, item) <==> e in items || e == item
  {
    var k := InsertIndex(items, item.createdAt);
    assert items == items[..k] + items[k..];
  }

  lemma InsertByAgeFacts(items: seq<HistoryItem>, item: HistoryItem)
    requires UniqueIDs(items) && !HasID(items, item.id)
    ensures UniqueIDs(InsertByAge(items, item))
    ensures NewestFirst(items) ==> NewestFirst(InsertByAge(items, item))
    ensures forall e :: e in InsertByAge(items, item) <==> e in items || e == item
  {
    InsertedPositions(items, item);
    InsertByAgeMembers(items, item);
    if NewestFirst(items) {
      InsertByAgeSorted(items, item);
    }
  }

  lemma SubsequenceFacts(items: seq<HistoryItem>, kept: seq<HistoryItem>, at: seq<nat>)
    requires |at| == |kept|
    requires forall i :: 0 <= i < |at| ==> at[i] < |items| && kept[i] == items[at[i]]
    requires forall i, j :: 0 <= i < j < |at| ==> at[i] < at[j]
    ensures UniqueIDs(items) ==> UniqueIDs(kept)
    ensures NewestFirst(items) ==> NewestFirst(kept)
  {
  }

  /** AddItem keeps ids distinct and the list sorted; the active id names a listed item or nothing. */
  lemma AddKeepsListSound(h: ListState, maxItems: nat, item: HistoryItem, freshID: string, now: Time)
    requires UniqueIDs(h.items)
    requires h.activeID == "" || HasID(h.items, h.activeID)
    ensures var g := Added(h, maxItems, item, freshID, now);
            && UniqueIDs(g.items)
            && (NewestFirst(h.items) ==> NewestFirst(g.items))
            && (g.activeID == "" || HasID(g.items, g.activeID))
  {
    if IsValidInitial(item) {
      var stored := Defaulted(item, freshID, now);
      var base := DropID(h.items, stored.id);
      var grown := InsertByAge(base, stored);
      var n := Overflow(grown, maxItems);
      DropIDFacts(h.items, stored.id);
      InsertByAgeFacts(base, stored);
      var at := EvictionKeepsOrder(grown, n);
      SubsequenceFacts(grown, KeepAfterEviction(grown, n), at);
      EvictedAreEvictable(grown, n);
      assert stored in grown;
    }
  }

  /**
   * Who is in the list after an accepted AddItem: an old item with another id whose state is not
   * Consumed or Failed always stays; nothing but the newcomer enters; the list is over the limit
   * only when nothing evictable is left.
   */
  lemma AddMembership(h: ListState, maxItems: nat, item: HistoryItem, freshID: string, now: Time)
    requires UniqueIDs(h.items) && IsValidInitial(item)
    ensures var stored := Defaulted(item, freshID, now);
            var g := Added(h, maxItems, item, freshID, now);
            && (forall e :: e in h.items && e.id != stored.id && e.state != Consumed && e.state != Failed ==> e in g.items)
            && (forall e :: e in g.items ==> e == stored || (e in h.items && e.id != stored.id))
            && (stored.state != Failed ==> stored in g.items && g.activeID == stored.id)
            && (|g.items| > maxItems ==> forall e :: e in g.items ==> e.state != Consumed && e.state != Failed)
  {
    var stored := Defaulted(item, freshID, now);
    var base := DropID(h.items, stored.id);
    var grown := InsertByAge(base, stored);
    var n := Overflow(grown, maxItems);
    DropIDFacts(h.items, stored.id);
    InsertByAgeFacts(base, stored);
    EvictedAreEvictable(grown, n);
    EvictionCount(grown, n);
    var kept := KeepAfterEviction(grown, n);
    if |kept| > maxItems {
      AllEvictedWhenShort(grown, n);
    }
    forall e | e in Evicted(grown, n) && e.id == stored.id
      ensures e == stored
    {
      assert e in grown;
      assert e == stored || e in base;
    }
  }

  /** x is y apart from its id and times. */
  predicate SameBut(x: HistoryItem, y: HistoryItem) {
    x.(id := y.id, createdAt := y.createdAt, updatedAt := y.updatedAt) == y
  }

  /**
   * An item is taken up exactly as a ready text or image or an offered or failed file; what was missing of
   * its id and times is filled in, all else is kept. Only a failed newcomer can be evicted at once.
   */
  lemma TakenUpIff(h: ListState, maxItems: nat, item: HistoryItem, freshID: string, now: Time)
    requires UniqueIDs(h.items)
    ensures var g := Added(h, maxItems, item, freshID, now);
            var proper := || (item.itemType in {Text, Image} && item.state == Ready)
                          || (item.itemType == FileStub && item.state in {Offered, Failed});
            && (!proper ==> g == h)
            && (proper && (item.state != Failed || |h.items| < maxItems) ==>
                  exists x :: x in g.items && SameBut(x, item)
                    && x.id == (if item.id == "" then freshID else item.id) && g.activeID == x.id
                    && x.createdAt == (if item.createdAt == 0 then now else item.createdAt)
                    && x.updatedAt == (if item.updatedAt == 0 then x.createdAt else item.updatedAt))
  {
    hide InsertByAge, DropID, KeepAfterEviction, Evicted, Overflow;
    if IsValidInitial(item) {
      var stored := Defaulted(item, freshID, now);
      AddMembership(h, maxItems, item, freshID, now);
      if |h.items| < maxItems {
        RoomForOne(h, maxItems, item, freshID, now);
      }
    }
  }

  lemma RoomForOne(h: ListState, maxItems: nat, item: HistoryItem, freshID: string, now: Time)
    requires IsValidInitial(item) && |h.items| < maxItems
    ensures var g := Added(h, maxItems, item, freshID, now);
            Defaulted(item, freshID, now) in g.items && g.activeID == Defaulted(item, freshID, now).id
  {
    hide Defaulted;
    InsertByAgeMembers(DropID(h.items, Defaulted(item, freshID, now).id), Defaulted(item, freshID, now));
  }

  lemma {:induction false} AllEvictedWhenShort(items: seq<HistoryItem>, n: nat)
    requires n > Evictables(items)
    ensures forall e :: e in KeepAfterEviction(items, n) ==> e.state != Consumed && e.state != Failed
  {
    if items != [] {
      var front := items[..|items| - 1];
      AllEvictedWhenShort(front, if IsEvictable(items[|items| - 1].state) then n - 1 else n);
    }
  }

  /** UpdateState and Mutate never add, drop or reorder items, and a refused call changes nothing. */
  lemma EditsKeepPositions(items: seq<HistoryItem>, id: string, to: ItemState, edit: Edit, now: Time)
    ensures var r := StateSet(items, id, to, now);
            && |r.0| == |items|
            && (!r.1 ==> r.0 == items)
            && (r.1 ==> HasID(items, id) && forall i :: 0 <= i < |items| && i != FindID(items, id) ==> r.0[i] == items[i])
    ensures var r := Mutated(items, id, edit, now);
            && |r.0| == |items|
            && (r.1.Err? ==> r.0 == items)
            && (r.1.Ok? ==> HasID(items, id) && r.1.value in r.0
                            && forall i :: 0 <= i < |items| && i != FindID(items, id) ==> r.0[i] == items[i])
  {
    var r := Mutated(items, id, edit, now);
    if r.1.Ok? {
      assert r.0[FindID(items, id)] == r.1.value;
    }
  }
}

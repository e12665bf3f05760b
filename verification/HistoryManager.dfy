/**
 * The history manager object. Its methods search, shift and evict in place with the program's
 * own loops; each is proved to change the list exactly as the functions of module History say.
 */
module HistoryManager {
  import opened Wrappers
  import opened History

  class Manager {
    var items: seq<HistoryItem>
    var activeID: string
    const maxItems: nat

    constructor (limit: int)
      ensures items == [] && activeID == ""
      ensures maxItems == if limit <= 0 then DEFAULT_MAX_ITEMS else limit
    {
      items, activeID := [], "";
      maxItems := if limit <= 0 then DEFAULT_MAX_ITEMS else limit;
    }

    ghost function Contents(): ListState
      reads this
    {
      ListState(items, activeID)
    }

    method FindIndexByID(id: string) returns (idx: int)
      ensures idx == FindID(items, id)
    {
      for k := 0 to |items|
        invariant forall i :: 0 <= i < k ==> items[i].id != id
      {
        if items[k].id == id {
          return k;
        }
      }
      return -1;
    }

    method FindInsertIndex(createdAt: Time) returns (idx: nat)
      ensures idx == InsertIndex(items, createdAt)
    {
      for k := 0 to |items|
        invariant forall i :: 0 <= i < k ==> createdAt <= items[i].createdAt
      {
        if createdAt > items[k].createdAt {
          return k;
        }
      }
      return |items|;
    }

    /** Removes the item at idx by shifting the tail left. */
    method RemoveIndex(idx: nat)
      requires idx < |items|
      modifies `items
      ensures items == RemoveAt(old(items), idx)
    {
      var k := idx;
      var shifted := items;
      while k + 1 < |items|
        invariant idx <= k < |items| == |shifted|
        invariant forall i :: 0 <= i < idx ==> shifted[i] == items[i]
        invariant forall i :: idx <= i < k ==> shifted[i] == items[i + 1]
        invariant forall i :: k <= i < |items| ==> shifted[i] == items[i]
      {
        shifted := shifted[k := shifted[k + 1]];
        k := k + 1;
      }
      items := shifted[..|shifted| - 1];
    }

    /** The stored copy: a missing id and missing times are filled in. */
    static method FillDefaults(item: HistoryItem, freshID: string, now: Time) returns (newItem: HistoryItem)
      ensures newItem == Defaulted(item, freshID, now)
    {
      newItem := item;
      if newItem.id == "" {
        newItem := newItem.(id := freshID);
      }
      if newItem.createdAt == 0 {
        newItem := newItem.(createdAt := now);
      }
      if newItem.updatedAt == 0 {
        newItem := newItem.(updatedAt := newItem.createdAt);
      }
    }

    /** Replaces an entry of the same id, inserts by age and makes the newcomer active. */
    method PlaceItem(newItem: HistoryItem)
      modifies this
      ensures items == InsertByAge(DropID(old(items), newItem.id), newItem)
      ensures activeID == newItem.id
    {
      var existing := FindIndexByID(newItem.id);
      if existing >= 0 {
        RemoveIndex(existing);
      }
      var insertAt := FindInsertIndex(newItem.createdAt);
      items := items[..insertAt] + [newItem] + items[insertAt..];
      activeID := newItem.id;
    }

    method AddItem(item: HistoryItem, freshID: string, now: Time)
      modifies this
      ensures Contents() == Added(old(Contents()), maxItems, item, freshID, now)
    {
      if !IsValidInitial(item) {
        return;
      }
      var newItem := FillDefaults(item, freshID, now);
      PlaceItem(newItem);
      var evicted := EvictOverflow();
    }

    /** Scans from the old end for an item that may be evicted. */
    method LastEvictableIndex() returns (evictIdx: int)
      ensures -1 <= evictIdx < |items|
      ensures evictIdx >= 0 ==> IsEvictable(items[evictIdx].state)
      ensures forall i :: evictIdx < i && 0 <= i < |items| ==> !IsEvictable(items[i].state)
    {
      var idx := |items| - 1;
      while idx >= 0
        invariant -1 <= idx < |items|
        invariant forall i :: idx < i < |items| ==> !IsEvictable(items[i].state)
      {
        if IsEvictable(items[idx].state) {
          return idx;
        }
        idx := idx - 1;
      }
      return -1;
    }

    /** While the list is too long, removes the evictable item nearest to the old end. */
    method EvictOverflow() returns (evicted: nat)
      modifies this
      ensures var n := Overflow(old(items), maxItems);
              && items == KeepAfterEviction(old(items), n)
              && evicted == |old(items)| - |items|
              && activeID == if exists e :: e in Evicted(old(items), n) && e.id == old(activeID) then "" else old(activeID)
    {
      ghost var n := Overflow(items, maxItems);
      ghost var gone: set<HistoryItem> := {};
      evicted := 0;
      while |items| > maxItems
        invariant evicted == |old(items)| - |items|
        invariant n == Overflow(items, maxItems) + evicted
        invariant KeepAfterEviction(old(items), n) == KeepAfterEviction(items, Overflow(items, maxItems))
        invariant Evicted(old(items), n) == Evicted(items, Overflow(items, maxItems)) + gone
        invariant activeID == if exists e :: e in gone && e.id == old(activeID) then "" else old(activeID)
        decreases |items|
      {
        var evictIdx := LastEvictableIndex();
        if evictIdx < 0 {
          NothingToEvict(items, Overflow(items, maxItems));
          break;
        }
        EvictOneThenRest(items, evictIdx, Overflow(items, maxItems));
        var victim := items[evictIdx];
        if activeID == victim.id {
          activeID := "";
        }
        gone := gone + {victim};
        RemoveIndex(evictIdx);
        evicted := evicted + 1;
      }
    }

    method SetActive(id: string) returns (ok: bool)
      modifies `activeID
      ensures Contents() == Activated(old(Contents()), id)
      ensures ok <==> id != "" && HasID(items, id)
    {
      if id == "" {
        return false;
      }
      var k := FindIndexByID(id);
      if k < 0 {
        return false;
      }
      activeID := id;
      return true;
    }

    /** The active item, or the newest one when the active id is empty or gone. */
    method GetActive() returns (item: Option<HistoryItem>)
      ensures item == ActiveItem(Contents())
      ensures item.None? <==> items == []
      ensures item.Some? ==> item.value in items
      ensures item.Some? && activeID != "" && HasID(items, activeID) ==> item.value.id == activeID
      ensures item.Some? && (activeID == "" || !HasID(items, activeID)) ==> item.value == items[0]
    {
      if |items| == 0 {
        return None;
      }
      if activeID != "" {
        var k := FindIndexByID(activeID);
        if k >= 0 {
          return Some(items[k]);
        }
      }
      return Some(items[0]);
    }

    method GetByID(id: string) returns (item: Option<HistoryItem>)
      ensures item.Some? <==> id != "" && HasID(items, id)
      ensures item.Some? ==> item.value in items && item.value.id == id
    {
      if id == "" {
        return None;
      }
      var k := FindIndexByID(id);
      item := if k < 0 then None else Some(items[k]);
    }

    method GetByTransferID(transferID: string) returns (item: Option<HistoryItem>)
      ensures item == if transferID == "" || FindTransfer(items, transferID) < 0 then None
                      else Some(items[FindTransfer(items, transferID)])
    {
      if transferID == "" {
        return None;
      }
      for k := 0 to |items|
        invariant forall i :: 0 <= i < k ==> items[i].transferID != transferID
      {
        if items[k].transferID == transferID {
          return Some(items[k]);
        }
      }
      return None;
    }

    method UpdateState(id: string, newState: ItemState, now: Time) returns (ok: bool)
      modifies `items
      ensures (items, ok) == StateSet(old(items), id, newState, now)
    {
      if id == "" || !IsKnownState(newState) {
        return false;
      }
      for k := 0 to |items|
        invariant items == old(items)
        invariant forall i :: 0 <= i < k ==> items[i].id != id
      {
        if items[k].id != id {
          continue;
        }
        if !IsValidTransition(items[k].state, newState) {
          return false;
        }
        items := items[k := items[k].(state := newState, updatedAt := now)];
        return true;
      }
      return false;
    }

    method Mutate(id: string, edit: Edit, now: Time) returns (r: Result<HistoryItem, HistoryError>)
      modifies `items
      ensures (items, r) == Mutated(old(items), id, edit, now)
    {
      if id == "" {
        return Err(InvalidRequest);
      }
      var k := FindIndexByID(id);
      if k < 0 {
        return Err(NotFound);
      }
      var before := items[k];
      var outcome := edit(before);
      if outcome.Err? {
        return outcome;
      }
      var next := outcome.value;
      if next.state != before.state {
        if !IsKnownState(next.state) || !IsValidTransition(before.state, next.state) {
          return Err(InvalidTransition);
        }
      }
      next := next.(updatedAt := now);
      items := items[k := next];
      return Ok(next);
    }

    method MutateByTransferID(transferID: string, edit: Edit, now: Time) returns (r: Result<HistoryItem, HistoryError>)
      modifies `items
      ensures (items, r) == MutatedByTransfer(old(items), transferID, edit, now)
    {
      if transferID == "" {
        return Err(InvalidRequest);
      }
      var found := GetByTransferID(transferID);
      if found.None? || found.value.id == "" {
        return Err(NotFound);
      }
      r := Mutate(found.value.id, edit, now);
    }
  }
}

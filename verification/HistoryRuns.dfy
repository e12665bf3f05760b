/** Facts about every run of history calls, accepted or refused, from the empty list on. */
module HistoryRuns {
  import opened Wrappers
  import opened History

  datatype Call =
    | Add(item: HistoryItem, freshID: string)
    | SetState(id: string, to: ItemState)
    | Mutate(id: string, edit: Edit)
    | MutateByTransfer(transferID: string, edit: Edit)
    | SetActive(id: string)

  datatype Timed = Timed(call: Call, now: Time)

  /** An edit that, like every one in the program, leaves an item's id, type and creation time alone. */
  ghost predicate KeepsIdentity(edit: Edit) {
    forall x: HistoryItem :: edit(x).Ok? ==>
      var y := edit(x).value; y.id == x.id && y.itemType == x.itemType && y.createdAt == x.createdAt
  }

  ghost predicate Lawful(c: Call) {
    match c
    case Mutate(_, edit) => KeepsIdentity(edit)
    case MutateByTransfer(_, edit) => KeepsIdentity(edit)
    case _ => true
  }

  ghost function Step(h: ListState, maxItems: nat, t: Timed): ListState {
    match t.call
    case Add(item, freshID) => Added(h, maxItems, item, freshID, t.now)
    case SetState(id, to) => h.(items := StateSet(h.items, id, to, t.now).0)
    case Mutate(id, edit) => h.(items := Mutated(h.items, id, edit, t.now).0)
    case MutateByTransfer(tid, edit) => h.(items := MutatedByTransfer(h.items, tid, edit, t.now).0)
    case SetActive(id) => Activated(h, id)
  }

  ghost function After(maxItems: nat, run: seq<Timed>): ListState {
    if run == [] then ListState([], "") else Step(After(maxItems, run[..|run| - 1]), maxItems, run[|run| - 1])
  }

  ghost predicate LawfulRun(run: seq<Timed>) {
    forall i :: 0 <= i < |run| ==> Lawful(run[i].call)
  }

  ghost function DownloadingNow(items: seq<HistoryItem>): set<string> {
    set e | e in items && e.state == Downloading :: e.id
  }

  /** Ids seen in Downloading at some point of the run since the item was last added. */
  ghost function WasDownloading(maxItems: nat, run: seq<Timed>): set<string> {
    if run == [] then {}
    else
      var before := WasDownloading(maxItems, run[..|run| - 1]);
      var t := run[|run| - 1];
      var carried := if t.call.Add? && IsValidInitial(t.call.item)
                     then before - {Defaulted(t.call.item, t.call.freshID, t.now).id} else before;
      carried + DownloadingNow(After(maxItems, run).items)
  }

  ghost predicate Sound(h: ListState) {
    && UniqueIDs(h.items)
    && NewestFirst(h.items)
    && (h.activeID == "" || HasID(h.items, h.activeID))
  }

  /** A file item is still Offered or Failed, or its id is among `seen`. */
  ghost predicate FileStatesEarned(items: seq<HistoryItem>, seen: set<string>) {
    forall e :: e in items && e.itemType == FileStub ==> e.state == Offered || e.state == Failed || e.id in seen
  }

  lemma ReplaceOneKeepsSound(h: ListState, k: nat, next: HistoryItem)
    requires Sound(h) && k < |h.items|
    requires next.id == h.items[k].id && next.createdAt == h.items[k].createdAt
    ensures Sound(h.(items := h.items[k := next]))
  {
    var items' := h.items[k := next];
    assert forall i :: 0 <= i < |items'| ==> items'[i].id == h.items[i].id && items'[i].createdAt == h.items[i].createdAt;
    if HasID(h.items, h.activeID) {
      var i :| 0 <= i < |h.items| && h.items[i].id == h.activeID;
      assert items'[i].id == h.activeID;
    }
  }

  lemma ReplaceOneKeepsStatesEarned(items: seq<HistoryItem>, k: nat, next: HistoryItem, seen: set<string>)
    requires k < |items| && FileStatesEarned(items, seen)
    requires next.id == items[k].id && next.itemType == items[k].itemType
    requires next.state == items[k].state || IsValidTransition(items[k].state, next.state)
    ensures FileStatesEarned(items[k := next], seen + DownloadingNow(items[k := next]))
  {
    var items' := items[k := next];
    assert items[k] in items;
    assert items'[k] == next;
    forall e | e in items' && e.itemType == FileStub
      ensures e.state == Offered || e.state == Failed || e.id in seen + DownloadingNow(items')
    {
      assert e == next || e in items;
    }
  }

  lemma EditStepSound(h: ListState, id: string, edit: Edit, now: Time, seen: set<string>)
    requires Sound(h) && FileStatesEarned(h.items, seen) && KeepsIdentity(edit)
    ensures var h' := h.(items := Mutated(h.items, id, edit, now).0);
            Sound(h') && FileStatesEarned(h'.items, seen + DownloadingNow(h'.items))
  {
    var r := Mutated(h.items, id, edit, now);
    if r.1.Ok? {
      var k := FindID(h.items, id);
      ReplaceOneKeepsSound(h, k, r.1.value);
      ReplaceOneKeepsStatesEarned(h.items, k, r.1.value, seen);
    } else {
      assert h.(items := r.0) == h;
    }
  }

  lemma StepSound(h: ListState, maxItems: nat, t: Timed, seen: set<string>)
    requires Sound(h) && FileStatesEarned(h.items, seen) && Lawful(t.call)
    ensures Sound(Step(h, maxItems, t))
    ensures var carried := if t.call.Add? && IsValidInitial(t.call.item)
                           then seen - {Defaulted(t.call.item, t.call.freshID, t.now).id} else seen;
            FileStatesEarned(Step(h, maxItems, t).items, carried + DownloadingNow(Step(h, maxItems, t).items))
  {
    hide InsertByAge, DropID, KeepAfterEviction, Evicted, Overflow;
    match t.call
    case Add(item, freshID) =>
      AddKeepsListSound(h, maxItems, item, freshID, t.now);
      if IsValidInitial(item) {
        AddMembership(h, maxItems, item, freshID, t.now);
      }
    case SetState(id, to) =>
      var r := StateSet(h.items, id, to, t.now);
      if r.1 {
        var k := FindID(h.items, id);
        ReplaceOneKeepsSound(h, k, r.0[k]);
        ReplaceOneKeepsStatesEarned(h.items, k, r.0[k], seen);
      } else {
        assert h.(items := r.0) == h;
      }
    case Mutate(id, edit) =>
      EditStepSound(h, id, edit, t.now, seen);
    case MutateByTransfer(tid, edit) =>
      var k := FindTransfer(h.items, tid);
      if tid == "" || k < 0 || h.items[k].id == "" {
        assert h.(items := MutatedByTransfer(h.items, tid, edit, t.now).0) == h;
      } else {
        EditStepSound(h, h.items[k].id, edit, t.now, seen);
      }
    case SetActive(id) =>
  }

  /**
   * Main result. In every run: ids stay distinct, the list stays newest-first, the active id is
   * empty or present, and a file item in any state but Offered or Failed - so in particular one in
   * ReadyToPaste or Consumed - was Downloading at an earlier point since it was added.
   */
  lemma {:induction false} RunsAreSound(maxItems: nat, run: seq<Timed>)
    requires LawfulRun(run)
    ensures Sound(After(maxItems, run))
    ensures FileStatesEarned(After(maxItems, run).items, WasDownloading(maxItems, run))
  {
    if run != [] {
      var front := run[..|run| - 1];
      RunsAreSound(maxItems, front);
      StepSound(After(maxItems, front), maxItems, run[|run| - 1], WasDownloading(maxItems, front));
    }
  }

  ghost predicate DownloadingAt(maxItems: nat, run: seq<Timed>, k: nat, id: string) {
    k <= |run| && id in DownloadingNow(After(maxItems, run[..k]).items)
  }

  /** WasDownloading means what it says: some earlier list of the run held that id in Downloading. */
  lemma {:induction false} WasDownloadingIsReal(maxItems: nat, run: seq<Timed>, id: string) returns (k: nat)
    requires id in WasDownloading(maxItems, run)
    ensures DownloadingAt(maxItems, run, k, id)
  {
    var front := run[..|run| - 1];
    if id in WasDownloading(maxItems, front) {
      k := WasDownloadingIsReal(maxItems, front, id);
      assert front[..k] == run[..k];
    } else {
      k := |run|;
      assert run[..k] == run;
    }
  }

  /**
   * The only way out of the list: an AddItem overflows it while the item is Consumed or Failed, or
   * re-adds the item's own id as Failed and evicts that newcomer at once.
   */
  lemma OnlySpentItemsDisappear(h: ListState, maxItems: nat, t: Timed, e: HistoryItem)
    requires Sound(h) && Lawful(t.call) && e in h.items
    ensures || HasID(Step(h, maxItems, t).items, e.id)
            || (&& t.call.Add?
                && (|| e.state == Consumed || e.state == Failed
                    || (t.call.item.state == Failed && Defaulted(t.call.item, t.call.freshID, t.now).id == e.id)))
  {
    var h' := Step(h, maxItems, t);
    var k :| 0 <= k < |h.items| && h.items[k] == e;
    if t.call.Add? {
      if IsValidInitial(t.call.item) {
        AddMembership(h, maxItems, t.call.item, t.call.freshID, t.now);
      }
    } else {
      assert h'.items[k].id == e.id;
    }
  }

  /** The table by what a state can come from; every known state can stay what it is. */
  predicate ComesFrom(to: ItemState, from: ItemState) {
    && IsKnownState(from) && IsKnownState(to)
    && (to == from ||
        match to
        case Ready => from == Consumed
        case Offered => from == Failed
        case Downloading => from in {Offered, Failed, Consumed}
        case ReadyToPaste => from in {Downloading, Consumed}
        case Consumed => from in {Ready, ReadyToPaste}
        case Failed => true
        case UnknownState(_) => false)
  }

  /** Setting a state succeeds exactly from where it can come from; in particular every listed item can be failed. */
  lemma SetsStateIff(items: seq<HistoryItem>, id: string, to: ItemState, now: Time)
    ensures StateSet(items, id, to, now).1 <==>
              id != "" && exists k :: 0 <= k < |items| && items[k].id == id && FindID(items, id) == k && ComesFrom(to, items[k].state)
  {
    var k := FindID(items, id);
    if k >= 0 && StateSet(items, id, to, now).1 {
      assert items[k].id == id;
    }
  }

  /** No call takes a listed item to a state it cannot come to from the one before, unless it is added anew. */
  lemma MovesAlongTheTable(h: ListState, maxItems: nat, t: Timed, e: HistoryItem, e': HistoryItem)
    requires Sound(h) && Lawful(t.call) && e in h.items && e' in Step(h, maxItems, t).items && e'.id == e.id
    ensures || e'.state == e.state || ComesFrom(e'.state, e.state)
            || (t.call.Add? && e' == Defaulted(t.call.item, t.call.freshID, t.now))
  {
    hide Step;
    if t.call.Add? {
      AddedOrListed(h, maxItems, t, e, e');
    } else {
      var k :| 0 <= k < |h.items| && h.items[k] == e;
      var m :| 0 <= m < |Step(h, maxItems, t).items| && Step(h, maxItems, t).items[m] == e';
      SameIDs(h, maxItems, t, k, m);
      PositionMoves(h, maxItems, t, k);
    }
  }

  lemma AddedOrListed(h: ListState, maxItems: nat, t: Timed, e: HistoryItem, e': HistoryItem)
    requires Sound(h) && t.call.Add? && e in h.items && e' in Step(h, maxItems, t).items && e'.id == e.id
    ensures e' == e || e' == Defaulted(t.call.item, t.call.freshID, t.now)
  {
    hide Added, Defaulted;
    if IsValidInitial(t.call.item) {
      AddMembership(h, maxItems, t.call.item, t.call.freshID, t.now);
    } else {
      assert Added(h, maxItems, t.call.item, t.call.freshID, t.now) == h by { Refused(h, maxItems, t.call.item, t.call.freshID, t.now); }
    }
  }

  lemma Refused(h: ListState, maxItems: nat, item: HistoryItem, freshID: string, now: Time)
    requires !IsValidInitial(item)
    ensures Added(h, maxItems, item, freshID, now) == h
  {
  }

  /** Every call but an add leaves each item where it is, in its state or one that can follow. */
  lemma PositionMoves(h: ListState, maxItems: nat, t: Timed, k: nat)
    requires Lawful(t.call) && !t.call.Add? && k < |h.items|
    ensures var items' := Step(h, maxItems, t).items;
            && |items'| == |h.items|
            && (items'[k].state == h.items[k].state || ComesFrom(items'[k].state, h.items[k].state))
  {
    hide FindID, FindTransfer;
  }

  lemma SameIDs(h: ListState, maxItems: nat, t: Timed, k: nat, m: nat)
    requires Sound(h) && Lawful(t.call) && !t.call.Add? && k < |h.items| && m < |Step(h, maxItems, t).items|
    requires Step(h, maxItems, t).items[m].id == h.items[k].id
    ensures m == k
  {
  }
}

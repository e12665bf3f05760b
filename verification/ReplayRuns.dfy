/** Every run of the application's history calls, and what they guarantee to the replay hotkeys. */
module ReplayRuns {
  import opened Wrappers
  import opened History
  import opened Replay
  import Archive
  import Receiver

  // Each step is one call the program makes on its history; `now` comes with the step.
  datatype Step =
    | Receive(clip: Clip, freshID: string)
    | Record(item: HistoryItem, freshID: string)
    | Request(id: string, sendOK: bool)
    | ChunkStored(transferID: string, index: int)
    | TransferFailed(transferID: string, reason: string)
    | TransferLanded(transferID: string, paths: seq<string>, index: int)
    | PendingCompleted(transferID: string, stageOK: bool)
    | ReplayNow(id: string, savedPath: string)
    | SaveImage(id: string, path: string)
    | MarkConsumed(id: string)
    | Reserve(id: string, paths: seq<string>)
    | StorePending(id: string, mode: ReplayMode, paths: seq<string>)
    | Activate(id: string)

  /** What the sender's own copy enters as: recordOutgoing for text, images and file stubs. */
  predicate IsOutgoing(item: HistoryItem) {
    && item.id == "" && item.localPaths == [] && item.reservedPaths == []
    && match item.itemType
       case Text => item.state == Ready && item.transferID == ""
       case Image => item.state == Ready && item.transferID == ""
       case FileStub => item.state == Offered && item.transferID != ""
       case OtherType(_) => false
  }

  /** The wish is stored, with the target paths of the caller's copy if the item has none yet. */
  function PendingEdit(mode: ReplayMode, paths: seq<string>): Edit {
    (x: HistoryItem) => Ok(x.(pendingReplayMode := mode, reservedPaths := if x.reservedPaths == [] then paths else x.reservedPaths))
  }

  /** requestFileTransfer's history calls: to Downloading, and back again when the send fails. */
  function Requested(items: seq<HistoryItem>, id: string, sendOK: bool, now: Time): seq<HistoryItem> {
    var k := FindID(items, id);
    if k < 0 then items
    else
      var r := StateSet(items, id, Downloading, now);
      if !r.1 || sendOK || items[k].state == Downloading then r.0
      else Mutated(r.0, id, Receiver.StateEdit(items[k].state), now).0
  }

  ghost function Next(s: AppState, step: Step, session: string, maxItems: nat, now: Time): AppState {
    match step
    case Receive(clip, freshID) => Received(s, clip, session, maxItems, freshID, now).0
    case Record(item, freshID) =>
      if item.itemType == FileStub && FindTransfer(s.h.items, item.transferID) >= 0 then s
      else Stored(s, item, maxItems, freshID, now)
    case Request(id, sendOK) => s.(h := s.h.(items := Requested(s.h.items, id, sendOK, now)))
    case ChunkStored(tid, index) => s.(h := s.h.(items := MutatedByTransfer(s.h.items, tid, Receiver.ProgressEdit(index), now).0))
    case TransferFailed(tid, reason) => s.(h := s.h.(items := MutatedByTransfer(s.h.items, tid, Receiver.FailEdit(reason), now).0))
    case TransferLanded(tid, paths, index) =>
      s.(h := s.h.(items := MutatedByTransfer(s.h.items, tid, Receiver.ReadyEdit(paths, index), now).0))
    case PendingCompleted(tid, stageOK) => s.(h := s.h.(items := MutatedByTransfer(s.h.items, tid, Receiver.PendingDoneEdit(stageOK), now).0))
    case ReplayNow(id, savedPath) => s.(h := s.h.(items := Replayed(s.h.items, id, savedPath, now).0))
    case SaveImage(id, path) => s.(h := s.h.(items := Mutated(s.h.items, id, SaveEdit(path), now).0))
    case MarkConsumed(id) => s.(h := s.h.(items := StateSet(s.h.items, id, Consumed, now).0))
    case Reserve(id, paths) => s.(h := s.h.(items := Mutated(s.h.items, id, Receiver.ReserveEdit(paths), now).0))
    case StorePending(id, mode, paths) => s.(h := s.h.(items := Mutated(s.h.items, id, PendingEdit(mode, paths), now).0))
    case Activate(id) => s.(h := Activated(s.h, id))
  }

  /** How the program calls these: ids are generated, requests are for offered or failed files, landings have paths, only images are saved. */
  ghost predicate Lawful(s: AppState, step: Step) {
    match step
    case Receive(clip, freshID) => freshID != ""
    case Record(item, freshID) => freshID != "" && IsOutgoing(item)
    case Request(id, _) =>
      forall x :: x in s.h.items && x.id == id ==> x.itemType == FileStub && (x.state == Offered || x.state == Failed)
    case TransferLanded(_, paths, _) => paths != []
    case SaveImage(id, _) => forall x :: x in s.h.items && x.id == id ==> x.itemType == Image
    case _ => true
  }

  // ---------------------------------------------------------------- the invariant

  /** Text and images never leave Ready and Consumed; a file that is ready or consumed has a local path. */
  predicate ItemSound(x: HistoryItem) {
    && x.id != ""
    && match x.itemType
       case Text => (x.state == Ready || x.state == Consumed) && x.transferID == ""
       case Image => (x.state == Ready || x.state == Consumed) && x.transferID == ""
       case FileStub =>
         && x.state in {Offered, Downloading, ReadyToPaste, Failed, Consumed}
         && (x.state == ReadyToPaste || x.state == Consumed ==> x.localPaths != [])
       case OtherType(_) => false
  }

  ghost predicate TransfersDistinct(items: seq<HistoryItem>) {
    forall x, y :: x in items && y in items && x.transferID == y.transferID && x.transferID != "" ==> x.id == y.id
  }

  ghost predicate ItemsSound(items: seq<HistoryItem>) {
    && UniqueIDs(items) && TransfersDistinct(items)
    && forall x :: x in items ==> ItemSound(x)
  }

  /** An edit of one item that keeps it sound and leaves its ids alone. */
  lemma ReplaceKeepsSound(items: seq<HistoryItem>, k: nat, next: HistoryItem)
    requires ItemsSound(items) && k < |items| && ItemSound(next)
    requires next.id == items[k].id && next.transferID == items[k].transferID
    ensures ItemsSound(items[k := next])
  {
    var items' := items[k := next];
    assert forall i :: 0 <= i < |items'| ==> items'[i].id == items[i].id && items'[i].transferID == items[i].transferID;
    forall x, y | x in items' && y in items' && x.transferID == y.transferID && x.transferID != ""
      ensures x.id == y.id
    {
      var i :| 0 <= i < |items'| && items'[i] == x;
      var j :| 0 <= j < |items'| && items'[j] == y;
      assert items[i] in items && items[j] in items;
    }
  }

  ghost predicate SafeEdit(edit: Edit, x: HistoryItem, now: Time) {
    var r := Edited(x, edit, now);
    ItemSound(x) && r.Ok? ==> ItemSound(r.value) && r.value.id == x.id && r.value.transferID == x.transferID
  }

  lemma MutateKeepsSound(items: seq<HistoryItem>, id: string, edit: Edit, now: Time)
    requires ItemsSound(items)
    requires forall x :: x in items && x.id == id ==> SafeEdit(edit, x, now)
    ensures ItemsSound(Mutated(items, id, edit, now).0)
  {
    hide ItemSound;
    var k := FindID(items, id);
    if id != "" && k >= 0 && Edited(items[k], edit, now).Ok? {
      assert items[k] in items;
      ReplaceKeepsSound(items, k, Edited(items[k], edit, now).value);
    }
  }

  /** Only a file item carries a transfer id. */
  lemma TransferItemIsFile(items: seq<HistoryItem>, transferID: string)
    requires ItemsSound(items) && transferID != ""
    ensures forall x :: x in items && x.transferID == transferID ==> x.itemType == FileStub
  {
  }

  lemma MutateByTransferKeepsSound(items: seq<HistoryItem>, transferID: string, edit: Edit, now: Time)
    requires ItemsSound(items)
    requires forall x :: x in items && x.transferID == transferID && x.itemType == FileStub ==> SafeEdit(edit, x, now)
    ensures ItemsSound(MutatedByTransfer(items, transferID, edit, now).0)
  {
    hide ItemSound, SafeEdit;
    var k := FindTransfer(items, transferID);
    if transferID != "" && k >= 0 {
      TransferItemIsFile(items, transferID);
      assert items[k] in items;
      forall x | x in items && x.id == items[k].id
        ensures SafeEdit(edit, x, now)
      {
        var i :| 0 <= i < |items| && items[i] == x;
        assert i == k;
      }
      MutateKeepsSound(items, items[k].id, edit, now);
    }
  }

  /** A sound newcomer whose transfer id is new leaves the list sound. */
  lemma AddKeepsSound(h: ListState, maxItems: nat, item: HistoryItem, freshID: string, now: Time)
    requires ItemsSound(h.items) && (h.activeID == "" || HasID(h.items, h.activeID))
    requires IsValidInitial(item) && ItemSound(Defaulted(item, freshID, now))
    requires item.transferID != "" ==> forall x :: x in h.items ==> x.transferID != item.transferID
    ensures ItemsSound(Added(h, maxItems, item, freshID, now).items)
  {
    hide ItemSound, Added;
    AddKeepsListSound(h, maxItems, item, freshID, now);
    AddMembership(h, maxItems, item, freshID, now);
    var stored := Defaulted(item, freshID, now);
    assert stored.transferID == item.transferID;
  }

  ghost predicate Sound(s: AppState) {
    ItemsSound(s.h.items) && (s.h.activeID == "" || HasID(s.h.items, s.h.activeID))
  }

  lemma SharedKeepsSound(s: AppState, x: HistoryItem, stubToo: bool)
    requires Sound(s)
    ensures Sound(Shared(s, x, stubToo))
  {
  }

  lemma StoredKeepsSound(s: AppState, item: HistoryItem, maxItems: nat, freshID: string, now: Time)
    requires Sound(s)
    requires IsValidInitial(item) && ItemSound(Defaulted(item, freshID, now))
    requires item.transferID != "" ==> FindTransfer(s.h.items, item.transferID) < 0
    ensures Sound(Stored(s, item, maxItems, freshID, now))
  {
    hide Added, ItemsSound, Shared;
    assert item.transferID != "" ==> forall x :: x in s.h.items ==> x.transferID != item.transferID;
    assert UniqueIDs(s.h.items) by { ItemsSoundUnique(s.h.items); }
    AddKeepsSound(s.h, maxItems, item, freshID, now);
    AddKeepsListSound(s.h, maxItems, item, freshID, now);
    var s1 := s.(h := Added(s.h, maxItems, item, freshID, now));
    var k := FindTransfer(s1.h.items, item.transferID);
    if item.transferID != "" && k >= 0 {
      SharedKeepsSound(s1, s1.h.items[k], s1.h.items[k].itemType == FileStub || s1.h.items[k].itemType == Image);
    } else if ActiveItem(s1.h).Some? {
      var x := ActiveItem(s1.h).value;
      SharedKeepsSound(s1, x, x.itemType == FileStub || x.itemType == Image);
    }
  }

  lemma ItemsSoundUnique(items: seq<HistoryItem>)
    requires ItemsSound(items)
    ensures UniqueIDs(items) && forall x :: x in items ==> x.id != ""
  {
  }

  lemma ReceiveKeepsSound(s: AppState, clip: Clip, session: string, maxItems: nat, freshID: string, now: Time)
    requires Sound(s) && freshID != ""
    ensures Sound(Received(s, clip, session, maxItems, freshID, now).0)
  {
    hide Stored, Shared, ItemsSound;
    var d := Classified(clip, now);
    if d.Admit? {
      var item := d.item;
      var echo := if item.itemType == FileStub then -1 else EchoIndex(s.h.items, item, session);
      var k := FindTransfer(s.h.items, item.transferID);
      if echo >= 0 {
        SharedKeepsSound(s, s.h.items[echo], s.h.items[echo].itemType == Image);
      } else if item.transferID != "" && k >= 0 {
        SharedKeepsSound(s, s.h.items[k], s.h.items[k].itemType == FileStub);
      } else {
        StoredKeepsSound(s, item, maxItems, freshID, now);
      }
    }
  }

  /** Editing items leaves the active id where it was. */
  lemma EditKeepsActive(s: AppState, items': seq<HistoryItem>)
    requires Sound(s) && ItemsSound(items')
    requires |items'| == |s.h.items| && forall i :: 0 <= i < |items'| ==> items'[i].id == s.h.items[i].id
    ensures Sound(s.(h := s.h.(items := items')))
  {
    if HasID(s.h.items, s.h.activeID) {
      var i :| 0 <= i < |s.h.items| && s.h.items[i].id == s.h.activeID;
      assert items'[i].id == s.h.activeID;
    }
  }

  ghost predicate KeepsIDs(edit: Edit) {
    forall x: HistoryItem :: edit(x).Ok? ==> edit(x).value.id == x.id
  }

  lemma MutateKeepsIDs(items: seq<HistoryItem>, id: string, edit: Edit, now: Time)
    requires KeepsIDs(edit)
    ensures var r := Mutated(items, id, edit, now).0;
            |r| == |items| && forall i :: 0 <= i < |r| ==> r[i].id == items[i].id
  {
  }

  lemma TransferEditKeepsSound(s: AppState, transferID: string, edit: Edit, now: Time)
    requires Sound(s) && KeepsIDs(edit)
    requires forall x :: x in s.h.items && x.transferID == transferID && x.itemType == FileStub ==> SafeEdit(edit, x, now)
    ensures Sound(s.(h := s.h.(items := MutatedByTransfer(s.h.items, transferID, edit, now).0)))
  {
    hide ItemsSound, SafeEdit, Mutated;
    var items := s.h.items;
    MutateByTransferKeepsSound(items, transferID, edit, now);
    var k := FindTransfer(items, transferID);
    if transferID != "" && k >= 0 && items[k].id != "" {
      MutateKeepsIDs(items, items[k].id, edit, now);
    }
    EditKeepsActive(s, MutatedByTransfer(items, transferID, edit, now).0);
  }

  lemma IDEditKeepsSound(s: AppState, id: string, edit: Edit, now: Time)
    requires Sound(s) && KeepsIDs(edit)
    requires forall x :: x in s.h.items && x.id == id ==> SafeEdit(edit, x, now)
    ensures Sound(s.(h := s.h.(items := Mutated(s.h.items, id, edit, now).0)))
  {
    hide ItemsSound, SafeEdit, Mutated;
    MutateKeepsSound(s.h.items, id, edit, now);
    MutateKeepsIDs(s.h.items, id, edit, now);
    EditKeepsActive(s, Mutated(s.h.items, id, edit, now).0);
  }

  /** Setting a state is the edit that sets it. */
  lemma StateSetIsEdit(items: seq<HistoryItem>, id: string, to: ItemState, now: Time)
    requires IsKnownState(to)
    requires forall x :: x in items && x.id == id ==> IsValidTransition(x.state, to) || x.state != to
    ensures StateSet(items, id, to, now).0 == Mutated(items, id, Receiver.StateEdit(to), now).0
  {
    var k := FindID(items, id);
    if id != "" && k >= 0 {
      assert items[k] in items;
    }
  }

  lemma RequestKeepsSound(s: AppState, id: string, sendOK: bool, now: Time)
    requires Sound(s)
    requires forall x :: x in s.h.items && x.id == id ==> x.itemType == FileStub && (x.state == Offered || x.state == Failed)
    ensures Sound(s.(h := s.h.(items := Requested(s.h.items, id, sendOK, now))))
  {
    hide Sound, ItemsSound, Mutated;
    var k := FindID(s.h.items, id);
    if k >= 0 {
      assert s.h.items[k] in s.h.items;
      StateSetIsEdit(s.h.items, id, Downloading, now);
      IDEditKeepsSound(s, id, Receiver.StateEdit(Downloading), now);
      var s1 := s.(h := s.h.(items := StateSet(s.h.items, id, Downloading, now).0));
      IDEditKeepsSound(s1, id, Receiver.StateEdit(s.h.items[k].state), now);
    }
  }

  lemma SaveKeepsSound(s: AppState, id: string, path: string, now: Time)
    requires Sound(s)
    ensures Sound(s.(h := s.h.(items := Mutated(s.h.items, id, SaveEdit(path), now).0)))
  {
    IDEditKeepsSound(s, id, SaveEdit(path), now);
  }

  lemma ReplayKeepsSound(s: AppState, id: string, savedPath: string, now: Time)
    requires Sound(s)
    ensures Sound(s.(h := s.h.(items := Replayed(s.h.items, id, savedPath, now).0)))
  {
    hide ItemsSound;
    var items := s.h.items;
    var k := FindID(items, id);
    if id != "" && k >= 0 {
      var due := items[k].itemType == Image && items[k].payload != "";
      SaveKeepsSound(s, id, savedPath, now);
      var saved := if due then Mutated(items, id, SaveEdit(savedPath), now).0 else items;
      var s1 := s.(h := s.h.(items := saved));
      var plan := ReplayPlan(items[k], Immediate, savedPath);
      if (plan == StageText || plan == StageFiles) && (items[k].state == Ready || items[k].state == ReadyToPaste) {
        ConsumeKeepsSound(s1, id, now);
      }
    }
  }

  /** A file can only become Consumed from ReadyToPaste or Consumed, where it has its paths. */
  lemma ConsumeKeepsSound(s: AppState, id: string, now: Time)
    requires Sound(s)
    ensures Sound(s.(h := s.h.(items := StateSet(s.h.items, id, Consumed, now).0)))
  {
    assert forall x :: x in s.h.items && x.id == id ==> SafeEdit(Receiver.StateEdit(Consumed), x, now);
    IDEditKeepsSound(s, id, Receiver.StateEdit(Consumed), now);
    StateSetIsEdit(s.h.items, id, Consumed, now);
  }

  lemma TransferStepKeepsSound(s: AppState, step: Step, session: string, maxItems: nat, now: Time)
    requires Sound(s) && Lawful(s, step)
    requires step.ChunkStored? || step.TransferFailed? || step.TransferLanded? || step.PendingCompleted?
    ensures Sound(Next(s, step, session, maxItems, now))
  {
    hide ItemsSound, Received, Stored, Requested, Replayed, MutatedByTransfer, Mutated;
    match step
    case ChunkStored(tid, index) => TransferEditKeepsSound(s, tid, Receiver.ProgressEdit(index), now);
    case TransferFailed(tid, reason) => TransferEditKeepsSound(s, tid, Receiver.FailEdit(reason), now);
    case TransferLanded(tid, paths, index) => TransferEditKeepsSound(s, tid, Receiver.ReadyEdit(paths, index), now);
    case PendingCompleted(tid, stageOK) => TransferEditKeepsSound(s, tid, Receiver.PendingDoneEdit(stageOK), now);
    case _ =>
  }

  lemma StepKeepsSound(s: AppState, step: Step, session: string, maxItems: nat, now: Time)
    requires Sound(s) && Lawful(s, step)
    ensures Sound(Next(s, step, session, maxItems, now))
  {
    hide ItemsSound, Received, Stored, Requested, Replayed, MutatedByTransfer, Mutated;
    match step
    case Receive(clip, freshID) => ReceiveKeepsSound(s, clip, session, maxItems, freshID, now);
    case Record(item, freshID) =>
      if !(item.itemType == FileStub && FindTransfer(s.h.items, item.transferID) >= 0) {
        StoredKeepsSound(s, item, maxItems, freshID, now);
      }
    case Request(id, sendOK) => RequestKeepsSound(s, id, sendOK, now);
    case ChunkStored(_, _) => TransferStepKeepsSound(s, step, session, maxItems, now);
    case TransferFailed(_, _) => TransferStepKeepsSound(s, step, session, maxItems, now);
    case TransferLanded(_, _, _) => TransferStepKeepsSound(s, step, session, maxItems, now);
    case PendingCompleted(_, _) => TransferStepKeepsSound(s, step, session, maxItems, now);
    case ReplayNow(id, savedPath) => ReplayKeepsSound(s, id, savedPath, now);
    case SaveImage(id, path) => SaveKeepsSound(s, id, path, now);
    case MarkConsumed(id) => ConsumeKeepsSound(s, id, now);
    case Reserve(id, paths) => IDEditKeepsSound(s, id, Receiver.ReserveEdit(paths), now);
    case StorePending(id, mode, paths) => IDEditKeepsSound(s, id, PendingEdit(mode, paths), now);
    case Activate(id) =>
  }

  // ---------------------------------------------------------------- the receiver's single item

  /** A landing that succeeded has paths, as TransferLanded asks. */
  lemma LandingHasPaths(t: Receiver.Incoming, w: Receiver.World, copy: string, io: Receiver.CompleteIO)
    requires Receiver.Land(t, w, copy, io).paths.Some?
    ensures Receiver.Land(t, w, copy, io).paths.value != []
  {
  }

  /**
   * The receiver's steps watch one history item. In a sound list an edit by transfer id is that edit
   * of the one item carrying it, and touches no other.
   */
  lemma TransferEditIsLocal(items: seq<HistoryItem>, k: nat, edit: Edit, now: Time)
    requires ItemsSound(items) && k < |items| && items[k].transferID != ""
    ensures MutatedByTransfer(items, items[k].transferID, edit, now).0
         == items[k := Receiver.EditedOrSame(Some(items[k]), edit, now).value]
  {
    var m := FindTransfer(items, items[k].transferID);
    assert items[m] in items && items[k] in items;
    assert m == k;
    var n := FindID(items, items[k].id);
    assert n == k;
    assert items == items[k := items[k]];
  }

  /** And the request step on the list is the receiver's request for that item when none is outstanding. */
  lemma RequestIsTheReceivers(items: seq<HistoryItem>, k: nat, w: Receiver.World, manifest: Archive.Manifest, session: string,
                              sendOK: bool, now: Time)
    requires ItemsSound(items) && k < |items| && items[k].itemType == FileStub && items[k].state in {Offered, Failed}
    requires w.item == Some(items[k]) && (w.inc.Some? ==> !w.inc.value.requestActive)
    ensures var r := Receiver.RequestStep(w, items[k], manifest, session, sendOK, now);
            && r.handed.Some? && r.w.item.Some?
            && Requested(items, items[k].id, sendOK, now) == items[k := r.w.item.value]
  {
    hide TransfersDistinct;
    assert items[k] in items;
    assert FindID(items, items[k].id) == k;
    var moved := items[k := items[k].(state := Downloading, updatedAt := now)];
    assert StateSet(items, items[k].id, Downloading, now) == (moved, true);
    assert forall i :: 0 <= i < |moved| ==> moved[i].id == items[i].id;
    assert FindID(moved, items[k].id) == k;
  }

  // ---------------------------------------------------------------- whole runs

  ghost predicate IsRun(states: seq<AppState>, steps: seq<Step>, times: seq<Time>, session: string, maxItems: nat) {
    && |states| == |steps| + 1 && |times| == |steps| && states[0] == AppState(ListState([], ""), "", "")
    && forall i :: 0 <= i < |steps| ==>
         Lawful(states[i], steps[i]) && states[i + 1] == Next(states[i], steps[i], session, maxItems, times[i])
  }

  /**
   * Main result: in every reachable state a file item in ReadyToPaste or Consumed has a local path, and
   * no two items share a transfer id.
   */
  lemma {:induction false} RunsStaySound(states: seq<AppState>, steps: seq<Step>, times: seq<Time>, session: string,
                                         maxItems: nat, n: nat)
    requires IsRun(states, steps, times, session, maxItems) && n <= |steps|
    ensures Sound(states[n])
  {
    if n > 0 {
      RunsStaySound(states, steps, times, session, maxItems, n - 1);
      StepKeepsSound(states[n - 1], steps[n - 1], session, maxItems, times[n - 1]);
    }
  }

  /** For a sound item the availability check and the replay decisions agree. */
  lemma CanReplayIsExact(x: HistoryItem, savedPath: string)
    requires ItemSound(x)
    ensures CanReplay(x) <==> ReplayPlan(x, Immediate, savedPath) != RefusedForState
    ensures x.itemType != Text ==> (CanReplay(x) <==> ReplayPlan(x, SystemClipboard, savedPath) != RefusedForState)
  {
  }

  /** Hence in every reachable state replay is offered exactly when it is not refused for the item's state. */
  lemma OfferedIffNotRefused(states: seq<AppState>, steps: seq<Step>, times: seq<Time>, session: string, maxItems: nat,
                             n: nat, x: HistoryItem, savedPath: string)
    requires IsRun(states, steps, times, session, maxItems) && n <= |steps| && x in states[n].h.items
    ensures CanReplay(x) <==> ReplayPlan(x, Immediate, savedPath) != RefusedForState
    ensures x.itemType != Text ==> (CanReplay(x) <==> ReplayPlan(x, SystemClipboard, savedPath) != RefusedForState)
  {
    RunsStaySound(states, steps, times, session, maxItems, n);
    CanReplayIsExact(x, savedPath);
  }

  /**
   * A replay that is carried out leaves the item Consumed, whatever it was before; one that is not leaves
   * its state. It is carried out exactly for an item with something to put on the clipboard.
   */
  lemma ReplayConsumes(items: seq<HistoryItem>, k: nat, savedPath: string, now: Time)
    requires ItemsSound(items) && k < |items|
    ensures var x := items[k];
            var r := Replayed(items, x.id, savedPath, now);
            && |r.0| == |items| && (forall i :: 0 <= i < |items| && i != k ==> r.0[i] == items[i])
            && (r.1 <==> x.state in {Ready, ReadyToPaste, Consumed} && (x.itemType == Image ==> x.payload != "" || x.localPaths != []))
            && r.0[k].state == (if r.1 then Consumed else x.state)
            && r.0[k].localPaths == (if x.itemType == Image && x.payload != "" then [savedPath] else x.localPaths)
            && r.0[k].(state := x.state, localPaths := [], reservedPaths := [], updatedAt := 0)
               == x.(localPaths := [], reservedPaths := [], updatedAt := 0)
  {
    hide CanReplay, LazyPlan, Replayed, ItemsSound, IsValidTransition;
    SoundPlan(items, k, savedPath);
    ReplayedAt(items, k, savedPath, now);
  }

  /** An id that is not listed is not replayed. */
  lemma NothingToReplay(items: seq<HistoryItem>, id: string, savedPath: string, now: Time)
    requires id == "" || !HasID(items, id)
    ensures Replayed(items, id, savedPath, now) == (items, false)
  {
  }

  lemma SoundPlan(items: seq<HistoryItem>, k: nat, savedPath: string)
    requires ItemsSound(items) && k < |items|
    ensures UniqueIDs(items) && items[k].id != ""
    ensures var x := items[k];
            var plan := ReplayPlan(x, Immediate, savedPath);
            && (plan == StageText || plan == StageFiles
                <==> x.state in {Ready, ReadyToPaste, Consumed} && (x.itemType == Image ==> x.payload != "" || x.localPaths != []))
            && (x.state in {Ready, ReadyToPaste} ==> IsValidTransition(x.state, Consumed))
  {
    hide UniqueIDs, TransfersDistinct;
    assert items[k] in items;
  }

  /** The list after an immediate replay of item k differs at k only, and there as the plan says. */
  lemma ReplayedAt(items: seq<HistoryItem>, k: nat, savedPath: string, now: Time)
    requires UniqueIDs(items) && k < |items| && items[k].id != ""
    requires items[k].state in {Ready, ReadyToPaste} ==> IsValidTransition(items[k].state, Consumed)
    ensures var x := items[k];
            var plan := ReplayPlan(x, Immediate, savedPath);
            var done := plan == StageText || plan == StageFiles;
            var y := if x.itemType == Image && x.payload != ""
                     then x.(localPaths := [savedPath], reservedPaths := [savedPath], updatedAt := now) else x;
            Replayed(items, x.id, savedPath, now)
            == (items[k := if done && x.state in {Ready, ReadyToPaste} then y.(state := Consumed, updatedAt := now) else y], done)
  {
    hide ReplayPlan, IsValidTransition;
    assert FindID(items, items[k].id) == k;
    assert items == items[k := items[k]];
    var x := items[k];
    var due := x.itemType == Image && x.payload != "";
    var y := if due then x.(localPaths := [savedPath], reservedPaths := [savedPath], updatedAt := now) else x;
    var saved := if due then Mutated(items, x.id, SaveEdit(savedPath), now).0 else items;
    assert saved == items[k := y];
    assert forall i :: 0 <= i < |saved| ==> saved[i].id == items[i].id;
    assert FindID(saved, x.id) == k;
    assert saved[k := y.(state := Consumed, updatedAt := now)] == items[k := y.(state := Consumed, updatedAt := now)];
  }

  // ---------------------------------------------------------------- a planned path is kept

  /** The step may list a new item under this id. */
  predicate Enters(step: Step, id: string) {
    (step.Receive? || step.Record?) && step.freshID == id
  }

  ghost predicate SamePlace(x: HistoryItem, items: seq<HistoryItem>) {
    forall y :: y in items && y.id == x.id ==> y.itemType == FileStub && y.reservedPaths == x.reservedPaths
  }

  /** An edit of the program that never replaces target paths. */
  ghost predicate KeepsPlace(edit: Edit) {
    forall z: HistoryItem :: edit(z).Ok? ==>
      var y := edit(z).value;
      y.id == z.id && y.itemType == z.itemType && (z.reservedPaths != [] ==> y.reservedPaths == z.reservedPaths)
  }

  lemma MutateKeepsPlace(items: seq<HistoryItem>, id: string, edit: Edit, now: Time, x: HistoryItem)
    requires SamePlace(x, items)
    requires forall z :: z in items && z.id == id && edit(z).Ok? ==>
               edit(z).value.id == z.id && edit(z).value.itemType == z.itemType
               && (z.id == x.id ==> edit(z).value.reservedPaths == x.reservedPaths)
    ensures SamePlace(x, Mutated(items, id, edit, now).0)
  {
    var k := FindID(items, id);
    if id != "" && k >= 0 && Edited(items[k], edit, now).Ok? {
      var next := Edited(items[k], edit, now).value;
      assert items[k] in items;
      assert forall y :: y in items[k := next] ==> y == next || y in items;
    }
  }

  lemma TransferEditKeepsPlace(items: seq<HistoryItem>, transferID: string, edit: Edit, now: Time, x: HistoryItem)
    requires SamePlace(x, items) && x.reservedPaths != []
    requires KeepsPlace(edit)
    ensures SamePlace(x, MutatedByTransfer(items, transferID, edit, now).0)
  {
    hide Mutated;
    var k := FindTransfer(items, transferID);
    if transferID != "" && k >= 0 && items[k].id != "" {
      MutateKeepsPlace(items, items[k].id, edit, now, x);
    }
  }

  lemma StateSetKeepsPlace(items: seq<HistoryItem>, id: string, to: ItemState, now: Time, x: HistoryItem)
    requires SamePlace(x, items)
    ensures SamePlace(x, StateSet(items, id, to, now).0)
  {
    var k := FindID(items, id);
    if k >= 0 {
      var next := items[k].(state := to, updatedAt := now);
      assert items[k] in items;
      assert forall y :: y in items[k := next] ==> y == next || y in items;
    }
  }

  lemma StoredKeepsPlace(s: AppState, item: HistoryItem, maxItems: nat, freshID: string, now: Time, x: HistoryItem)
    requires Sound(s) && SamePlace(x, s.h.items) && IsValidInitial(item) && item.id == "" && freshID != x.id
    ensures SamePlace(x, Stored(s, item, maxItems, freshID, now).h.items)
  {
    hide Added, ItemsSound, UniqueIDs, FindTransfer, Activated, ActiveItem, HasID;
    ItemsSoundUnique(s.h.items);
    AddMembership(s.h, maxItems, item, freshID, now);
    StoredLists(s, item, maxItems, freshID, now);
  }

  lemma StoredLists(s: AppState, item: HistoryItem, maxItems: nat, freshID: string, now: Time)
    ensures Stored(s, item, maxItems, freshID, now).h.items == Added(s.h, maxItems, item, freshID, now).items
  {
    hide Added, FindTransfer, ActiveItem;
  }

  lemma TransferStepKeepsPlace(s: AppState, step: Step, session: string, maxItems: nat, now: Time, x: HistoryItem)
    requires Lawful(s, step) && x.reservedPaths != [] && SamePlace(x, s.h.items)
    requires step.ChunkStored? || step.TransferFailed? || step.TransferLanded? || step.PendingCompleted?
    ensures SamePlace(x, Next(s, step, session, maxItems, now).h.items)
  {
    hide Received, Stored, Requested, Replayed, SamePlace, Mutated, MutatedByTransfer, StateSet;
    match step
    case ChunkStored(tid, index) => TransferEditKeepsPlace(s.h.items, tid, Receiver.ProgressEdit(index), now, x);
    case TransferFailed(tid, reason) => TransferEditKeepsPlace(s.h.items, tid, Receiver.FailEdit(reason), now, x);
    case TransferLanded(tid, paths, index) => TransferEditKeepsPlace(s.h.items, tid, Receiver.ReadyEdit(paths, index), now, x);
    case PendingCompleted(tid, stageOK) => TransferEditKeepsPlace(s.h.items, tid, Receiver.PendingDoneEdit(stageOK), now, x);
    case _ =>
  }

  lemma StepKeepsPlace(s: AppState, step: Step, session: string, maxItems: nat, now: Time, x: HistoryItem)
    requires Sound(s) && Lawful(s, step) && x.id != "" && x.reservedPaths != []
    requires SamePlace(x, s.h.items) && !Enters(step, x.id)
    ensures SamePlace(x, Next(s, step, session, maxItems, now).h.items)
  {
    hide ItemsSound, Stored, SamePlace, Mutated, MutatedByTransfer, StateSet, Sound, Replayed;
    match step
    case Receive(clip, freshID) =>
      if Received(s, clip, session, maxItems, freshID, now).1 == Admitted {
        StoredKeepsPlace(s, Classified(clip, now).item, maxItems, freshID, now, x);
      }
    case Record(item, freshID) => StoredKeepsPlace(s, item, maxItems, freshID, now, x);
    case Request(id, sendOK) =>
      StateSetKeepsPlace(s.h.items, id, Downloading, now, x);
      var k := FindID(s.h.items, id);
      if k >= 0 {
        PlainEditKeepsPlace(StateSet(s.h.items, id, Downloading, now).0, id, Receiver.StateEdit(s.h.items[k].state), now, x);
      }
    case ChunkStored(_, _) => TransferStepKeepsPlace(s, step, session, maxItems, now, x);
    case TransferFailed(_, _) => TransferStepKeepsPlace(s, step, session, maxItems, now, x);
    case TransferLanded(_, _, _) => TransferStepKeepsPlace(s, step, session, maxItems, now, x);
    case PendingCompleted(_, _) => TransferStepKeepsPlace(s, step, session, maxItems, now, x);
    case ReplayNow(id, savedPath) => ReplayKeepsPlace(s.h.items, id, savedPath, now, x);
    case SaveImage(id, path) => ImageSaveKeepsPlace(s.h.items, id, path, now, x);
    case MarkConsumed(id) => StateSetKeepsPlace(s.h.items, id, Consumed, now, x);
    case Reserve(id, paths) => PlainEditKeepsPlace(s.h.items, id, Receiver.ReserveEdit(paths), now, x);
    case StorePending(id, mode, paths) => PlainEditKeepsPlace(s.h.items, id, PendingEdit(mode, paths), now, x);
    case Activate(id) =>
  }

  lemma PlainEditKeepsPlace(items: seq<HistoryItem>, id: string, edit: Edit, now: Time, x: HistoryItem)
    requires SamePlace(x, items) && x.reservedPaths != []
    requires KeepsPlace(edit)
    ensures SamePlace(x, Mutated(items, id, edit, now).0)
  {
    hide Mutated;
    MutateKeepsPlace(items, id, edit, now, x);
  }

  lemma ImageSaveKeepsPlace(items: seq<HistoryItem>, id: string, path: string, now: Time, x: HistoryItem)
    requires SamePlace(x, items) && forall z :: z in items && z.id == id ==> z.itemType == Image
    ensures SamePlace(x, Mutated(items, id, SaveEdit(path), now).0)
  {
    hide Mutated;
    MutateKeepsPlace(items, id, SaveEdit(path), now, x);
  }

  lemma ReplayKeepsPlace(items: seq<HistoryItem>, id: string, savedPath: string, now: Time, x: HistoryItem)
    requires SamePlace(x, items)
    ensures SamePlace(x, Replayed(items, id, savedPath, now).0)
  {
    hide Mutated, StateSet, ReplayPlan;
    var k := FindID(items, id);
    if id != "" && k >= 0 {
      assert items[k] in items;
      var due := items[k].itemType == Image && items[k].payload != "";
      if due {
        NotItself(items, k, x, savedPath, now);
      }
      var saved := if due then Mutated(items, id, SaveEdit(savedPath), now).0 else items;
      StateSetKeepsPlace(saved, id, Consumed, now, x);
    }
  }

  /** An image has another id than the file x. */
  lemma NotItself(items: seq<HistoryItem>, k: nat, x: HistoryItem, savedPath: string, now: Time)
    requires SamePlace(x, items) && k < |items| && items[k].itemType == Image && items[k].id != ""
    ensures SamePlace(x, Mutated(items, items[k].id, SaveEdit(savedPath), now).0)
  {
    assert items[k] in items && items[k].id != x.id;
    MutateKeepsPlace(items, items[k].id, SaveEdit(savedPath), now, x);
  }

  /**
   * Main result: once a file item has target paths - a hotkey may have pasted them long before the file is
   * there - no step of any run changes them, whatever is received, requested, landed or replayed.
   */
  lemma {:induction false} PlannedPathsStay(states: seq<AppState>, steps: seq<Step>, times: seq<Time>, session: string,
                                            maxItems: nat, i: nat, n: nat, x: HistoryItem)
    requires IsRun(states, steps, times, session, maxItems) && i <= n <= |steps|
    requires x in states[i].h.items && x.itemType == FileStub && x.reservedPaths != []
    requires forall j :: i <= j < n ==> !Enters(steps[j], x.id)
    ensures SamePlace(x, states[n].h.items)
  {
    hide Sound, Next, Lawful;
    RunsStaySound(states, steps, times, session, maxItems, i);
    if i < n {
      PlannedPathsStay(states, steps, times, session, maxItems, i, n - 1, x);
      RunsStaySound(states, steps, times, session, maxItems, n - 1);
      SoundHasID(states[i], x);
      StepKeepsPlace(states[n - 1], steps[n - 1], session, maxItems, times[n - 1], x);
    } else {
      SoundHasID(states[i], x);
    }
  }

  lemma SoundHasID(s: AppState, x: HistoryItem)
    requires Sound(s) && x in s.h.items
    ensures x.id != "" && forall y :: y in s.h.items && y.id == x.id ==> y == x
  {
  }

  // ---------------------------------------------------------------- a wish is honoured

  /**
   * A hotkey's wish for a file still on its way: once the file has landed and the wish is settled, the item is
   * Consumed exactly if its path was pasted ahead or its real content could be staged, else ready to paste.
   */
  lemma WishIsHonoured(s: AppState, k: nat, mode: ReplayMode, planned: seq<string>, landed: seq<string>, index: int, stageOK: bool,
                       session: string, maxItems: nat, now: Time, later: Time)
    requires Sound(s) && k < |s.h.items| && s.h.items[k].itemType == FileStub && s.h.items[k].state == Downloading
    requires s.h.items[k].transferID != "" && landed != []
    ensures var x := s.h.items[k];
            var s1 := Next(s, StorePending(x.id, mode, planned), session, maxItems, now);
            var s2 := Next(s1, TransferLanded(x.transferID, landed, index), session, maxItems, later);
            var s3 := Next(s2, PendingCompleted(x.transferID, stageOK), session, maxItems, later);
            && |s3.h.items| == |s.h.items| && (forall i :: 0 <= i < |s.h.items| && i != k ==> s3.h.items[i] == s.h.items[i])
            && var y := s3.h.items[k];
               && (y.state == Consumed <==> mode == PathPlaceholder || (mode == SystemClipboard && stageOK))
               && (y.state == Consumed || y.state == ReadyToPaste)
               && y.localPaths == landed
               && y.reservedPaths == (if x.reservedPaths != [] then x.reservedPaths else if planned != [] then planned else landed)
  {
    hide ItemsSound, Received, Stored, Requested, Replayed, MutatedByTransfer, Mutated, Edited;
    var x := s.h.items[k];
    var wish, land, settle := PendingEdit(mode, planned), Receiver.ReadyEdit(landed, index), Receiver.PendingDoneEdit(stageOK);
    WishOnItem(x, mode, planned, landed, index, stageOK, now, later);
    SoundHasID(s, x);
    EditAt(s.h.items, k, wish, now);
    IDEditKeepsSound(s, x.id, wish, now) by { WishIsSafe(mode, planned, now); }
    var s1 := Next(s, StorePending(x.id, mode, planned), session, maxItems, now);
    TransferEditIsLocal(s1.h.items, k, land, later);
    TransferEditKeepsSound(s1, x.transferID, land, later) by { LandingIsSafe(landed, index, later); }
    var s2 := Next(s1, TransferLanded(x.transferID, landed, index), session, maxItems, later);
    TransferEditIsLocal(s2.h.items, k, settle, later);
  }

  /** The three edits on the item alone. */
  lemma WishOnItem(x: HistoryItem, mode: ReplayMode, planned: seq<string>, landed: seq<string>, index: int, stageOK: bool,
                   now: Time, later: Time)
    requires x.state == Downloading
    ensures var x1 := Edited(x, PendingEdit(mode, planned), now);
            && x1.Ok? && x1.value.id == x.id && x1.value.transferID == x.transferID
            && var x2 := Receiver.EditedOrSame(Some(x1.value), Receiver.ReadyEdit(landed, index), later).value;
               var y := Receiver.EditedOrSame(Some(x2), Receiver.PendingDoneEdit(stageOK), later).value;
               && x2.id == x.id && x2.transferID == x.transferID
               && (y.state == Consumed <==> mode == PathPlaceholder || (mode == SystemClipboard && stageOK))
               && (y.state == Consumed || y.state == ReadyToPaste)
               && y.localPaths == landed
               && y.reservedPaths == (if x.reservedPaths != [] then x.reservedPaths else if planned != [] then planned else landed)
  {
  }

  lemma WishIsSafe(mode: ReplayMode, planned: seq<string>, now: Time)
    ensures KeepsIDs(PendingEdit(mode, planned)) && forall x :: SafeEdit(PendingEdit(mode, planned), x, now)
  {
  }

  lemma LandingIsSafe(landed: seq<string>, index: int, now: Time)
    requires landed != []
    ensures KeepsIDs(Receiver.ReadyEdit(landed, index))
    ensures forall x: HistoryItem :: x.itemType == FileStub ==> SafeEdit(Receiver.ReadyEdit(landed, index), x, now)
  {
  }

  lemma EditAt(items: seq<HistoryItem>, k: nat, edit: Edit, now: Time)
    requires ItemsSound(items) && k < |items| && items[k].id != "" && Edited(items[k], edit, now).Ok?
    ensures Mutated(items, items[k].id, edit, now).0 == items[k := Edited(items[k], edit, now).value]
  {
    assert FindID(items, items[k].id) == k;
  }

  // ---------------------------------------------------------------- what a message becomes

  /** A new item holding what the message held: text and images ready for use, a file only offered. */
  predicate EnteredAs(x: HistoryItem, clip: Clip, freshID: string, now: Time) {
    && x.id == freshID && x.payload == clip.payload && x.fileName == clip.fileName && x.createdAt == x.updatedAt == now
    && x.localPaths == x.reservedPaths == [] && x.pendingReplayMode == NoMode && x.errorMessage == ""
    && match clip.clipType
       case ClipText => x.itemType == x.payloadType == Text && x.state == Ready && FromRemote(x, clip) && x.lastChunkIdx == 0
       case ClipImage => x.itemType == x.payloadType == Image && x.state == Ready && FromRemote(x, clip) && x.lastChunkIdx == 0
       case ClipFileStub =>
         && x.itemType == FileStub && x.payloadType == OtherType("") && x.state == Offered && x.lastChunkIdx == -1
         && (if ProperStub(clip) then
               && x.transferID == clip.stub.value.transferID && x.kind == clip.stub.value.kind
               && x.displayName == clip.stub.value.displayName && x.sourceSessionID == clip.stub.value.sourceSessionID
               && x.sourceDevice == (if clip.stub.value.sourceDevice != "" then clip.stub.value.sourceDevice else x.sourceSessionID)
             else FromRemote(x, clip))
       case _ => false
  }

  predicate FromRemote(x: HistoryItem, clip: Clip) {
    x.transferID == "" && x.sourceSessionID == clip.source && x.sourceDevice == "remote"
  }

  predicate ProperStub(clip: Clip) {
    clip.stub.Some? && clip.stub.value.version > 0 && clip.stub.value.transferID != ""
  }

  /** Somewhere in the list is an item this message is an echo of. */
  ghost predicate IsEcho(s: AppState, clip: Clip, session: string, now: Time) {
    && (clip.clipType == ClipText || clip.clipType == ClipImage)
    && exists x :: x in s.h.items && SameContent(x, clip) && EchoMatches(x, Classified(clip, now).item, session)
  }

  predicate SameContent(x: HistoryItem, clip: Clip) {
    && x.itemType == (if clip.clipType == ClipText then Text else Image)
    && x.payload == clip.payload && x.fileName == clip.fileName
  }

  /**
   * What is taken for an echo: the same content, either in a message this session itself sent, of an item
   * no other session sent; or in any other message at most two seconds after an item of this session.
   */
  lemma EchoMeaning(x: HistoryItem, clip: Clip, session: string, now: Time)
    requires clip.clipType == ClipText || clip.clipType == ClipImage
    ensures var own := session != "" && clip.source == session;
            var mine := (session != "" && x.sourceSessionID == session) || x.sourceDevice == "local";
            EchoMatches(x, Classified(clip, now).item, session) <==>
              && SameContent(x, clip)
              && if own then x.sourceSessionID == "" || x.sourceSessionID == session
                 else mine && x.createdAt != 0 && x.createdAt <= now && now - x.createdAt <= 2_000_000_000
  {
  }

  /** What this session sent and then hears back is not listed a second time. */
  lemma OwnMessageIsNotListedTwice(s: AppState, item: HistoryItem, freshID: string, clip: Clip, session: string, maxItems: nat,
                                   now: Time, freshID': string, now': Time)
    requires Sound(s) && freshID != "" && IsOutgoing(item) && (clip.clipType == ClipText || clip.clipType == ClipImage)
    requires SameContent(item, clip) && item.sourceSessionID in {"", session} && session != "" && clip.source == session
    ensures var s1 := Next(s, Record(item, freshID), session, maxItems, now);
            var (s2, action) := Received(s1, clip, session, maxItems, freshID', now');
            action == Reused && s2.h.items == s1.h.items
  {
    hide Added, Sound, Stored, EchoMatches, Shared, EchoIndex;
    var s1 := Next(s, Record(item, freshID), session, maxItems, now);
    var x := Defaulted(item, freshID, now);
    RecordLists(s, item, maxItems, freshID, now);
    EchoMeaning(x, clip, session, now');
    EchoIff(s1, clip, session, now');
    var k := EchoIndex(s1.h.items, Classified(clip, now').item, session);
    SharedKeepsList(s1, s1.h.items[k], s1.h.items[k].itemType == Image);
  }

  lemma SharedKeepsList(s: AppState, x: HistoryItem, stubToo: bool)
    ensures Shared(s, x, stubToo).h.items == s.h.items
  {
  }

  lemma RecordLists(s: AppState, item: HistoryItem, maxItems: nat, freshID: string, now: Time)
    requires Sound(s) && freshID != "" && IsOutgoing(item) && item.itemType != FileStub
    ensures Defaulted(item, freshID, now) in Stored(s, item, maxItems, freshID, now).h.items
  {
    hide Added, ItemsSound, Stored;
    ItemsSoundUnique(s.h.items);
    AddMembership(s.h, maxItems, item, freshID, now);
    StoredLists(s, item, maxItems, freshID, now);
  }

  /** This item is now shared, active, and what the file hotkeys work on unless it is a text. */
  predicate InHand(s: AppState, x: HistoryItem, lastStubID: string) {
    x in s.h.items && s.sharedID == x.id && s.h.activeID == x.id && s.lastStubID == if x.itemType == Text then lastStubID else x.id
  }

  /** A file already known by its transfer id. */
  ghost predicate IsKnownFile(s: AppState, clip: Clip) {
    clip.clipType == ClipFileStub && ProperStub(clip) && exists x :: x in s.h.items && x.transferID == clip.stub.value.transferID
  }

  /** What a text, an image or a file's stub leaves in hand, by what was listed before. */
  ghost predicate Arrived(s: AppState, s': AppState, clip: Clip, session: string, freshID: string, now: Time, x: HistoryItem) {
    if IsEcho(s, clip, session, now) then s'.h.items == s.h.items && SameContent(x, clip)
    else if IsKnownFile(s, clip) then s'.h.items == s.h.items && x.transferID == clip.stub.value.transferID
    else EnteredAs(x, clip, freshID, now)
  }

  /**
   * A text, an image or a file's stub always ends up as the shared and active item: the listed one it is an
   * echo of, the listed file with its transfer id, or else a new one. Other messages change nothing.
   */
  lemma ReceivedIsShared(s: AppState, clip: Clip, session: string, maxItems: nat, freshID: string, now: Time)
    requires Sound(s) && freshID != ""
    ensures var (s', action) := Received(s, clip, session, maxItems, freshID, now);
            && (action == Reused <==> IsEcho(s, clip, session, now))
            && (action == Legacy <==> clip.clipType == ClipFileEager) && (action == Ignored <==> clip.clipType == ClipOther)
            && (action == Legacy || action == Ignored ==> s' == s)
            && (action == Reused || action == Admitted ==>
                  exists x :: InHand(s', x, s.lastStubID) && Arrived(s, s', clip, session, freshID, now, x))
  {
    hide Stored, ItemsSound, EchoMatches, EnteredAs, Shared;
    if Classified(clip, now).Admit? {
      var item := Classified(clip, now).item;
      var s' := Received(s, clip, session, maxItems, freshID, now).0;
      EchoIff(s, clip, session, now);
      ItemsSoundUnique(s.h.items);
      var k := FindTransfer(s.h.items, item.transferID);
      if IsEcho(s, clip, session, now) {
        var x := s.h.items[EchoIndex(s.h.items, item, session)];
        SharedInHand(s, x, x.itemType == Image);
        assert InHand(s', x, s.lastStubID);
      } else if item.transferID != "" && k >= 0 {
        TransferItemIsFile(s.h.items, item.transferID);
        SharedInHand(s, s.h.items[k], true);
        assert InHand(s', s.h.items[k], s.lastStubID);
      } else {
        assert item.transferID != "" ==> forall y :: y in s.h.items ==> y.transferID != item.transferID;
        EntersAsNew(s, clip, maxItems, freshID, now);
      }
    }
  }

  lemma EchoIff(s: AppState, clip: Clip, session: string, now: Time)
    requires Classified(clip, now).Admit?
    ensures var item := Classified(clip, now).item;
            var k := EchoIndex(s.h.items, item, session);
            IsEcho(s, clip, session, now) <==> item.itemType != FileStub && k >= 0
    ensures IsEcho(s, clip, session, now) ==>
              SameContent(s.h.items[EchoIndex(s.h.items, Classified(clip, now).item, session)], clip)
  {
    hide IsSameLocalEcho;
  }

  /** A listed item with a unique id of its own, once shared, is in hand. */
  lemma SharedInHand(s: AppState, x: HistoryItem, stubToo: bool)
    requires x in s.h.items && x.id != "" && (x.itemType != Text <==> stubToo)
    ensures var s' := Shared(s, x, stubToo); InHand(s', x, s.lastStubID) && s'.h.items == s.h.items
  {
  }

  lemma EntersAsNew(s: AppState, clip: Clip, maxItems: nat, freshID: string, now: Time)
    requires Sound(s) && freshID != "" && Classified(clip, now).Admit?
    requires var tid := Classified(clip, now).item.transferID;
             tid != "" ==> forall y :: y in s.h.items ==> y.transferID != tid
    ensures var x := Classified(clip, now).item.(id := freshID);
            && InHand(Stored(s, Classified(clip, now).item, maxItems, freshID, now), x, s.lastStubID)
            && EnteredAs(x, clip, freshID, now)
  {
    hide Added, ItemsSound, Shared, InHand, ActiveItem, HasID;
    var item := Classified(clip, now).item;
    var x := item.(id := freshID);
    assert Defaulted(item, freshID, now) == x;
    ItemsSoundUnique(s.h.items);
    AddMembership(s.h, maxItems, item, freshID, now);
    AddKeepsListSound(s.h, maxItems, item, freshID, now);
    var s1 := s.(h := Added(s.h, maxItems, item, freshID, now));
    assert x in s1.h.items && s1.h.activeID == x.id;
    OnlyOneWithID(s1.h, x);
    if item.transferID != "" {
      FoundByTransfer(s.h.items, s1.h.items, x);
    }
    SharedInHand(s1, x, x.itemType != Text);
  }

  lemma FoundByTransfer(before: seq<HistoryItem>, items: seq<HistoryItem>, x: HistoryItem)
    requires x in items && forall e :: e in items ==> e == x || e in before
    requires forall y :: y in before ==> y.transferID != x.transferID
    ensures var k := FindTransfer(items, x.transferID); k >= 0 && items[k] == x
  {
    var k := FindTransfer(items, x.transferID);
    if k >= 0 {
      assert items[k] in items;
    }
  }

  lemma OnlyOneWithID(h: ListState, x: HistoryItem)
    requires UniqueIDs(h.items) && x in h.items && h.activeID == x.id && x.id != ""
    ensures ActiveItem(h) == Some(x)
  {
  }

  /** Where the two would part, over all items: only where the invariant does not let an item be. */
  lemma DisagreeIff(x: HistoryItem, savedPath: string)
    ensures var plan := ReplayPlan(x, Immediate, savedPath);
            (CanReplay(x) <==> plan != RefusedForState && plan != UnsupportedType) <==>
              && !(x.itemType == Image && x.state in {Offered, Downloading, Failed})
              && !(x.itemType == FileStub && x.state in {ReadyToPaste, Consumed} && x.localPaths == [] && x.reservedPaths != [])
              && !(x.itemType == FileStub && x.state == Ready && x.localPaths != [])
  {
  }

  /**
   * In every reachable state a replay asks the sender for exactly the files that are offered or failed, so
   * the request is one the transfer accepts; it waits for those on their way, and pastes text as text only.
   */
  lemma PlannedRequestsAreLawful(s: AppState, x: HistoryItem, mode: ReplayMode, savedPath: string, sendOK: bool)
    requires Sound(s) && x in s.h.items && (mode == Immediate || mode == SystemClipboard)
    ensures var plan := ReplayPlan(x, mode, savedPath);
            && (plan == RequestTransfer <==> x.itemType == FileStub && x.state in {Offered, Failed})
            && (plan == AlreadyDownloading <==> x.itemType == FileStub && x.state == Downloading)
            && (plan == StageText <==> x.itemType == Text && mode == Immediate)
            && (plan == ModeNotApplicable <==> x.itemType == Text && mode == SystemClipboard)
            && (plan == StageFiles ==> Materialized(x, savedPath).localPaths != [])
            && (plan == RequestTransfer ==> Lawful(s, Request(x.id, sendOK)))
  {
    hide UniqueIDs, TransfersDistinct;
    SoundHasID(s, x);
  }

  /** The local path is what it rests on: a ready file with only a reserved path is offered and then refused. */
  lemma ReservedPathIsNotEnough(x: HistoryItem, savedPath: string)
    requires x.itemType == FileStub && x.state == ReadyToPaste && x.localPaths == [] && x.reservedPaths != []
    ensures CanReplay(x) && ReplayPlan(x, Immediate, savedPath) == RefusedForState
  {
  }
}

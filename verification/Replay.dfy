/**
 * How history items enter, what the replay hotkeys do with them, and why an item that can be replayed
 * is never refused for its state.
 */
module Replay {
  import opened Wrappers
  import opened History
  import HistoryManager

  const ECHO_WINDOW: nat := 2_000_000_000

  // A received message. stub is the file manifest its payload decodes to, if it does.
  datatype Stub = Stub(version: int, transferID: string, kind: string, displayName: string, sourceSessionID: string, sourceDevice: string)

  datatype ClipType = ClipText | ClipImage | ClipFileStub | ClipFileEager | ClipOther

  datatype Clip = Clip(clipType: ClipType, payload: string, fileName: string, source: string, stub: Option<Stub>)

  datatype Decision = Ignore | Admit(item: HistoryItem) | LegacyPaste

  datatype Action = Ignored | Admitted | Reused | Legacy

  // The history together with the two item ids the application remembers.
  datatype AppState = AppState(h: ListState, sharedID: string, lastStubID: string)

  // ---------------------------------------------------------------- entering the history

  function BareItem(itemType: ItemType, state: ItemState, clip: Clip, now: Time): HistoryItem {
    HistoryItem("", itemType, state, "", "", clip.payload, if itemType == FileStub then OtherType("") else itemType, clip.fileName,
                clip.source, "remote", now, now, "", [], [], NoMode, 0, "")
  }

  /** classifyReceivedClipboardData. */
  function Classified(clip: Clip, now: Time): Decision {
    match clip.clipType
    case ClipText => Admit(BareItem(Text, Ready, clip, now))
    case ClipImage => Admit(BareItem(Image, Ready, clip, now))
    case ClipFileStub =>
      var item := BareItem(FileStub, Offered, clip, now).(lastChunkIdx := -1);
      if clip.stub.Some? && clip.stub.value.version > 0 && clip.stub.value.transferID != "" then
        var m := clip.stub.value;
        Admit(item.(kind := m.kind, displayName := m.displayName, transferID := m.transferID, sourceSessionID := m.sourceSessionID,
                    sourceDevice := if m.sourceDevice == "" then m.sourceSessionID else m.sourceDevice))
      else Admit(item)
    case ClipFileEager => LegacyPaste
    case ClipOther => Ignore
  }

  predicate IsLocalOrigin(x: HistoryItem, session: string) {
    (x.sourceSessionID != "" && session != "" && x.sourceSessionID == session) || x.sourceDevice == "local"
  }

  /** isSameLocalEcho; two seconds is the window for messages that lost their source. */
  predicate IsSameLocalEcho(x: HistoryItem, incoming: HistoryItem, session: string) {
    if IsLocalOrigin(incoming, session) then
      incoming.sourceSessionID == "" || x.sourceSessionID == "" || incoming.sourceSessionID == x.sourceSessionID
    else
      && IsLocalOrigin(x, session) && incoming.createdAt != 0 && x.createdAt != 0
      && 0 <= incoming.createdAt - x.createdAt <= ECHO_WINDOW
  }

  predicate EchoMatches(x: HistoryItem, incoming: HistoryItem, session: string) {
    && x.itemType == incoming.itemType && x.payload == incoming.payload && x.fileName == incoming.fileName
    && IsSameLocalEcho(x, incoming, session)
  }

  /** Position of the first listed item this one is an echo of, or -1; file stubs never are. */
  function EchoIndex(items: seq<HistoryItem>, incoming: HistoryItem, session: string): (k: int)
    ensures -1 <= k < |items|
    ensures k >= 0 ==> EchoMatches(items[k], incoming, session) && forall i :: 0 <= i < k ==> !EchoMatches(items[i], incoming, session)
    ensures k < 0 ==> forall i :: 0 <= i < |items| ==> !EchoMatches(items[i], incoming, session)
  {
    if items == [] then -1
    else if EchoMatches(items[0], incoming, session) then 0
    else
      var k := EchoIndex(items[1..], incoming, session);
      assert forall i :: 0 < i < |items| ==> items[i] == items[1..][i - 1];
      if k < 0 then -1 else k + 1
  }

  function WithShared(s: AppState, id: string): AppState {
    if id == "" then s else s.(sharedID := id, h := Activated(s.h, id))
  }

  function WithStub(s: AppState, id: string): AppState {
    if id == "" then s else s.(lastStubID := id)
  }

  /** Shares an item, and remembers it as replay target when its type is one of those. */
  function Shared(s: AppState, x: HistoryItem, stubToo: bool): AppState {
    var s1 := WithShared(s, x.id);
    if stubToo then WithStub(s1, x.id) else s1
  }

  ghost function Stored(s: AppState, item: HistoryItem, maxItems: nat, freshID: string, now: Time): AppState {
    var s1 := s.(h := Added(s.h, maxItems, item, freshID, now));
    var k := FindTransfer(s1.h.items, item.transferID);
    if item.transferID != "" && k >= 0 then
      Shared(s1, s1.h.items[k], s1.h.items[k].itemType == FileStub || s1.h.items[k].itemType == Image)
    else
      match ActiveItem(s1.h)
      case None => s1
      case Some(x) => Shared(s1, x, x.itemType == FileStub || x.itemType == Image)
  }

  /** admitReceivedClipboardData, up to registering the transfer. */
  ghost function Received(s: AppState, clip: Clip, session: string, maxItems: nat, freshID: string, now: Time): (AppState, Action) {
    match Classified(clip, now)
    case Ignore => (s, Ignored)
    case LegacyPaste => (s, Legacy)
    case Admit(item) =>
      var echo := if item.itemType == FileStub then -1 else EchoIndex(s.h.items, item, session);
      var k := FindTransfer(s.h.items, item.transferID);
      if echo >= 0 then (Shared(s, s.h.items[echo], s.h.items[echo].itemType == Image), Reused)
      else if item.transferID != "" && k >= 0 then (Shared(s, s.h.items[k], s.h.items[k].itemType == FileStub), Admitted)
      else (Stored(s, item, maxItems, freshID, now), Admitted)
  }

  // ---------------------------------------------------------------- replaying

  /** canReplayHistoryItem. */
  predicate CanReplay(x: HistoryItem) {
    match x.itemType
    case Text => x.state == Ready || x.state == Consumed
    case Image =>
      (x.state == Ready || x.state == ReadyToPaste || x.state == Consumed) && (x.localPaths != [] || x.payload != "")
    case FileStub =>
      match x.state {
        case Offered => true
        case Downloading => true
        case Failed => true
        case ReadyToPaste => x.localPaths != [] || x.reservedPaths != []
        case Consumed => x.localPaths != [] || x.reservedPaths != []
        case _ => false
      }
    case OtherType(_) => false
  }

  // What a replay goes on to do once the item's type, mode and state have been looked at.
  datatype Plan = StageText | StageFiles | RequestTransfer | AlreadyDownloading | RefusedForState | ModeNotApplicable | UnsupportedType

  /** The state switch shared by immediate and real-content replay of images and files. */
  function LazyPlan(x: HistoryItem): Plan {
    match x.state
    case Offered => RequestTransfer
    case Failed => RequestTransfer
    case Downloading => AlreadyDownloading
    case Ready => if x.localPaths == [] then RefusedForState else StageFiles
    case ReadyToPaste => if x.localPaths == [] then RefusedForState else StageFiles
    case Consumed => if x.localPaths == [] then RefusedForState else StageFiles
    case UnknownState(_) => RefusedForState
  }

  function SaveEdit(path: string): Edit {
    (x: HistoryItem) => Ok(x.(localPaths := [path], reservedPaths := [path]))
  }

  /** An image whose bytes are in memory is first written to a file. */
  function Materialized(x: HistoryItem, savedPath: string): HistoryItem {
    if x.itemType == Image && x.payload != "" then SaveEdit(savedPath)(x).value else x
  }

  /** ReplaySharedClipboardItem's decision for an item and one of the two real modes. */
  function ReplayPlan(x: HistoryItem, mode: ReplayMode, savedPath: string): Plan {
    match x.itemType
    case Text =>
      if mode == SystemClipboard then ModeNotApplicable
      else if x.state == Ready || x.state == Consumed then StageText else RefusedForState
    case Image => LazyPlan(Materialized(x, savedPath))
    case FileStub => LazyPlan(x)
    case OtherType(_) => UnsupportedType
  }

  /** The list after an immediate replay whose staging works, and whether the plan was carried out. */
  function Replayed(items: seq<HistoryItem>, id: string, savedPath: string, now: Time): (seq<HistoryItem>, bool) {
    var k := FindID(items, id);
    if id == "" || k < 0 then (items, false)
    else
      var saved := if items[k].itemType == Image && items[k].payload != "" then Mutated(items, id, SaveEdit(savedPath), now).0 else items;
      var plan := ReplayPlan(items[k], Immediate, savedPath);
      if plan != StageText && plan != StageFiles then (saved, false)
      else if items[k].state == Ready || items[k].state == ReadyToPaste then StateSet(saved, id, Consumed, now)
      else (saved, true)
  }

  // ---------------------------------------------------------------- the application's history calls

  class Application {
    const history: HistoryManager.Manager
    const session: string
    var sharedID: string
    var lastStubID: string

    constructor (history: HistoryManager.Manager, session: string)
      ensures this.history == history && this.session == session
      ensures sharedID == "" && lastStubID == ""
    {
      this.history, this.session := history, session;
      sharedID, lastStubID := "", "";
    }

    ghost function Value(): AppState
      reads this, history
    {
      AppState(history.Contents(), sharedID, lastStubID)
    }

    method SetShared(id: string)
      modifies this, history
      ensures Value() == WithShared(old(Value()), id)
    {
      if id == "" {
        return;
      }
      sharedID := id;
      var ok := history.SetActive(id);
    }

    method SetLastStub(id: string)
      modifies this
      ensures Value() == WithStub(old(Value()), id)
    {
      if id != "" {
        lastStubID := id;
      }
    }

    method Share(x: HistoryItem, stubToo: bool)
      modifies this, history
      ensures Value() == Shared(old(Value()), x, stubToo)
    {
      SetShared(x.id);
      if stubToo {
        SetLastStub(x.id);
      }
    }

    method FindEcho(incoming: HistoryItem) returns (k: int)
      ensures k == EchoIndex(history.items, incoming, session)
    {
      for i := 0 to |history.items|
        invariant forall j :: 0 <= j < i ==> !EchoMatches(history.items[j], incoming, session)
      {
        if EchoMatches(history.items[i], incoming, session) {
          return i;
        }
      }
      return -1;
    }

    method StoreItem(item: HistoryItem, freshID: string, now: Time)
      modifies this, history
      ensures Value() == Stored(old(Value()), item, history.maxItems, freshID, now)
    {
      history.AddItem(item, freshID, now);
      var stored := history.GetByTransferID(item.transferID);
      if stored.Some? {
        Share(stored.value, stored.value.itemType == FileStub || stored.value.itemType == Image);
        return;
      }
      var latest := history.GetActive();
      if latest.Some? {
        Share(latest.value, latest.value.itemType == FileStub || latest.value.itemType == Image);
      }
    }

    method AdmitReceivedClipboardData(clip: Clip, freshID: string, now: Time) returns (action: Action)
      modifies this, history
      ensures (Value(), action) == Received(old(Value()), clip, session, history.maxItems, freshID, now)
    {
      var decision := Classified(clip, now);
      match decision {
        case Ignore => return Ignored;
        case LegacyPaste => return Legacy;
        case Admit(item) =>
          if item.itemType != FileStub {
            var echo := FindEcho(item);
            if echo >= 0 {
              var x := history.items[echo];
              Share(x, x.itemType == Image);
              return Reused;
            }
          }
          var existing := history.GetByTransferID(item.transferID);
          if existing.Some? {
            Share(existing.value, existing.value.itemType == FileStub);
            return Admitted;
          }
          StoreItem(item, freshID, now);
          return Admitted;
      }
    }

    /** An immediate replay of the listed item, its image saved first when that is due. */
    method ReplayItem(id: string, savedPath: string, now: Time) returns (done: bool)
      modifies history
      ensures (history.items, done) == Replayed(old(history.items), id, savedPath, now)
    {
      var found := history.GetByID(id);
      if found.None? {
        return false;
      }
      var k := history.FindIndexByID(id);
      var x := history.items[k];
      if x.itemType == Image && x.payload != "" {
        var saved := history.Mutate(id, SaveEdit(savedPath), now);
      }
      var plan := ReplayPlan(x, Immediate, savedPath);
      if plan != StageText && plan != StageFiles {
        return false;
      }
      if x.state == Ready || x.state == ReadyToPaste {
        done := history.UpdateState(id, Consumed, now);
        return done;
      }
      return true;
    }
  }
}

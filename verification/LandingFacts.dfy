/** Exactly when a completion closes its transfer, and what one that does not leaves alone. */
module LandingFacts {
  import opened Wrappers
  import opened Archive
  import opened History
  import opened Receiver
  import opened TransferRuns
  import opened TransferFacts
  import opened ChunkFacts

  /** There is a copy to digest: bytes in memory, a file that can be read, or an empty raw payload. */
  predicate HasCopy(t: Incoming, temp: map<string, string>, io: CompleteIO) {
    t.archiveBytes != "" || (t.archivePath == "" && t.manifest.raw) || (t.archivePath in temp && io.hashOK)
  }

  function CopyOf(t: Incoming, temp: map<string, string>): string {
    if t.archiveBytes != "" || t.archivePath !in temp || (t.archivePath == "" && t.manifest.raw) then t.archiveBytes else temp[t.archivePath]
  }

  /** The item's own target paths once a completion has planned missing ones. */
  function OwnPaths(item: Option<HistoryItem>, io: CompleteIO): seq<string> {
    if item.None? then []
    else if item.value.reservedPaths != [] || io.planned.None? then item.value.reservedPaths
    else io.planned.value
  }

  function Wanted(own: seq<string>, io: CompleteIO): seq<string> {
    if own == [] && io.planned.Some? then io.planned.value else own
  }

  /** All paths stay below the replay root. */
  predicate AllInside(paths: seq<string>, io: CompleteIO) {
    forall i :: 0 <= i < |paths| ==> io.normalize(paths[i]).Some?
  }

  /** The item's first path is inside the root and holds the archive already. */
  predicate Holds(targets: map<string, string>, own: seq<string>, copy: string, io: CompleteIO) {
    && own != [] && io.normalize(own[0]).Some? && io.probeOK
    && io.normalize(own[0]).value in targets && targets[io.normalize(own[0]).value] == copy
  }

  /** The item's first path leads outside, or what is there cannot be looked at. */
  predicate Obstructed(targets: map<string, string>, own: seq<string>, io: CompleteIO) {
    own != [] && (io.normalize(own[0]).None? || (io.normalize(own[0]).value in targets && !io.probeOK))
  }

  /** A raw payload lands: its file is there already, or it can be written or moved below the root. */
  predicate RawLands(t: Incoming, temp: map<string, string>, targets: map<string, string>, own: seq<string>, copy: string, io: CompleteIO) {
    var wanted := Wanted(own, io);
    && !Obstructed(targets, own, io)
    && (|| Holds(targets, own, copy, io)
        || (&& wanted != [] && AllInside(wanted, io) && io.parentOK
            && if t.archiveBytes == "" && t.archivePath != "" then t.archivePath in temp && io.move == Moved else io.writeOK))
  }

  /** A packed payload lands: a bundle yields anything, the other kinds one thing that gets to its place. */
  predicate ZipLands(kind: string, own: seq<string>, io: CompleteIO) {
    var wanted := Wanted(own, io);
    && wanted != [] && AllInside(wanted, io) && io.parentOK && io.extracted.Some?
    && var got := io.extracted.value;
       && (kind == "multi_file" ==> got != [])
       && (kind != "multi_file" ==> |got| == 1 && (io.move == Moved || (kind == "folder" && io.normalize(wanted[0]) == Some(got[0]))))
  }

  lemma {:induction false} NormalizesIff(paths: seq<string>, io: CompleteIO)
    ensures NormalizeAll(paths, io.normalize).Some? <==> AllInside(paths, io)
  {
    if paths != [] {
      NormalizesIff(paths[1..], io);
      assert forall i :: 0 < i < |paths| ==> paths[i] == paths[1..][i - 1];
      if AllInside(paths, io) {
        assert io.normalize(paths[0]).Some?;
        assert AllInside(paths[1..], io);
      }
      if NormalizeAll(paths, io.normalize).Some? {
        var r := NormalizeAll(paths, io.normalize).value;
        assert forall i :: 0 <= i < |paths| ==> io.normalize(paths[i]) == Some(r[i]);
      }
    }
  }

  lemma LandsIff(t: Incoming, w: World, copy: string, io: CompleteIO)
    ensures var own := if w.item.None? then [] else w.item.value.reservedPaths;
            Land(t, w, copy, io).paths.Some? <==>
              if t.manifest.raw then RawLands(t, w.temp, w.targets, own, copy, io) else ZipLands(t.manifest.kind, own, io)
    ensures var own := if w.item.None? then [] else w.item.value.reservedPaths;
            var landed := Land(t, w, copy, io);
            landed.paths.Some? ==>
              && landed.paths.value != []
              && (t.manifest.raw || t.manifest.kind == "folder" ==> io.normalize(Wanted(own, io)[0]) == Some(landed.paths.value[0]))
              && (!t.manifest.raw && t.manifest.kind == "multi_file" ==> landed.paths == io.extracted)
              && (t.manifest.raw && t.archivePath != "" && t.archiveBytes == "" && !Holds(w.targets, own, copy, io) ==>
                    landed.temp == w.temp - {t.archivePath})
              && (!t.manifest.raw ==> landed.targets == w.targets && landed.temp == w.temp)
  {
    var own := if w.item.None? then [] else w.item.value.reservedPaths;
    NormalizesIff(Wanted(own, io), io);
  }

  lemma ChecksIff(t: Incoming, temp: map<string, string>, m: FileComplete, io: CompleteIO)
    ensures var checked := Checked(t, temp, m, io.hashOK);
            && (checked.Some? <==> HasCopy(t, temp, io) && m.sha == Sha256(CopyOf(t, temp)) && m.totalBytes == |CopyOf(t, temp)|)
            && (checked.Some? ==> checked.value == CopyOf(t, temp))
  {
  }

  /** What the completion is about to land, once it has passed the check and the item has its paths. */
  lemma ReservesIff(w: World, io: CompleteIO, now: Time)
    ensures var r := WithReserved(w, io.planned, now);
            && (r.Some? <==> (w.item.Some? && w.item.value.reservedPaths == [] ==> io.planned.Some?))
            && (r.Some? ==>
                  && r.value == w.(item := r.value.item) && (r.value.item.Some? <==> w.item.Some?)
                  && OwnPaths(w.item, io) == if w.item.None? then [] else r.value.item.value.reservedPaths)
  {
  }

  /** A completion closes its transfer exactly when this is so. */
  predicate Closes(w: World, m: FileComplete, io: CompleteIO)
    requires w.inc.Some?
  {
    var t := w.inc.value;
    var own := OwnPaths(w.item, io);
    && !t.completing && HasCopy(t, w.temp, io)
    && m.sha == Sha256(CopyOf(t, w.temp)) && m.totalBytes == |CopyOf(t, w.temp)|
    && (w.item.Some? && w.item.value.reservedPaths == [] ==> io.planned.Some?)
    && if t.manifest.raw then RawLands(t, w.temp, w.targets, own, CopyOf(t, w.temp), io) else ZipLands(t.manifest.kind, own, io)
  }

  /** Main result: the exact condition under which a completion closes its transfer. */
  lemma ClosesIff(w: World, m: FileComplete, io: CompleteIO, now: Time)
    requires w.inc.Some? && !w.inc.value.completed
    ensures ClosesNow(w, m, io, now) <==> Closes(w, m, io)
  {
    hide Fail, Finish, Land, Checked, WithReserved, HasCopy, CopyOf, RawLands, ZipLands, OwnPaths;
    if !w.inc.value.completing {
      var t := w.inc.value.(completing := true);
      var w1 := w.(inc := Some(t));
      SameLanding(w.inc.value, w, io);
      ChecksIff(t, w.temp, m, io);
      ReservesIff(w1, io, now);
      var checked, reserved := Checked(t, w.temp, m, io.hashOK), WithReserved(w1, io.planned, now);
      if checked.None? {
        FailKeepsOpen(w1, "archive mismatch", now);
      } else if reserved.None? {
        FailKeepsOpen(w1, "no target", now);
      } else {
        var landed := Land(t, reserved.value, checked.value, io);
        LandsIff(t, reserved.value, checked.value, io);
        if landed.paths.None? {
          FailKeepsOpen(reserved.value.(temp := landed.temp, targets := landed.targets), "landing failed", now);
        } else {
          FinishFacts(reserved.value, t, landed, io, now);
        }
      }
    }
  }

  /** Neither the check nor the landing looks at the completion's own mark. */
  lemma SameLanding(t: Incoming, w: World, io: CompleteIO)
    ensures var u := t.(completing := true);
            && HasCopy(u, w.temp, io) == HasCopy(t, w.temp, io) && CopyOf(u, w.temp) == CopyOf(t, w.temp)
            && forall own, copy :: RawLands(u, w.temp, w.targets, own, copy, io) == RawLands(t, w.temp, w.targets, own, copy, io)
  {
  }

  /** The one target a landing that fails may have cleared or half moved. */
  predicate MayTouch(item: Option<HistoryItem>, io: CompleteIO, p: string) {
    var wanted := Wanted(OwnPaths(item, io), io);
    wanted != [] && io.normalize(wanted[0]) == Some(p)
  }

  lemma FailedLanding(t: Incoming, w: World, copy: string, io: CompleteIO, item: Option<HistoryItem>)
    requires Land(t, w, copy, io).paths.None?
    requires OwnPaths(item, io) == if w.item.None? then [] else w.item.value.reservedPaths
    ensures var landed := Land(t, w, copy, io);
            && landed.temp == w.temp
            && forall p :: !MayTouch(item, io, p) ==>
                 (p in landed.targets <==> p in w.targets) && (p in w.targets ==> landed.targets[p] == w.targets[p])
  {
  }

  /**
   * A completion that does not close the transfer fails it, or finds another one at work; either way the
   * kept copy is still there, no chunk is forgotten, and no target but the transfer's own first one changes.
   */
  lemma OtherCompletion(w: World, m: FileComplete, io: CompleteIO, now: Time)
    requires w.inc.Some? && !w.inc.value.completed && !ClosesNow(w, m, io, now)
    ensures var w' := CompleteStep(w, m, io, now);
            && w'.temp == w.temp && w'.inc.Some?
            && w'.inc.value.(requestActive := false, completing := false) == w.inc.value.(requestActive := false, completing := false)
            && (w.inc.value.completing ==> w' == w)
            && (!w.inc.value.completing && CanRecord(w) ==>
                  && !w'.inc.value.requestActive && !w'.inc.value.completing
                  && w'.item.Some? && w'.item.value.state == Failed && w'.item.value.lastChunkIdx == w.item.value.lastChunkIdx)
            && forall p :: !MayTouch(w.item, io, p) ==>
                 (p in w'.targets <==> p in w.targets) && (p in w.targets ==> w'.targets[p] == w.targets[p])
  {
    hide Fail, Finish, Land, Checked, WithReserved, OwnPaths, MayTouch;
    if !w.inc.value.completing {
      var t := w.inc.value.(completing := true);
      var w1 := w.(inc := Some(t));
      ReservesIff(w1, io, now);
      ReserveKeepsState(w1, io.planned, now);
      var checked, reserved := Checked(t, w.temp, m, io.hashOK), WithReserved(w1, io.planned, now);
      if checked.None? {
        FailsOnly(w1, "archive mismatch", now);
      } else if reserved.None? {
        FailsOnly(w1, "no target", now);
      } else {
        var landed := Land(t, reserved.value, checked.value, io);
        if landed.paths.None? {
          FailedLanding(t, reserved.value, checked.value, io, w.item);
          FailsOnly(reserved.value.(temp := landed.temp, targets := landed.targets), "landing failed", now);
        } else {
          FinishFacts(reserved.value, t, landed, io, now);
        }
      }
    }
  }

  lemma FailsOnly(w: World, reason: string, now: Time)
    requires w.inc.Some?
    ensures var w' := Fail(w, reason, now);
            && w'.temp == w.temp && w'.targets == w.targets && w'.inc.Some?
            && w'.inc.value.(requestActive := false, completing := false) == w.inc.value.(requestActive := false, completing := false)
            && (CanRecord(w) ==>
                  && !w'.inc.value.requestActive && !w'.inc.value.completing
                  && w'.item.Some? && w'.item.value == w.item.value.(state := Failed, errorMessage := reason, updatedAt := now))
  {
  }
}

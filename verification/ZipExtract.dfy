/**
 * The extraction loops in 64-bit unsigned arithmetic. The running totals are uint64, so every
 * addition and subtraction below is proved not to wrap.
 */
module ZipExtract {
  import opened Wrappers
  import opened FileNames
  import opened ZipArchive

  newtype uint64 = x: int | 0 <= x < UINT64_LIMIT

  const MAX_UINT64: uint64 := (UINT64_LIMIT - 1) as uint64

  datatype CopyError = NoError | ExceededSize | ShortWrite | ReadFailed

  ghost predicate Buffered(stream: seq<Read>) {
    forall r :: r in stream ==> |r.data| <= BUFFER
  }

  lemma ContentStep(stream: seq<Read>, k: nat)
    requires k < |stream|
    ensures Content(stream[k..]) == stream[k].data + (if stream[k].status == More then Content(stream[k + 1..]) else "")
    ensures EndsWell(stream[k..]) == (if stream[k].status == More then EndsWell(stream[k + 1..]) else stream[k].status == EndOfFile)
  {
    assert stream[k..][1..] == stream[k + 1..];
    assert stream[k].data + "" == stream[k].data;
  }

  lemma ContentEnd(stream: seq<Read>)
    ensures Content(stream[0..]) == Content(stream) && EndsWell(stream[0..]) == EndsWell(stream)
    ensures Content(stream[|stream|..]) == "" && EndsWell(stream[|stream|..])
  {
    assert stream[0..] == stream;
  }

  /**
   * copyReaderWithLimit into a file with room for `space` bytes. It never writes more than the limit,
   * what it writes is the start of the content, and it succeeds exactly when the reader ends cleanly
   * within both the limit and the room - then everything was written.
   */
  method CopyReaderWithLimit(stream: seq<Read>, limit: uint64, space: nat) returns (written: uint64, out: string, err: CopyError)
    requires Buffered(stream)
    ensures |out| == written as int <= limit as int
    ensures out <= Content(stream)
    ensures err == NoError <==> EndsWell(stream) && |Content(stream)| <= limit as int && |Content(stream)| <= space
    ensures err == NoError ==> out == Content(stream)
  {
    hide Content, EndsWell;
    written, out := 0, "";
    ghost var all := Content(stream);
    ContentEnd(stream);
    for k := 0 to |stream|
      invariant |out| == written as int <= limit as int && |out| <= space
      invariant all == out + Content(stream[k..])
      invariant EndsWell(stream) == EndsWell(stream[k..])
    {
      ContentStep(stream, k);
      var data := stream[k].data;
      ghost var start := out;
      assert data in [data] && stream[k] in stream;
      assert all == (start + data) + (if stream[k].status == More then Content(stream[k + 1..]) else "");
      if |data| > 0 {
        if |data| as uint64 > limit - written {
          return written, out, ExceededSize;
        }
        var taken := if |out| + |data| <= space then |data| else space - |out|;
        out := out + data[..taken];
        written := written + taken as uint64;
        if taken != |data| {
          assert start + data == out + data[taken..];
          return written, out, ShortWrite;
        }
        assert data[..taken] == data;
      }
      assert out == start + data;
      if stream[k].status == EndOfFile {
        return written, out, NoError;
      }
      if stream[k].status == Broken {
        return written, out, ReadFailed;
      }
    }
    return written, out, NoError;
  }

  /** zipAdvertisedExtractBytes: the sum of the advertised sizes, unless it passes 64 bits. */
  method AdvertisedBytes(entries: seq<Entry>) returns (total: Option<uint64>)
    requires forall e :: e in entries ==> e.size < UINT64_LIMIT
    ensures total.Some? <==> Advertised(entries) < UINT64_LIMIT
    ensures total.Some? ==> total.value as int == Advertised(entries)
  {
    var sum: uint64 := 0;
    for k := 0 to |entries|
      invariant sum as int == Advertised(entries[..k])
    {
      assert entries[..k + 1][..k] == entries[..k] && entries[k] in entries;
      AdvertisedGrows(entries, k + 1);
      if IsDirEntry(entries[k]) {
        continue;
      }
      var size := entries[k].size as uint64;
      if sum > MAX_UINT64 - size {
        return None;
      }
      sum := sum + size;
    }
    assert entries[..|entries|] == entries;
    return Some(sum);
  }

  lemma {:induction false} AdvertisedGrows(entries: seq<Entry>, k: nat)
    requires k <= |entries|
    ensures Advertised(entries[..k]) <= Advertised(entries)
  {
    if k == |entries| {
      assert entries[..k] == entries;
    } else {
      AdvertisedGrows(entries[..|entries| - 1], k);
      assert entries[..|entries| - 1][..k] == entries[..k];
    }
  }

  lemma {:induction false} ExtractStops(entries: seq<Entry>, fs: Files, k: nat)
    requires k <= |entries| && ExtractAll(entries[..k], fs).None?
    ensures ExtractAll(entries, fs).None?
  {
    if k == |entries| {
      assert entries[..k] == entries;
    } else {
      assert entries[..|entries| - 1][..k] == entries[..k];
      ExtractStops(entries[..|entries| - 1], fs, k);
    }
  }

  lemma ExtractStep(entries: seq<Entry>, fs: Files, k: nat)
    requires k < |entries|
    ensures ExtractAll(entries[..k + 1], fs) ==
            match ExtractAll(entries[..k], fs) case None => None case Some(fs1) => ExtractOne(fs1, entries[k])
    ensures Written(entries[..k + 1]) == Written(entries[..k]) + if IsDirEntry(entries[k]) then 0 else |Content(entries[k].stream)|
  {
    assert entries[..k + 1][..k] == entries[..k];
  }

  lemma TopNamesStep(entries: seq<Entry>, k: nat)
    requires k < |entries| && Destination(entries[k].name).Some? && Destination(entries[k].name).value != []
    ensures TopNames(entries[..k + 1]) == TopNames(entries[..k]) + {Destination(entries[k].name).value[0]}
  {
    assert entries[..k + 1] == entries[..k] + [entries[k]];
  }

  class ExtractTarget {
    var fs: Files

    constructor ()
      ensures fs == EMPTY_TARGET
    {
      fs := EMPTY_TARGET;
    }

    /** Unpacks one file entry whose parent folders exist; `written` is what the copy loop counted. */
    method WriteFile(path: seq<string>, e: Entry) returns (written: uint64, ok: bool)
      requires e.size < UINT64_LIMIT && Buffered(e.stream)
      modifies this
      ensures ok <==> !(path in old(fs) && old(fs)[path].Folder?) && EndsWell(e.stream) && |Content(e.stream)| == e.size
      ensures ok ==> fs == old(fs)[path := Data(Content(e.stream))] && written as int == |Content(e.stream)| == e.size
      ensures fs.Keys <= old(fs).Keys + {path}
    {
      if path in fs && fs[path].Folder? {
        return 0, false;
      }
      var limit := e.size as uint64;
      var n, out, err := CopyReaderWithLimit(e.stream, limit, e.size);
      fs := fs[path := Data(out)];
      if err != NoError || n != limit {
        return n, false;
      }
      return n, true;
    }

    /** One turn of the extraction loop: name checks, folders, then the bytes of a file entry. */
    method UnpackEntry(e: Entry) returns (written: uint64, ok: bool)
      requires e.size < UINT64_LIMIT && Buffered(e.stream)
      modifies this
      ensures ok <==> ExtractOne(old(fs), e).Some?
      ensures ok ==> ExtractOne(old(fs), e) == Some(fs)
      ensures ok ==> written as int == if IsDirEntry(e) then 0 else |Content(e.stream)|
      ensures AllKeysSafe(old(fs)) ==> AllKeysSafe(fs)
    {
      hide AllKeysSafe, Destination, SafeName, MkdirAll, Content, EndsWell, Split;
      ghost var before := fs;
      var dest := Destination(e.name);
      if dest.None? || e.link {
        return 0, false;
      }
      var path := dest.value;
      DestinationIsSafe(e.name);
      var folder := if IsDirEntry(e) then path else path[..|path| - 1];
      var parents := MkdirAll(fs, folder);
      if parents.None? {
        return 0, false;
      }
      MkdirKeys(fs, folder);
      PathsStaySafe(before, parents.value, path, folder);
      fs := parents.value;
      if IsDirEntry(e) {
        return 0, true;
      }
      written, ok := WriteFile(path, e);
      PathsStaySafe(parents.value, fs, path, path);
    }

    /**
     * extractZipReaderSafely on an already emptied target. It succeeds exactly when the advertised sizes
     * fit 64 bits and the free space and every entry unpacks; the guards on the running total (lines
     * 1905-1911 of the source) are asserted where they stand: they can never fire. Also when it refuses,
     * nothing it wrote before is outside the target.
     */
    method ExtractZipReaderSafely(entries: seq<Entry>, available: uint64) returns (tops: Option<seq<string>>)
      requires forall e :: e in entries ==> e.size < UINT64_LIMIT && Buffered(e.stream)
      modifies this
      ensures tops.Some? <==>
              && Advertised(entries) < UINT64_LIMIT && Advertised(entries) <= available as int
              && ExtractAll(entries, old(fs)).Some?
      ensures tops.Some? ==>
              && ExtractAll(entries, old(fs)) == Some(fs)
              && Written(entries) == Advertised(entries)
              && Sorted(tops.value) && forall t :: t in tops.value <==> t in TopNames(entries)
      ensures AllKeysSafe(old(fs)) ==> AllKeysSafe(fs)
    {
      hide ExtractOne, Destination, TopNames, Content, EndsWell, LexLess, AllKeysSafe;
      var required := AdvertisedBytes(entries);
      if required.None? || (required.value > 0 && available < required.value) {
        return None;
      }
      var topLevel: set<string> := {};
      var extractedBytes: uint64 := 0;
      NoTopNames(entries);
      for k := 0 to |entries|
        invariant ExtractAll(entries[..k], old(fs)) == Some(fs)
        invariant extractedBytes as int == Written(entries[..k]) <= required.value as int
        invariant topLevel == TopNames(entries[..k])
        invariant AllKeysSafe(old(fs)) ==> AllKeysSafe(fs)
      {
        var e := entries[k];
        assert e in entries;
        ExtractStep(entries, old(fs), k);
        var written, ok := UnpackEntry(e);
        if !ok {
          ExtractStops(entries, old(fs), k + 1);
          return None;
        }
        TotalsAgree(entries, old(fs), k + 1);
        assert extractedBytes <= MAX_UINT64 - written;
        extractedBytes := extractedBytes + written;
        assert extractedBytes <= required.value;
        UnpackedHasTop(entries[k], old(fs), entries, k);
        TopNamesStep(entries, k);
        var top := Destination(e.name).value[0];
        topLevel := topLevel + {top};
      }
      assert entries[..|entries|] == entries;
      WrittenIsAdvertised(entries, old(fs));
      var paths := SortNames(topLevel);
      return Some(paths);
    }

    /** Collects the top-level names and sorts them. */
    static method SortNames(names: set<string>) returns (paths: seq<string>)
      ensures Sorted(paths) && forall t :: t in paths <==> t in names
    {
      paths := [];
      var rest := names;
      while rest != {}
        invariant rest <= names && Sorted(paths)
        invariant forall t :: t in paths <==> t in names && t !in rest
        decreases rest
      {
        var t :| t in rest;
        InsertedSorted(paths, t);
        paths := Inserted(paths, t);
        rest := rest - {t};
      }
    }
  }

  /** New keys at or above a safe path keep all keys safe. */
  lemma PathsStaySafe(fs: Files, fs': Files, path: seq<string>, part: seq<string>)
    requires forall c :: c in path ==> SafeName(c)
    requires part <= path && forall k :: k in fs' ==> k in fs || k <= part
    ensures AllKeysSafe(fs) ==> AllKeysSafe(fs')
  {
    hide SafeName;
    if AllKeysSafe(fs) {
      forall k, c | k in fs' && c in k
        ensures SafeName(c)
      {
        if k !in fs {
          assert k <= path;
        }
      }
    }
  }

  lemma NoTopNames(entries: seq<Entry>)
    ensures entries[..0] == [] && TopNames(entries[..0]) == {}
  {
  }

  lemma UnpackedHasTop(e: Entry, fs: Files, entries: seq<Entry>, k: nat)
    requires k < |entries| && e == entries[k] && ExtractAll(entries[..k + 1], fs).Some?
    ensures Destination(e.name).Some? && Destination(e.name).value != []
  {
    ExtractStep(entries, fs, k);
    DestinationIsSafe(e.name);
  }

  /** Up to any point of a good run the bytes written are those advertised so far. */
  lemma TotalsAgree(entries: seq<Entry>, fs: Files, k: nat)
    requires k <= |entries| && ExtractAll(entries[..k], fs).Some?
    ensures Written(entries[..k]) <= Advertised(entries)
  {
    WrittenIsAdvertised(entries[..k], fs);
    AdvertisedGrows(entries, k);
  }
}

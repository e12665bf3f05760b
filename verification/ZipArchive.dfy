/**
 * Directory trees into archive entries and back. A target directory is a map from component paths,
 * relative to it, to what is there; the directory itself is the empty path.
 */
module ZipArchive {
  import opened Wrappers
  import opened Forest
  import opened FileNames

  // ---------------------------------------------------------------- entries

  const BUFFER: nat := 32768
  const UINT64_LIMIT: nat := 0x1_0000_0000_0000_0000

  datatype Status = More | EndOfFile | Broken

  // One call of a reader's Read: the bytes it gave and what it reported with them.
  datatype Read = Read(data: string, status: Status)

  datatype Entry = Entry(name: string, dirMode: bool, link: bool, size: nat, stream: seq<Read>)

  predicate IsDirEntry(e: Entry) {
    e.dirMode || (e.name != "" && e.name[|e.name| - 1] == '/')
  }

  /** The bytes a reader yields before it ends. */
  function Content(stream: seq<Read>): string {
    if stream == [] then ""
    else if stream[0].status == More then stream[0].data + Content(stream[1..])
    else stream[0].data
  }

  /** A reader with nothing more to say is at its end. */
  function EndsWell(stream: seq<Read>): bool {
    if stream == [] then true
    else if stream[0].status == More then EndsWell(stream[1..])
    else stream[0].status == EndOfFile
  }

  /** A file's bytes as a reader with the copy buffer delivers them. */
  function Pieces(content: string): (stream: seq<Read>)
    ensures forall r :: r in stream ==> |r.data| <= BUFFER
  {
    if |content| <= BUFFER then [Read(content, EndOfFile)]
    else [Read(content[..BUFFER], More)] + Pieces(content[BUFFER..])
  }

  lemma {:induction false} PiecesDeliver(content: string)
    ensures Content(Pieces(content)) == content && EndsWell(Pieces(content))
  {
    if |content| > BUFFER {
      PiecesDeliver(content[BUFFER..]);
      var stream := Pieces(content);
      assert stream[1..] == Pieces(content[BUFFER..]);
      assert content == content[..BUFFER] + content[BUFFER..];
    }
  }

  /** addPathToZip: a directory's own entry, then its listing; a file's entry with its bytes. */
  function EntriesOf(n: Node, zipName: string): seq<Entry>
    requires Transferable(n)
  {
    match n
    case File(_, content) => [Entry(zipName, false, false, |content|, Pieces(content))]
    case Dir(_, kids) => [Entry(zipName + "/", true, false, 0, [])] + EntriesAll(kids, zipName + "/")
  }

  function EntriesAll(ns: seq<Node>, prefix: string): seq<Entry>
    requires AllTransferable(ns)
  {
    if ns == [] then [] else EntriesOf(ns[0], prefix + ns[0].name) + EntriesAll(ns[1..], prefix)
  }

  class ZipWriter {
    var entries: seq<Entry>

    constructor ()
      ensures entries == []
    {
      entries := [];
    }

    method AddPath(n: Node, zipName: string) returns (ok: bool)
      modifies this
      ensures ok <==> Transferable(n)
      ensures ok ==> entries == old(entries) + EntriesOf(n, zipName)
      decreases n
    {
      if n.Symlink? {
        return false;
      }
      if n.File? {
        entries := entries + [Entry(zipName, false, false, |n.content|, Pieces(n.content))];
        return true;
      }
      ghost var start := entries + [Entry(zipName + "/", true, false, 0, [])];
      entries := entries + [Entry(zipName + "/", true, false, 0, [])];
      for k := 0 to |n.kids|
        invariant AllTransferable(n.kids[..k])
        invariant entries == start + EntriesAll(n.kids[..k], zipName + "/")
      {
        var done := AddPath(n.kids[k], zipName + "/" + n.kids[k].name);
        if !done {
          return false;
        }
        EntriesAllSnoc(n.kids[..k], n.kids[k], zipName + "/");
        assert n.kids[..k + 1] == n.kids[..k] + [n.kids[k]];
      }
      assert n.kids[..|n.kids|] == n.kids;
      return true;
    }
  }

  lemma {:induction false} EntriesAllSnoc(ns: seq<Node>, last: Node, prefix: string)
    requires AllTransferable(ns) && Transferable(last)
    ensures AllTransferable(ns + [last])
    ensures EntriesAll(ns + [last], prefix) == EntriesAll(ns, prefix) + EntriesOf(last, prefix + last.name)
  {
    if ns == [] {
      assert ns + [last] == [last];
      assert EntriesAll([last][1..], prefix) == [];
    } else {
      assert (ns + [last])[1..] == ns[1..] + [last];
      EntriesAllSnoc(ns[1..], last, prefix);
    }
  }

  // ---------------------------------------------------------------- where an entry goes

  function ForwardSlashes(s: string): string {
    seq(|s|, i requires 0 <= i < |s| => if s[i] == '\\' then '/' else s[i])
  }

  /** What path.Clean keeps of a path without parent steps. */
  function Solid(parts: seq<string>): seq<string> {
    if parts == [] then []
    else if parts[0] == "" || parts[0] == "." then Solid(parts[1..])
    else [parts[0]] + Solid(parts[1..])
  }

  function SanitizedAll(parts: seq<string>): (r: seq<string>)
    ensures |r| == |parts|
    ensures forall i :: 0 <= i < |parts| ==> r[i] == Sanitized(parts[i])
  {
    seq(|parts|, i requires 0 <= i < |parts| => Sanitized(parts[i]))
  }

  /** The components an entry is written to, or None when the name is refused. */
  function Destination(name: string): Option<seq<string>> {
    var normal := ForwardSlashes(name);
    var parts := Split(normal);
    if ".." in parts || Solid(parts) == [] || (normal != "" && normal[0] == '/') then None
    else Some(SanitizedAll(Solid(parts)))
  }

  // ---------------------------------------------------------------- the target directory

  datatype Item = Folder | Data(content: string)

  type Files = map<seq<string>, Item>

  const EMPTY_TARGET: Files := map[[] := Folder]

  /** os.MkdirAll below the target: fails when a file is in the way. */
  function MkdirAll(fs: Files, path: seq<string>): Option<Files> {
    if path == [] then Some(fs)
    else
      match MkdirAll(fs, path[..|path| - 1])
      case None => None
      case Some(fs1) =>
        if path !in fs1 then Some(fs1[path := Folder])
        else if fs1[path].Folder? then Some(fs1)
        else None
  }

  /** One entry unpacked: refused names, links, obstacles and size mismatches end the extraction. */
  function ExtractOne(fs: Files, e: Entry): Option<Files> {
    match Destination(e.name)
    case None => None
    case Some(path) =>
      if e.link then None
      else if IsDirEntry(e) then MkdirAll(fs, path)
      else
        match MkdirAll(fs, path[..|path| - 1])
        case None => None
        case Some(fs1) =>
          if path in fs1 && fs1[path].Folder? then None
          else if !EndsWell(e.stream) || |Content(e.stream)| != e.size then None
          else Some(fs1[path := Data(Content(e.stream))])
  }

  function ExtractAll(entries: seq<Entry>, fs: Files): Option<Files> {
    if entries == [] then Some(fs)
    else
      match ExtractAll(entries[..|entries| - 1], fs)
      case None => None
      case Some(fs1) => ExtractOne(fs1, entries[|entries| - 1])
  }

  /** Bytes all file entries together claim to hold. */
  function Advertised(entries: seq<Entry>): nat {
    if entries == [] then 0
    else Advertised(entries[..|entries| - 1]) + if IsDirEntry(entries[|entries| - 1]) then 0 else entries[|entries| - 1].size
  }

  /** Bytes written for the file entries. */
  function Written(entries: seq<Entry>): nat {
    if entries == [] then 0
    else Written(entries[..|entries| - 1]) + if IsDirEntry(entries[|entries| - 1]) then 0 else |Content(entries[|entries| - 1].stream)|
  }

  function TopNames(entries: seq<Entry>): set<string> {
    set e | e in entries && Destination(e.name).Some? && Destination(e.name).value != [] :: Destination(e.name).value[0]
  }

  lemma {:induction false} WrittenIsAdvertised(entries: seq<Entry>, fs: Files)
    requires ExtractAll(entries, fs).Some?
    ensures Written(entries) == Advertised(entries)
  {
    if entries != [] {
      WrittenIsAdvertised(entries[..|entries| - 1], fs);
    }
  }

  lemma {:induction false} ExtractAppend(a: seq<Entry>, b: seq<Entry>, fs: Files)
    ensures ExtractAll(a + b, fs) == match ExtractAll(a, fs) case None => None case Some(fs1) => ExtractAll(b, fs1)
  {
    if b == [] {
      assert a + b == a;
    } else {
      assert (a + b)[..|a + b| - 1] == a + b[..|b| - 1];
      ExtractAppend(a, b[..|b| - 1], fs);
    }
  }

  // ---------------------------------------------------------------- containment, for any archive

  lemma {:induction false} SolidHasNoDots(parts: seq<string>)
    ensures forall p :: p in Solid(parts) ==> p in parts && p != "" && p != "."
  {
    if parts != [] {
      SolidHasNoDots(parts[1..]);
    }
  }

  lemma DestinationIsSafe(name: string)
    ensures Destination(name).Some? ==>
      Destination(name).value != [] && forall c :: c in Destination(name).value ==> SafeName(c)
  {
    if Destination(name).Some? {
      var path := Destination(name).value;
      forall c | c in path
        ensures SafeName(c)
      {
        var i :| 0 <= i < |path| && path[i] == c;
        SanitizedIsSafe(Solid(Split(ForwardSlashes(name)))[i]);
      }
    }
  }

  /** The directories are made exactly when no file is in the way; nothing else changes. */
  lemma {:induction false} MkdirIff(fs: Files, path: seq<string>)
    ensures var r := MkdirAll(fs, path);
            && (r.Some? <==> forall n :: 0 < n <= |path| && path[..n] in fs ==> fs[path[..n]].Folder?)
            && (r.Some? ==>
                  && (forall k :: k in fs ==> k in r.value && r.value[k] == fs[k])
                  && (forall n :: 0 < n <= |path| ==> path[..n] in r.value && r.value[path[..n]] == Folder)
                  && (forall k :: k in r.value && k !in fs ==> r.value[k] == Folder && k <= path && k != []))
  {
    if path != [] {
      var front := path[..|path| - 1];
      MkdirIff(fs, front);
      assert forall n :: 0 <= n <= |front| ==> path[..n] == front[..n];
      assert path[..|path|] == path;
    }
  }

  ghost predicate AllKeysSafe(fs: Files) {
    forall path, c :: path in fs && c in path ==> SafeName(c)
  }

  lemma {:induction false} MkdirKeys(fs: Files, path: seq<string>)
    ensures var r := MkdirAll(fs, path);
            r.Some? ==> forall k :: k in r.value ==> k in fs || k <= path
  {
    if path != [] {
      MkdirKeys(fs, path[..|path| - 1]);
    }
  }

  /**
   * Whatever archive unpacks, nothing is written outside the target: every component of every
   * path is a safe name, so none is empty, ".", ".." or holds a separator.
   */
  lemma {:induction false} ExtractionStaysInside(entries: seq<Entry>, fs: Files)
    requires AllKeysSafe(fs)
    ensures ExtractAll(entries, fs).Some? ==> AllKeysSafe(ExtractAll(entries, fs).value)
  {
    if entries != [] && ExtractAll(entries, fs).Some? {
      var front := entries[..|entries| - 1];
      ExtractionStaysInside(front, fs);
      var fs1 := ExtractAll(front, fs).value;
      var e := entries[|entries| - 1];
      DestinationIsSafe(e.name);
      var path := Destination(e.name).value;
      MkdirKeys(fs1, path);
      MkdirKeys(fs1, path[..|path| - 1]);
    }
  }

  /** Entry k is a file and no later file entry goes to the same place. */
  predicate LastFileAt(entries: seq<Entry>, k: nat)
    requires k < |entries|
  {
    && !IsDirEntry(entries[k])
    && forall j :: k < j < |entries| && !IsDirEntry(entries[j]) ==> Destination(entries[j].name) != Destination(entries[k].name)
  }

  ghost predicate Below(path: seq<string>, name: string) {
    Destination(name).Some? && path <= Destination(name).value
  }

  /** What entry e left behind is still there, whatever came after it. */
  predicate Unpacked(out: Files, e: Entry) {
    && !e.link && Destination(e.name).Some? && Destination(e.name).value in out
    && if e.dirMode || (|e.name| > 0 && e.name[|e.name| - 1] == '/') then out[Destination(e.name).value] == Folder
       else out[Destination(e.name).value].Data? && EndsWell(e.stream) && |Content(e.stream)| == e.size
  }

  predicate Holds(out: Files, e: Entry) {
    && Destination(e.name).Some? && Destination(e.name).value in out
    && out[Destination(e.name).value] == Data(Content(e.stream))
  }

  /**
   * An archive that unpacks holds no link and no refused name; afterwards each of its directories is
   * there, each path holds what the last file entry for it held, and nothing else has changed.
   */
  lemma {:induction false} UnpackedAsListed(entries: seq<Entry>, fs: Files)
    requires ExtractAll(entries, fs).Some?
    ensures var out := ExtractAll(entries, fs).value;
            && (forall e :: e in entries ==> Unpacked(out, e))
            && (forall k :: 0 <= k < |entries| && LastFileAt(entries, k) ==> Holds(out, entries[k]))
            && (forall p :: p in fs ==> p in out && (out[p] == fs[p] || exists e :: e in entries && Destination(e.name) == Some(p)))
            && (forall p :: p in out && p !in fs ==> exists e :: e in entries && Below(p, e.name))
  {
    hide ExtractOne, Unpacked, Holds, Below, Destination, IsDirEntry, Content;
    if entries != [] {
      var last := |entries| - 1;
      var front, e := entries[..last], entries[last];
      UnpackedAsListed(front, fs);
      var fs1 := ExtractAll(front, fs).value;
      var out := ExtractOne(fs1, e).value;
      OneUnpacked(fs1, e);
      assert entries == front + [e];
      forall x | x in entries
        ensures Unpacked(out, x)
      {
        if x != e {
          StaysUnpacked(fs1, x, e);
        }
      }
      forall k | 0 <= k < |entries| && LastFileAt(entries, k)
        ensures Holds(out, entries[k])
      {
        if k < last {
          LastFileInFront(entries, k);
          StaysUnpacked(fs1, front[k], e);
        }
      }
    }
  }

  lemma LastFileInFront(entries: seq<Entry>, k: nat)
    requires k < |entries| - 1 && LastFileAt(entries, k)
    ensures var last := |entries| - 1;
            && entries[..last][k] == entries[k] && LastFileAt(entries[..last], k)
            && (!IsDirEntry(entries[last]) ==> Destination(entries[last].name) != Destination(entries[k].name))
  {
    hide Destination, IsDirEntry;
  }

  lemma StaysUnpacked(fs: Files, x: Entry, e: Entry)
    requires Unpacked(fs, x) && ExtractOne(fs, e).Some?
    ensures var out := ExtractOne(fs, e).value;
            && Unpacked(out, x)
            && (Holds(fs, x) && (IsDirEntry(e) || Destination(e.name) != Destination(x.name)) ==> Holds(out, x))
  {
    hide ExtractOne, Content, EndsWell, Destination, IsDirEntry;
    OneUnpacked(fs, e);
  }

  lemma OneUnpacked(fs: Files, e: Entry)
    requires ExtractOne(fs, e).Some?
    ensures var out := ExtractOne(fs, e).value;
            && Unpacked(out, e)
            && (!IsDirEntry(e) ==> Holds(out, e))
            && (forall p :: p in fs ==> p in out && (out[p] == fs[p] || (!IsDirEntry(e) && Destination(e.name) == Some(p) && fs[p].Data?)))
            && (forall p :: p in out && p !in fs ==> Below(p, e.name))
  {
    hide Content, EndsWell, MkdirAll;
    DestinationIsSafe(e.name);
    var path := Destination(e.name).value;
    MkdirIff(fs, path);
    assert path[..|path|] == path;
    MkdirIff(fs, path[..|path| - 1]);
  }

  /** One entry unpacks exactly when it has a place, is no link, nothing is in its way, and its bytes are as many as it says. */
  lemma UnpacksIff(fs: Files, e: Entry)
    ensures var folder := e.dirMode || (|e.name| > 0 && e.name[|e.name| - 1] == '/');
            ExtractOne(fs, e).Some? <==>
              && Destination(e.name).Some? && !e.link
              && var path := Destination(e.name).value;
                 && (forall n :: 0 < n < |path| && path[..n] in fs ==> fs[path[..n]].Folder?)
                 && (path in fs ==> fs[path].Folder? == folder)
                 && (!folder ==> EndsWell(e.stream) && |Content(e.stream)| == e.size)
  {
    hide Content, EndsWell, MkdirAll, Destination;
    if Destination(e.name).Some? {
      HasPlace(e.name);
      var path := Destination(e.name).value;
      var front := path[..|path| - 1];
      MkdirIff(fs, path);
      MkdirIff(fs, front);
      assert path[..|path|] == path;
      assert forall n :: 0 <= n <= |front| ==> path[..n] == front[..n];
    }
  }

  lemma HasPlace(name: string)
    requires Destination(name).Some?
    ensures Destination(name).value != []
  {
  }

  /** The same name with some separators turned round. */
  predicate SameUpToSeparators(a: string, b: string) {
    |a| == |b| && forall i :: 0 <= i < |a| ==> a[i] == b[i] || (a[i] in "/\\" && b[i] in "/\\")
  }

  /** Both separators separate: turning them round changes nothing. */
  lemma SeparatorsAreOne(a: string, b: string)
    requires SameUpToSeparators(a, b)
    ensures Destination(a) == Destination(b)
  {
    assert ForwardSlashes(a) == ForwardSlashes(b);
  }

  lemma {:induction false} SplitHasPart(first: string, part: string, rest: string)
    requires NoSlash(part)
    ensures part in Split(first + "/" + part + "/" + rest)
    decreases |first|
  {
    hide NoSlash;
    var k := FirstSlash(first);
    var whole := first + "/" + part + "/" + rest;
    if k < 0 {
      SplitOne(first, part + "/" + rest);
      SplitOne(part, rest);
      assert whole == first + "/" + (part + "/" + rest);
    } else {
      SplitOne(first[..k], first[k + 1..] + "/" + part + "/" + rest);
      assert first == first[..k] + "/" + first[k + 1..];
      assert whole == first[..k] + "/" + (first[k + 1..] + "/" + part + "/" + rest);
      SplitHasPart(first[k + 1..], part, rest);
    }
  }

  lemma SplitHasFirst(part: string, rest: string)
    requires NoSlash(part)
    ensures part in Split(part + "/" + rest)
  {
    SplitOne(part, rest);
  }

  lemma {:induction false} SplitHasLast(first: string, part: string)
    requires NoSlash(part)
    ensures part in Split(first + "/" + part)
    decreases |first|
  {
    hide NoSlash;
    var k := FirstSlash(first);
    if k < 0 {
      SplitOne(first, part);
      SplitAlone(part);
    } else {
      SplitOne(first[..k], first[k + 1..] + "/" + part);
      assert first == first[..k] + "/" + first[k + 1..];
      assert first + "/" + part == first[..k] + "/" + (first[k + 1..] + "/" + part);
      SplitHasLast(first[k + 1..], part);
    }
  }

  /** A name with a parent step - at its start, inside, at its end, or all of it - however written, is refused. */
  lemma NoWayOut(name: string, plain: string, first: string, rest: string)
    requires SameUpToSeparators(name, plain)
    requires plain in {"..", "../" + rest, first + "/..", first + "/../" + rest}
    ensures Destination(name).None?
  {
    hide Destination, ForwardSlashes, SameUpToSeparators;
    var f, r := ForwardSlashes(first), ForwardSlashes(rest);
    SeparatorsAreOne(name, plain);
    ParentStepRefused(plain);
    ForwardParts(first, rest);
    if plain == ".." {
      SplitAlone("..");
    } else if plain == "../" + rest {
      SplitHasFirst("..", r);
      assert ".." + "/" + r == "../" + r;
    } else if plain == first + "/.." {
      SplitHasLast(f, "..");
      assert f + "/" + ".." == f + "/..";
    } else {
      SplitHasPart(f, "..", r);
      assert f + "/" + ".." + "/" + r == f + "/../" + r;
    }
  }

  lemma ForwardParts(first: string, rest: string)
    ensures ForwardSlashes("..") == ".." && ForwardSlashes("../" + rest) == "../" + ForwardSlashes(rest)
    ensures ForwardSlashes(first + "/..") == ForwardSlashes(first) + "/.."
    ensures ForwardSlashes(first + "/../" + rest) == ForwardSlashes(first) + "/../" + ForwardSlashes(rest)
  {
    ForwardAppend("../", rest);
    ForwardAppend(first, "/..");
    ForwardAppend(first + "/../", rest);
    ForwardAppend(first, "/../");
    assert ForwardSlashes("..") == ".." && ForwardSlashes("../") == "../" && ForwardSlashes("/..") == "/.." && ForwardSlashes("/../") == "/../";
  }

  lemma ForwardAppend(a: string, b: string)
    ensures ForwardSlashes(a + b) == ForwardSlashes(a) + ForwardSlashes(b)
  {
    assert |ForwardSlashes(a + b)| == |ForwardSlashes(a) + ForwardSlashes(b)|;
  }

  lemma ParentStepRefused(name: string)
    ensures ".." in Split(ForwardSlashes(name)) ==> Destination(name).None?
    ensures |name| > 0 && (name[0] == '/' || name[0] == '\\') ==> Destination(name).None?
  {
  }
}

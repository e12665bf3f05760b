/** Archiving a forest and extracting it again: exactly when that rebuilds the forest. */
module ZipRoundTrip {
  import opened Wrappers
  import opened Forest
  import opened FileNames
  import opened ZipArchive

  /** The files and folders a node stands for, below its own path. */
  ghost function FilesOf(n: Node, path: seq<string>): Files
    requires Transferable(n)
  {
    match n
    case File(_, content) => map[path := Data(content)]
    case Dir(_, kids) => map[path := Folder] + FilesAll(kids, path)
  }

  ghost function FilesAll(ns: seq<Node>, parent: seq<string>): Files
    requires AllTransferable(ns)
  {
    if ns == [] then map[] else FilesOf(ns[0], parent + [ns[0].name]) + FilesAll(ns[1..], parent)
  }

  /** No two entries of one directory share a name. */
  ghost predicate SiblingsDistinct(ns: seq<Node>) {
    && (forall i, j :: 0 <= i < j < |ns| ==> ns[i].name != ns[j].name)
    && (forall n :: n in ns && n.Dir? ==> SiblingsDistinct(n.kids))
  }

  /** A property of every name in a forest: fixed by sanitising (strict), or just safe. */
  predicate GoodName(c: string, strict: bool) {
    if strict then Sanitized(c) == c else SafeName(c)
  }

  predicate AllGood(ns: seq<Node>, strict: bool) {
    forall n :: n in ns ==> GoodName(n.name, strict) && (n.Dir? ==> AllGood(n.kids, strict))
  }

  predicate AllFixed(ns: seq<Node>) {
    AllGood(ns, true)
  }

  predicate GoodPath(path: seq<string>, strict: bool) {
    forall i :: 0 <= i < |path| ==> GoodName(path[i], strict)
  }

  // ---------------------------------------------------------------- names on the way through

  lemma {:induction false} SolidKeeps(path: seq<string>)
    requires forall i :: 0 <= i < |path| ==> path[i] != "" && path[i] != "."
    ensures Solid(path) == path && Solid(path + [""]) == path
  {
    if path == [] {
      assert [] + [""] == [""];
      assert Solid([""][1..]) == [];
    } else {
      SolidKeeps(path[1..]);
      assert (path + [""])[1..] == path[1..] + [""];
      assert path == [path[0]] + path[1..];
    }
  }

  lemma SafeNameFacts(c: string)
    requires SafeName(c)
    ensures c != "" && c != "." && c != ".." && NoSlash(c)
    ensures forall i :: 0 <= i < |c| ==> c[i] != '\\'
  {
  }

  lemma {:induction false} PrefixIsPlain(path: seq<string>)
    requires GoodPath(path, false)
    ensures forall i :: 0 <= i < |Prefix(path)| ==> Prefix(path)[i] != '\\'
    ensures path != [] ==> Prefix(path) != "" && Prefix(path)[0] != '/'
  {
    if path != [] {
      PrefixIsPlain(path[1..]);
      SafeNameFacts(path[0]);
      var head := path[0] + "/";
      assert Prefix(path) == head + Prefix(path[1..]);
      assert forall i :: 0 <= i < |head| ==> head[i] != '\\';
    }
  }

  lemma PlainForward(s: string)
    requires forall i :: 0 <= i < |s| ==> s[i] != '\\'
    ensures ForwardSlashes(s) == s
  {
  }

  /** A path of safe names comes out sanitised name by name, for files and for directories. */
  lemma SafeDestination(parent: seq<string>, name: string)
    requires GoodPath(parent, false) && SafeName(name)
    ensures Destination(Prefix(parent) + name) == Some(SanitizedAll(parent + [name]))
    ensures Destination(Prefix(parent) + name + "/") == Some(SanitizedAll(parent + [name]))
  {
    var path := parent + [name];
    forall i | 0 <= i < |path|
      ensures path[i] != "" && path[i] != "." && path[i] != ".." && NoSlash(path[i])
    {
      assert i < |parent| ==> GoodName(parent[i], false);
      SafeNameFacts(path[i]);
    }
    PrefixIsPlain(parent);
    PrefixIsPlain(path);
    SafeNameFacts(name);
    PrefixSnoc(parent, name);
    SplitPrefix(parent, name);
    SplitPrefix(path, "");
    SolidKeeps(path);
    var asFile, asDir := Prefix(parent) + name, Prefix(path);
    assert asFile[0] != '/';
    PlainForward(asFile);
    PlainForward(asDir);
    assert asDir + "" == asDir;
    assert ".." !in path && ".." !in path + [""];
  }

  lemma FixedDestination(parent: seq<string>, name: string)
    requires GoodPath(parent, true) && Sanitized(name) == name
    ensures Destination(Prefix(parent) + name) == Some(parent + [name])
    ensures Destination(Prefix(parent) + name + "/") == Some(parent + [name])
  {
    hide Sanitized, Destination;
    var path := parent + [name];
    forall i | 0 <= i < |path|
      ensures SafeName(path[i]) && Sanitized(path[i]) == path[i]
    {
      assert i < |parent| ==> GoodName(parent[i], true);
      FixedNames(path[i]);
    }
    forall i | 0 <= i < |parent|
      ensures GoodName(parent[i], false)
    {
      assert path[i] == parent[i];
    }
    assert path[|parent|] == name;
    SafeDestination(parent, name);
    assert SanitizedAll(parent + [name]) == parent + [name];
  }

  // ---------------------------------------------------------------- fixed names rebuild the forest

  ghost predicate Ready(fs: Files, parent: seq<string>) {
    forall k :: 0 <= k <= |parent| ==> parent[..k] in fs && fs[parent[..k]].Folder?
  }

  /** Nothing is at this path or below it. */
  ghost predicate Clear(fs: Files, path: seq<string>) {
    forall k :: k in fs ==> !(path <= k)
  }

  lemma {:induction false} MkdirReady(fs: Files, path: seq<string>)
    requires Ready(fs, path)
    ensures MkdirAll(fs, path) == Some(fs)
  {
    if path != [] {
      var up := path[..|path| - 1];
      assert forall k :: 0 <= k <= |up| ==> up[..k] == path[..k];
      MkdirReady(fs, up);
      assert path[..|path|] == path;
    }
  }

  lemma MkdirNew(fs: Files, parent: seq<string>, name: string)
    requires Ready(fs, parent) && Clear(fs, parent + [name])
    ensures MkdirAll(fs, parent + [name]) == Some(fs[parent + [name] := Folder])
  {
    MkdirReady(fs, parent);
    var path := parent + [name];
    assert path[..|path| - 1] == parent;
    assert path <= path;
  }

  lemma {:induction false} KeysExtend(n: Node, path: seq<string>)
    requires Transferable(n)
    ensures forall k :: k in FilesOf(n, path) ==> path <= k
    decreases n, 0
  {
    if n.Dir? {
      AllKeysExtend(n.kids, path);
    }
  }

  lemma {:induction false} AllKeysExtend(ns: seq<Node>, parent: seq<string>)
    requires AllTransferable(ns)
    ensures forall k :: k in FilesAll(ns, parent) ==> exists n :: n in ns && parent + [n.name] <= k
    decreases ns, 1
  {
    if ns != [] {
      assert ns[0] in ns;
      KeysExtend(ns[0], parent + [ns[0].name]);
      AllKeysExtend(ns[1..], parent);
      forall k | k in FilesAll(ns, parent)
        ensures exists n :: n in ns && parent + [n.name] <= k
      {
        if k in FilesAll(ns[1..], parent) {
          var n :| n in ns[1..] && parent + [n.name] <= k;
          assert n in ns;
        } else {
          assert k in FilesOf(ns[0], parent + [ns[0].name]);
        }
      }
    }
  }

  /** After a node has been unpacked its parent is still ready and its siblings' paths still clear. */
  lemma SiblingsUndisturbed(fs: Files, n: Node, parent: seq<string>, ns: seq<Node>)
    requires Transferable(n) && Ready(fs, parent)
    requires forall m :: m in ns ==> Clear(fs, parent + [m.name]) && m.name != n.name
    ensures Ready(fs + FilesOf(n, parent + [n.name]), parent)
    ensures forall m :: m in ns ==> Clear(fs + FilesOf(n, parent + [n.name]), parent + [m.name])
  {
    var path := parent + [n.name];
    KeysExtend(n, path);
    var fs1 := fs + FilesOf(n, path);
    forall k | 0 <= k <= |parent|
      ensures parent[..k] in fs1 && fs1[parent[..k]].Folder?
    {
      assert parent[..k] !in FilesOf(n, path) by {
        assert |parent[..k]| < |path|;
      }
    }
    forall m, k | m in ns && k in fs1
      ensures !(parent + [m.name] <= k)
    {
      if k in FilesOf(n, path) {
        assert path <= k;
        assert k[|parent|] == n.name;
      } else {
        assert Clear(fs, parent + [m.name]);
      }
    }
  }

  /** A directory's entries and files: its own, then its children's. */
  lemma DirParts(n: Node, parent: seq<string>, fs: Files)
    requires n.Dir? && Transferable(n)
    ensures var path := parent + [n.name];
            && EntriesOf(n, Prefix(parent) + n.name)
               == [Entry(Prefix(parent) + n.name + "/", true, false, 0, [])] + EntriesAll(n.kids, Prefix(path))
            && fs[path := Folder] + FilesAll(n.kids, path) == fs + FilesOf(n, path)
  {
    PrefixSnoc(parent, n.name);
  }

  lemma {:induction false} NodeExtracts(n: Node, parent: seq<string>, fs: Files)
    requires Transferable(n) && GoodPath(parent, true) && Sanitized(n.name) == n.name
    requires n.Dir? ==> AllFixed(n.kids) && SiblingsDistinct(n.kids)
    requires Ready(fs, parent) && Clear(fs, parent + [n.name])
    ensures ExtractAll(EntriesOf(n, Prefix(parent) + n.name), fs) == Some(fs + FilesOf(n, parent + [n.name]))
    decreases n, 0
  {
    hide Sanitized, Destination, ExtractOne, ExtractAll, MkdirAll, SiblingsDistinct, Ready, Clear, EntriesOf, FilesOf, Prefix, Split;
    if n.File? {
      FileExtracts(n, parent, fs);
    } else {
      var path := parent + [n.name];
      var own := Entry(Prefix(parent) + n.name + "/", true, false, 0, []);
      var fs1 := fs[path := Folder];
      DirEntryExtracts(parent, n.name, fs);
      DirIsReady(fs, parent, n.name);
      AllExtract(n.kids, path, fs1);
      DirParts(n, parent, fs);
      ExtractAppend([own], EntriesAll(n.kids, Prefix(path)), fs);
    }
  }

  lemma DirEntryExtracts(parent: seq<string>, name: string, fs: Files)
    requires GoodPath(parent, true) && Sanitized(name) == name
    requires Ready(fs, parent) && Clear(fs, parent + [name])
    ensures ExtractAll([Entry(Prefix(parent) + name + "/", true, false, 0, [])], fs) == Some(fs[parent + [name] := Folder])
  {
    hide Sanitized, Destination;
    FixedDestination(parent, name);
    MkdirNew(fs, parent, name);
    OneEntry(Entry(Prefix(parent) + name + "/", true, false, 0, []), fs);
  }

  lemma OneEntry(e: Entry, fs: Files)
    ensures ExtractAll([e], fs) == ExtractOne(fs, e)
  {
    assert [e][..0] == [];
  }

  lemma FileExtracts(n: Node, parent: seq<string>, fs: Files)
    requires n.File? && GoodPath(parent, true) && Sanitized(n.name) == n.name
    requires Ready(fs, parent) && Clear(fs, parent + [n.name])
    ensures ExtractAll(EntriesOf(n, Prefix(parent) + n.name), fs) == Some(fs + FilesOf(n, parent + [n.name]))
  {
    hide Sanitized, Destination, Prefix;
    var path := parent + [n.name];
    var e := Entry(Prefix(parent) + n.name, false, false, |n.content|, Pieces(n.content));
    FixedDestination(parent, n.name);
    OneEntry(e, fs);
    PiecesDeliver(n.content);
    MkdirReady(fs, parent);
    assert path[..|path| - 1] == parent && path <= path;
    NotADirEntry(parent, n.name);
    assert fs[path := Data(n.content)] == fs + map[path := Data(n.content)];
  }

  lemma NotADirEntry(parent: seq<string>, name: string)
    requires Sanitized(name) == name
    ensures var s := Prefix(parent) + name; s != "" && s[|s| - 1] != '/'
  {
    FixedNames(name);
    SafeNameFacts(name);
    var s := Prefix(parent) + name;
    assert s[|s| - 1] == name[|name| - 1];
  }

  lemma DirIsReady(fs: Files, parent: seq<string>, name: string)
    requires Ready(fs, parent) && Clear(fs, parent + [name])
    ensures Ready(fs[parent + [name] := Folder], parent + [name])
    ensures forall m :: Clear(fs[parent + [name] := Folder], parent + [name] + [m])
  {
    var path := parent + [name];
    var fs1 := fs[path := Folder];
    forall k | 0 <= k <= |path|
      ensures path[..k] in fs1 && fs1[path[..k]].Folder?
    {
      if k <= |parent| {
        assert path[..k] == parent[..k];
      } else {
        assert path[..k] == path;
      }
    }
    forall m, k | k in fs1
      ensures !(path + [m] <= k)
    {
      assert path + [m] <= k ==> path <= k;
      if path <= k {
        assert k == path;
      }
    }
  }

  lemma AllParts(ns: seq<Node>, parent: seq<string>, fs: Files)
    requires AllTransferable(ns)
    ensures ns == [] ==> ExtractAll(EntriesAll(ns, Prefix(parent)), fs) == Some(fs + FilesAll(ns, parent))
    ensures ns != [] ==>
              && EntriesAll(ns, Prefix(parent)) == EntriesOf(ns[0], Prefix(parent) + ns[0].name) + EntriesAll(ns[1..], Prefix(parent))
              && fs + FilesOf(ns[0], parent + [ns[0].name]) + FilesAll(ns[1..], parent) == fs + FilesAll(ns, parent)
  {
    hide EntriesOf, FilesOf, Prefix;
    if ns == [] {
      assert fs + FilesAll(ns, parent) == fs;
    }
  }

  lemma {:induction false} AllExtract(ns: seq<Node>, parent: seq<string>, fs: Files)
    requires AllTransferable(ns) && GoodPath(parent, true) && AllFixed(ns) && SiblingsDistinct(ns)
    requires Ready(fs, parent) && forall n :: n in ns ==> Clear(fs, parent + [n.name])
    ensures ExtractAll(EntriesAll(ns, Prefix(parent)), fs) == Some(fs + FilesAll(ns, parent))
    decreases ns, 1
  {
    hide Sanitized, ExtractOne, ExtractAll, EntriesOf, EntriesAll, FilesOf, FilesAll, Ready, Clear, SiblingsDistinct, Prefix, GoodPath;
    AllParts(ns, parent, fs);
    if ns != [] {
      var n, rest := ns[0], ns[1..];
      assert n in ns;
      TailDistinct(ns);
      NodeExtracts(n, parent, fs);
      SiblingsUndisturbed(fs, n, parent, rest);
      AllExtract(rest, parent, fs + FilesOf(n, parent + [n.name]));
      ExtractAppend(EntriesOf(n, Prefix(parent) + n.name), EntriesAll(rest, Prefix(parent)), fs);
    }
  }

  lemma TailDistinct(ns: seq<Node>)
    requires SiblingsDistinct(ns) && ns != []
    ensures SiblingsDistinct(ns[1..]) && (ns[0].Dir? ==> SiblingsDistinct(ns[0].kids))
    ensures forall m :: m in ns[1..] ==> m in ns && m.name != ns[0].name
  {
    forall m | m in ns[1..]
      ensures m in ns && m.name != ns[0].name
    {
      var i :| 0 <= i < |ns[1..]| && ns[1..][i] == m;
      assert ns[i + 1] == m;
    }
  }

  // ---------------------------------------------------------------- and only fixed names do

  ghost predicate KeysGood(fs: Files, strict: bool) {
    forall path :: path in fs ==> GoodPath(path, strict)
  }

  ghost predicate EntryGood(e: Entry, strict: bool) {
    Destination(e.name).Some? ==> GoodPath(Destination(e.name).value, strict)
  }

  lemma {:induction false} ExtractedKeysGood(entries: seq<Entry>, fs: Files, strict: bool)
    requires KeysGood(fs, strict) && forall e :: e in entries ==> EntryGood(e, strict)
    ensures ExtractAll(entries, fs).Some? ==> KeysGood(ExtractAll(entries, fs).value, strict)
  {
    hide Destination, GoodName, MkdirAll;
    if entries != [] && ExtractAll(entries, fs).Some? {
      var front := entries[..|entries| - 1];
      ExtractedKeysGood(front, fs, strict);
      var fs1 := ExtractAll(front, fs).value;
      var e := entries[|entries| - 1];
      assert e in entries && EntryGood(e, strict);
      DestinationIsSafe(e.name);
      var path := Destination(e.name).value;
      MkdirKeys(fs1, path);
      MkdirKeys(fs1, path[..|path| - 1]);
    }
  }

  /** The names of a forest are among the keys of its files. */
  lemma {:induction false} NamesFromKeys(ns: seq<Node>, parent: seq<string>, strict: bool)
    requires AllTransferable(ns) && KeysGood(FilesAll(ns, parent), strict)
    ensures AllGood(ns, strict)
    decreases ns
  {
    forall n | n in ns
      ensures GoodName(n.name, strict) && (n.Dir? ==> AllGood(n.kids, strict))
    {
      var path := parent + [n.name];
      KeyOfMember(ns, n, parent);
      assert path in FilesOf(n, path);
      assert path[|parent|] == n.name;
      if n.Dir? {
        NamesFromKeys(n.kids, path, strict);
      }
    }
  }

  lemma {:induction false} KeyOfMember(ns: seq<Node>, n: Node, parent: seq<string>)
    requires AllTransferable(ns) && n in ns
    ensures forall k :: k in FilesOf(n, parent + [n.name]) ==> k in FilesAll(ns, parent)
  {
    if n != ns[0] {
      KeyOfMember(ns[1..], n, parent);
    }
  }

  lemma {:induction false} SafeNodeEntriesFixed(n: Node, parent: seq<string>)
    requires Transferable(n) && GoodPath(parent, false) && SafeName(n.name)
    requires n.Dir? ==> AllGood(n.kids, false)
    ensures forall e :: e in EntriesOf(n, Prefix(parent) + n.name) ==> EntryGood(e, true)
    decreases n, 0
  {
    hide Sanitized, Destination, SafeName, Prefix;
    var path := parent + [n.name];
    SafeDestination(parent, n.name);
    forall i | 0 <= i < |path|
      ensures GoodName(SanitizedAll(path)[i], true) && GoodName(path[i], false)
    {
      assert i < |parent| ==> GoodName(parent[i], false);
      SanitizedSafeIsFixed(path[i]);
    }
    if n.Dir? {
      PrefixSnoc(parent, n.name);
      assert GoodPath(path, false);
      SafeEntriesFixed(n.kids, path);
    }
  }

  lemma {:induction false} SafeEntriesFixed(ns: seq<Node>, parent: seq<string>)
    requires AllTransferable(ns) && GoodPath(parent, false) && AllGood(ns, false)
    ensures forall e :: e in EntriesAll(ns, Prefix(parent)) ==> EntryGood(e, true)
    decreases ns, 1
  {
    if ns != [] {
      assert ns[0] in ns;
      assert GoodName(ns[0].name, false);
      SafeNodeEntriesFixed(ns[0], parent);
      SafeEntriesFixed(ns[1..], parent);
    }
  }

  ghost predicate Rebuilt(forest: seq<Node>)
    requires AllTransferable(forest)
  {
    ExtractAll(EntriesAll(forest, ""), EMPTY_TARGET) == Some(EMPTY_TARGET + FilesAll(forest, []))
  }

  /** Whatever the names, an archive's keys are safe; if the names were safe, the keys are fixed. */
  lemma RebuiltMeansFixed(forest: seq<Node>)
    requires AllTransferable(forest) && Rebuilt(forest)
    ensures AllFixed(forest)
  {
    hide Sanitized, Destination, ExtractAll;
    var entries := EntriesAll(forest, "");
    forall e | e in entries
      ensures EntryGood(e, false)
    {
      DestinationIsSafe(e.name);
    }
    ExtractedKeysGood(entries, EMPTY_TARGET, false);
    KeysRestrict(forest, false);
    NamesFromKeys(forest, [], false);
    assert GoodPath([], false);
    SafeEntriesFixed(forest, []);
    assert Prefix([]) == "";
    ExtractedKeysGood(entries, EMPTY_TARGET, true);
    KeysRestrict(forest, true);
    NamesFromKeys(forest, [], true);
  }

  lemma KeysRestrict(forest: seq<Node>, strict: bool)
    requires AllTransferable(forest) && KeysGood(EMPTY_TARGET + FilesAll(forest, []), strict)
    ensures KeysGood(FilesAll(forest, []), strict)
  {
    forall k | k in FilesAll(forest, [])
      ensures GoodPath(k, strict)
    {
      assert k in EMPTY_TARGET + FilesAll(forest, []);
    }
  }

  /**
   * Main result: for a forest without links or same-named siblings, extracting its archive rebuilds
   * exactly it - empty directories included - if and only if sanitising leaves every name alone.
   */
  lemma RoundTripIffNamesFixed(forest: seq<Node>)
    requires AllTransferable(forest) && SiblingsDistinct(forest)
    ensures Rebuilt(forest) <==> AllFixed(forest)
  {
    if Rebuilt(forest) {
      RebuiltMeansFixed(forest);
    }
    if AllFixed(forest) {
      assert Prefix([]) == "";
      assert Ready(EMPTY_TARGET, []);
      forall n | n in forest
        ensures Clear(EMPTY_TARGET, [] + [n.name])
      {
      }
      AllExtract(forest, [], EMPTY_TARGET);
    }
  }

  // ---------------------------------------------------------------- the paths that are returned

  /** Every entry of a node lands at or below the node's own path. */
  lemma {:induction false} NodeEntriesBelow(n: Node, parent: seq<string>)
    requires Transferable(n) && GoodPath(parent, true) && Sanitized(n.name) == n.name
    requires n.Dir? ==> AllFixed(n.kids)
    ensures EntriesOf(n, Prefix(parent) + n.name) != []
    ensures forall e :: e in EntriesOf(n, Prefix(parent) + n.name) ==>
      Destination(e.name).Some? && parent + [n.name] <= Destination(e.name).value
    decreases n, 0
  {
    hide Sanitized, Destination;
    FixedDestination(parent, n.name);
    if n.Dir? {
      var path := parent + [n.name];
      assert GoodPath(path, true);
      PrefixSnoc(parent, n.name);
      EntriesBelow(n.kids, path);
    }
  }

  lemma {:induction false} EntriesBelow(ns: seq<Node>, parent: seq<string>)
    requires AllTransferable(ns) && GoodPath(parent, true) && AllFixed(ns)
    ensures forall e :: e in EntriesAll(ns, Prefix(parent)) ==>
      Destination(e.name).Some? && exists n :: n in ns && parent + [n.name] <= Destination(e.name).value
    decreases ns, 1
  {
    hide Sanitized, Destination, EntriesOf;
    if ns != [] {
      assert ns[0] in ns;
      NodeEntriesBelow(ns[0], parent);
      EntriesBelow(ns[1..], parent);
    }
  }

  lemma {:induction false} NameHasEntry(ns: seq<Node>, n: Node, parent: seq<string>) returns (e: Entry)
    requires AllTransferable(ns) && GoodPath(parent, true) && AllFixed(ns) && n in ns
    ensures e in EntriesAll(ns, Prefix(parent))
    ensures Destination(e.name).Some? && parent + [n.name] <= Destination(e.name).value
  {
    hide Sanitized, Destination, EntriesOf;
    if n == ns[0] {
      NodeEntriesBelow(n, parent);
      e := EntriesOf(n, Prefix(parent) + n.name)[0];
    } else {
      e := NameHasEntry(ns[1..], n, parent);
    }
  }

  lemma TopOfPath(name: string, path: seq<string>)
    requires [] + [name] <= path
    ensures path != [] && path[0] == name
  {
    assert ([] + [name])[0] == name;
  }

  /** The top-level names an extraction returns are the names of the selection. */
  lemma TopNamesOfForest(forest: seq<Node>, t: string)
    requires AllTransferable(forest) && AllFixed(forest)
    ensures t in TopNames(EntriesAll(forest, "")) <==> exists n :: n in forest && n.name == t
  {
    hide Sanitized, Destination, EntriesAll, AllGood;
    var entries := EntriesAll(forest, "");
    assert Prefix([]) == "" && GoodPath([], true);
    if t in TopNames(entries) {
      EntriesBelow(forest, []);
      var e :| e in entries && Destination(e.name).Some? && Destination(e.name).value != [] && Destination(e.name).value[0] == t;
      var n :| n in forest && [] + [n.name] <= Destination(e.name).value;
      TopOfPath(n.name, Destination(e.name).value);
    }
    if n :| n in forest && n.name == t {
      var e := NameHasEntry(forest, n, []);
      TopOfPath(n.name, Destination(e.name).value);
    }
  }

  /** One name the extractor changes: a leading dot is stripped. */
  lemma DotFileIsNotRebuilt()
    ensures !Rebuilt([File(".profile", "x")])
  {
    hide Sanitized;
    var forest := [File(".profile", "x")];
    if Rebuilt(forest) {
      RebuiltMeansFixed(forest);
      assert GoodName(forest[0].name, true);
      FixedNames(".profile");
    }
  }
}

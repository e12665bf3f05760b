/** File name text: splitting paths, sanitising one component, and sorting. */
module FileNames {
  import opened Wrappers

  // ---------------------------------------------------------------- splitting at slashes

  predicate NoSlash(s: string) {
    forall i :: 0 <= i < |s| ==> s[i] != '/'
  }

  function FirstSlash(s: string): (k: int)
    ensures -1 <= k < |s|
    ensures k >= 0 ==> s[k] == '/' && NoSlash(s[..k])
    ensures k < 0 ==> NoSlash(s)
  {
    if s == "" then -1
    else if s[0] == '/' then 0
    else
      assert forall i :: 0 < i < |s| ==> s[i] == s[1..][i - 1];
      var k := FirstSlash(s[1..]);
      assert k >= 0 ==> forall i :: 0 < i < k + 1 ==> s[i] == s[1..][..k][i - 1];
      if k < 0 then -1 else k + 1
  }

  /** strings.Split(s, "/"). */
  function Split(s: string): (parts: seq<string>)
    ensures parts != []
  {
    var k := FirstSlash(s);
    if k < 0 then [s] else [s[..k]] + Split(s[k + 1..])
  }

  /** Each component followed by a slash. */
  function Prefix(parts: seq<string>): string {
    if parts == [] then "" else parts[0] + "/" + Prefix(parts[1..])
  }

  lemma SplitOne(first: string, rest: string)
    requires NoSlash(first)
    ensures Split(first + "/" + rest) == [first] + Split(rest)
  {
    hide NoSlash;
    FirstSlashIs(first, rest);
    var s := first + "/" + rest;
    assert s[..|first|] == first && s[|first| + 1..] == rest;
  }

  lemma {:induction false} FirstSlashAt(s: string, k: nat)
    requires k < |s| && s[k] == '/' && forall i :: 0 <= i < k ==> s[i] != '/'
    ensures FirstSlash(s) == k
  {
    if k > 0 {
      FirstSlashAt(s[1..], k - 1);
    }
  }

  lemma FirstSlashIs(first: string, rest: string)
    requires NoSlash(first)
    ensures FirstSlash(first + "/" + rest) == |first|
  {
    var s := first + "/" + rest;
    assert forall i :: 0 <= i < |first| ==> s[i] == first[i];
    FirstSlashAt(s, |first|);
  }

  lemma SplitAlone(s: string)
    requires NoSlash(s)
    ensures Split(s) == [s]
  {
    assert FirstSlash(s) < 0;
  }

  lemma {:induction false} SplitPrefix(parts: seq<string>, last: string)
    requires NoSlash(last) && forall p :: p in parts ==> NoSlash(p)
    ensures Split(Prefix(parts) + last) == parts + [last]
  {
    hide Split, FirstSlash;
    if parts == [] {
      assert "" + last == last;
      SplitAlone(last);
    } else {
      var rest := Prefix(parts[1..]) + last;
      SplitPrefix(parts[1..], last);
      SplitOne(parts[0], rest);
      assert Prefix(parts) + last == parts[0] + "/" + rest;
      assert parts + [last] == [parts[0]] + (parts[1..] + [last]);
    }
  }

  lemma {:induction false} PrefixSnoc(parts: seq<string>, last: string)
    ensures Prefix(parts + [last]) == Prefix(parts) + last + "/"
  {
    if parts == [] {
      assert [] + [last] == [last];
      assert Prefix([last][1..]) == "";
    } else {
      assert (parts + [last])[1..] == parts[1..] + [last];
      PrefixSnoc(parts[1..], last);
      assert parts[0] + "/" + (Prefix(parts[1..]) + last + "/") == parts[0] + "/" + Prefix(parts[1..]) + last + "/";
    }
  }

  // ---------------------------------------------------------------- sanitising a component

  function DropNuls(s: string): (r: string)
    ensures forall i :: 0 <= i < |r| ==> r[i] != '\0'
    ensures (forall i :: 0 <= i < |s| ==> s[i] != '\0') ==> r == s
    ensures |r| <= |s|
  {
    if s == "" then ""
    else
      assert forall i :: 0 < i < |s| ==> s[i] == s[1..][i - 1];
      if s[0] == '\0' then DropNuls(s[1..]) else [s[0]] + DropNuls(s[1..])
  }

  function ReplaceChar(s: string, c: char): string {
    seq(|s|, i requires 0 <= i < |s| => if s[i] == c then '_' else s[i])
  }

  const UNSAFE: string := "/\\<>:\"|?*"

  predicate IsUnsafe(c: char) {
    c == '/' || c == '\\' || c == '<' || c == '>' || c == ':' || c == '"' || c == '|' || c == '?' || c == '*'
  }

  /** None of the characters sanitising replaces or drops. */
  predicate Harmless(s: string) {
    forall i :: 0 <= i < |s| ==> !IsUnsafe(s[i]) && s[i] != '\0'
  }

  function Underscored(s: string): string {
    seq(|s|, i requires 0 <= i < |s| => if IsUnsafe(s[i]) then '_' else s[i])
  }

  predicate IsTrimmed(c: char) {
    c == ' ' || c == '.'
  }

  function TrimLeft(s: string): (r: string)
    ensures |r| <= |s| && r == s[|s| - |r|..]
    ensures r != "" ==> !IsTrimmed(r[0])
    ensures s != "" && !IsTrimmed(s[0]) ==> r == s
  {
    if s != "" && IsTrimmed(s[0]) then TrimLeft(s[1..]) else s
  }

  function TrimRight(s: string): (r: string)
    ensures r <= s
    ensures r != "" ==> !IsTrimmed(r[|r| - 1])
    ensures s != "" && !IsTrimmed(s[|s| - 1]) ==> r == s
  {
    if s != "" && IsTrimmed(s[|s| - 1]) then TrimRight(s[..|s| - 1]) else s
  }

  /** sanitizeFileName. */
  function Sanitized(name: string): string {
    var t := TrimRight(TrimLeft(Underscored(DropNuls(name))));
    var cut := if |t| > 255 then t[..255] else t;
    if cut == "" then "_unnamed" else cut
  }

  lemma UnsafeListed()
    ensures forall c :: c in UNSAFE <==> IsUnsafe(c)
  {
    assert UNSAFE == ['/', '\\', '<', '>', ':', '"', '|', '?', '*'];
  }

  method SanitizeFileName(name: string) returns (r: string)
    ensures r == Sanitized(name)
  {
    var s := DropNuls(name);
    ghost var start := s;
    for k := 0 to |UNSAFE|
      invariant |s| == |start|
      invariant forall i :: 0 <= i < |s| ==> s[i] == if start[i] in UNSAFE[..k] then '_' else start[i]
    {
      s := ReplaceChar(s, UNSAFE[k]);
      assert UNSAFE[..k + 1] == UNSAFE[..k] + [UNSAFE[k]];
      assert '_' !in UNSAFE;
    }
    assert UNSAFE[..|UNSAFE|] == UNSAFE;
    UnsafeListed();
    assert s == Underscored(start);
    r := TrimRight(TrimLeft(s));
    assert r != "." && r != "..";
    if |r| > 255 {
      r := r[..255];
    }
    if r == "" {
      r := "_unnamed";
    }
  }

  /** What every sanitised name is: a single harmless path component. */
  predicate SafeName(r: string) {
    && 0 < |r| <= 255
    && !IsTrimmed(r[0])
    && Harmless(r)
  }

  lemma SanitizedIsSafe(name: string)
    ensures SafeName(Sanitized(name))
  {
    var u := Underscored(DropNuls(name));
    assert Harmless(u);
    var l := TrimLeft(u);
    assert Harmless(l) by {
      assert forall i :: 0 <= i < |l| ==> l[i] == u[|u| - |l| + i];
    }
    var t := TrimRight(l);
    assert Harmless(t) by {
      assert forall i :: 0 <= i < |t| ==> t[i] == l[i];
    }
    CutIsSafe(t);
    assert t != "" ==> t[0] == l[0];
  }

  lemma CutIsSafe(t: string)
    requires Harmless(t) && (t != "" ==> !IsTrimmed(t[0]))
    ensures var cut := if |t| > 255 then t[..255] else t; SafeName(if cut == "" then "_unnamed" else cut)
  {
    assert Harmless("_unnamed");
  }

  /** Exactly the safe names not ending in a space or dot are left alone. */
  lemma FixedNames(name: string)
    ensures Sanitized(name) == name <==> SafeName(name) && !IsTrimmed(name[|name| - 1])
  {
    SanitizedIsSafe(name);
    if SafeName(name) {
      SafeNameStages(name);
    } else {
      assert Sanitized(name) != name;
    }
  }

  lemma SafeNameStages(name: string)
    requires SafeName(name)
    ensures Underscored(DropNuls(name)) == name && TrimLeft(name) == name
    ensures Sanitized(name) == TrimRight(name) || TrimRight(name) == ""
    ensures TrimRight(name) != ""
  {
    assert Underscored(name) == name;
    TrimRightKeepsFirst(name);
  }

  lemma {:induction false} TrimRightKeepsFirst(s: string)
    requires s != "" && !IsTrimmed(s[0])
    ensures TrimRight(s) != ""
  {
    if IsTrimmed(s[|s| - 1]) {
      TrimRightKeepsFirst(s[..|s| - 1]);
    }
  }

  /** Sanitising a safe name gives a fixed one: nothing is cut off after the trimming. */
  lemma SanitizedSafeIsFixed(name: string)
    requires SafeName(name)
    ensures Sanitized(Sanitized(name)) == Sanitized(name)
  {
    SafeNameStages(name);
    SanitizedIsSafe(name);
    FixedNames(Sanitized(name));
  }

  // ---------------------------------------------------------------- sorting

  /** The byte order sort.Strings uses. */
  predicate LexLess(a: string, b: string) {
    b != "" && (a == "" || a[0] < b[0] || (a[0] == b[0] && LexLess(a[1..], b[1..])))
  }

  lemma {:induction false} LexTotal(a: string, b: string)
    ensures a == b || LexLess(a, b) || LexLess(b, a)
  {
    if a != "" && b != "" && a[0] == b[0] {
      LexTotal(a[1..], b[1..]);
      assert a == [a[0]] + a[1..] && b == [b[0]] + b[1..];
    }
  }

  lemma {:induction false} LexTransitive(a: string, b: string, c: string)
    requires LexLess(a, b) && LexLess(b, c)
    ensures LexLess(a, c)
  {
    if a != "" && a[0] == b[0] == c[0] {
      LexTransitive(a[1..], b[1..], c[1..]);
    }
  }

  ghost predicate Sorted(xs: seq<string>) {
    forall i, j :: 0 <= i < j < |xs| ==> LexLess(xs[i], xs[j])
  }

  /** Puts a new word into a sorted list. */
  function Inserted(xs: seq<string>, x: string): (ys: seq<string>)
    ensures forall y :: y in ys <==> y in xs || y == x
  {
    if xs == [] then [x]
    else if xs[0] == x then xs
    else if LexLess(x, xs[0]) then [x] + xs
    else [xs[0]] + Inserted(xs[1..], x)
  }

  lemma {:induction false} InsertedSorted(xs: seq<string>, x: string)
    requires Sorted(xs)
    ensures Sorted(Inserted(xs, x))
  {
    if xs != [] && xs[0] != x {
      if LexLess(x, xs[0]) {
        forall j | 0 <= j < |xs|
          ensures LexLess(x, xs[j])
        {
          if j > 0 {
            LexTransitive(x, xs[0], xs[j]);
          }
        }
      } else {
        LexTotal(x, xs[0]);
        InsertedSorted(xs[1..], x);
        var rest := Inserted(xs[1..], x);
        forall j | 0 <= j < |rest|
          ensures LexLess(xs[0], rest[j])
        {
          assert rest[j] in rest;
        }
      }
    }
  }
}

/**
 * The byte stream the source signature digests, and the registry that reuses a transfer when the
 * digest is already there.
 */
module Signature {
  import opened Wrappers
  import opened Archive
  import opened Forest

  // ---------------------------------------------------------------- the stream

  function Digits(n: nat): string {
    if n < 10 then [DigitChar(n)] else Digits(n / 10) + [DigitChar(n % 10)]
  }

  function DigitChar(d: nat): char
    requires d < 10
  {
    "0123456789"[d]
  }

  /** One node and, for a directory, all below it; `rel` is its slash-separated relative name. */
  function Encoded(n: Node, rel: string): string
    requires Transferable(n)
  {
    match n
    case File(_, content) => "F\0" + rel + "\0" + Digits(|content|) + "\0" + content + "\0"
    case Dir(_, kids) => "D\0" + rel + "\0" + EncodedAll(kids, rel + "/")
  }

  /** Neighbours in order; `prefix` is "" for the selection itself, else the parent's name and a slash. */
  function EncodedAll(ns: seq<Node>, prefix: string): string
    requires AllTransferable(ns)
  {
    if ns == [] then "" else Encoded(ns[0], prefix + ns[0].name) + EncodedAll(ns[1..], prefix)
  }

  /** sourcePathsSignature over the trees found at the sorted source paths. */
  function SignatureOf(forest: seq<Node>): Option<Digest> {
    if forest == [] || !AllTransferable(forest) then None else Some(Sha256(EncodedAll(forest, "")))
  }

  class HashWriter {
    var written: string

    constructor ()
      ensures written == ""
    {
      written := "";
    }

    /** appendSourcePathSignature: a header, then the content or each entry in turn. */
    method Append(n: Node, rel: string) returns (ok: bool)
      modifies this
      ensures ok <==> Transferable(n)
      ensures ok ==> written == old(written) + Encoded(n, rel)
      decreases n
    {
      if n.Symlink? {
        return false;
      }
      if n.File? {
        written := written + ("F\0" + rel + "\0" + Digits(|n.content|) + "\0" + n.content + "\0");
        return true;
      }
      var header := "D\0" + rel + "\0";
      ghost var start := written + header;
      written := written + header;
      for k := 0 to |n.kids|
        invariant AllTransferable(n.kids[..k])
        invariant written == start + EncodedAll(n.kids[..k], rel + "/")
      {
        var done := Append(n.kids[k], rel + "/" + n.kids[k].name);
        if !done {
          return false;
        }
        EncodedAllSnoc(n.kids[..k], n.kids[k], rel + "/");
        assert n.kids[..k + 1] == n.kids[..k] + [n.kids[k]];
      }
      assert n.kids[..|n.kids|] == n.kids;
      return true;
    }
  }

  lemma {:induction false} EncodedAllSnoc(ns: seq<Node>, last: Node, prefix: string)
    requires AllTransferable(ns) && Transferable(last)
    ensures AllTransferable(ns + [last])
    ensures EncodedAll(ns + [last], prefix) == EncodedAll(ns, prefix) + Encoded(last, prefix + last.name)
  {
    hide Encoded;
    if ns == [] {
      assert ns + [last] == [last];
      assert EncodedAll([last][1..], prefix) == "";
    } else {
      assert (ns + [last])[1..] == ns[1..] + [last];
      EncodedAllSnoc(ns[1..], last, prefix);
    }
  }

  // ---------------------------------------------------------------- reading it back

  ghost predicate NoNul(s: string) {
    forall i :: 0 <= i < |s| ==> s[i] != '\0'
  }

  function Slashes(s: string): nat {
    if s == "" then 0 else Slashes(s[..|s| - 1]) + if s[|s| - 1] == '/' then 1 else 0
  }

  lemma {:induction false} SlashesAdd(s: string, t: string)
    ensures Slashes(s + t) == Slashes(s) + Slashes(t)
  {
    if t == "" {
      assert s + t == s;
    } else {
      assert (s + t)[..|s + t| - 1] == s + t[..|t| - 1];
      SlashesAdd(s, t[..|t| - 1]);
    }
  }

  lemma {:induction false} PlainHasNoSlash(s: string)
    requires forall i :: 0 <= i < |s| ==> s[i] != '/'
    ensures Slashes(s) == 0
  {
    if s != "" {
      PlainHasNoSlash(s[..|s| - 1]);
    }
  }

  lemma {:induction false} DigitsInjective(a: nat, b: nat)
    requires Digits(a) == Digits(b)
    ensures a == b
  {
    if a >= 10 && b >= 10 {
      var x, y := Digits(a), Digits(b);
      assert x[..|x| - 1] == Digits(a / 10) && y[..|y| - 1] == Digits(b / 10);
      assert x[|x| - 1] == DigitChar(a % 10) && y[|y| - 1] == DigitChar(b % 10);
      DigitsInjective(a / 10, b / 10);
    } else {
      DigitsLength(a);
      DigitsLength(b);
    }
  }

  lemma {:induction false} DigitsLength(n: nat)
    ensures |Digits(n)| >= 1 && (n >= 10 <==> |Digits(n)| > 1)
    ensures NoNul(Digits(n))
  {
    if n >= 10 {
      DigitsLength(n / 10);
    }
  }

  /** A NUL-free word is found again before the first NUL. */
  lemma WordUnique(a: string, b: string, x: string, y: string)
    requires NoNul(a) && NoNul(b)
    requires a + "\0" + x == b + "\0" + y
    ensures a == b && x == y
  {
    var s := a + "\0" + x;
    assert s[|a|] == '\0' && s[|b|] == '\0';
    assert forall i :: 0 <= i < |a| ==> s[i] == a[i];
    assert forall i :: 0 <= i < |b| ==> s[i] == b[i];
    assert |a| == |b|;
    assert s[..|a|] == a && s[..|b|] == b;
    assert s[|a| + 1..] == x && s[|b| + 1..] == y;
  }

  /** The stream stops here or goes on with a record named with fewer than m slashes. */
  ghost predicate ShallowFrom(s: string, m: nat) {
    s == "" || exists tag, rel, tail :: StartsWith(s, tag, rel, tail) && Slashes(rel) < m
  }

  ghost predicate StartsWith(s: string, tag: char, rel: string, tail: string) {
    NoNul(rel) && s == [tag] + "\0" + rel + "\0" + tail
  }

  lemma HeaderUnique(s: string, t1: char, r1: string, x1: string, t2: char, r2: string, x2: string)
    requires StartsWith(s, t1, r1, x1) && StartsWith(s, t2, r2, x2)
    ensures t1 == t2 && r1 == r2 && x1 == x2
  {
    assert s[0] == t1 && s[0] == t2;
    assert s[2..] == r1 + "\0" + x1 && s[2..] == r2 + "\0" + x2;
    WordUnique(r1, r2, x1, x2);
  }

  function Tag(n: Node): char {
    if n.Dir? then 'D' else 'F'
  }

  /** What follows the header of a node. */
  function Payload(n: Node, rel: string): string
    requires Transferable(n)
  {
    match n
    case File(_, content) => Digits(|content|) + "\0" + content + "\0"
    case Dir(_, kids) => EncodedAll(kids, rel + "/")
  }

  lemma NodeHeader(n: Node, rel: string, rest: string)
    requires Transferable(n) && NoNul(rel)
    ensures StartsWith(Encoded(n, rel) + rest, Tag(n), rel, Payload(n, rel) + rest)
  {
    var s := Encoded(n, rel) + rest;
    if n.File? {
      assert s == "F\0" + rel + "\0" + (Digits(|n.content|) + "\0" + n.content + "\0") + rest;
      assert "F\0" == ['F'] + "\0";
    } else {
      assert "D\0" == ['D'] + "\0";
    }
    assert s == [Tag(n)] + "\0" + rel + "\0" + (Payload(n, rel) + rest);
  }

  lemma Regroup(w: string, x: string, rest: string)
    ensures w + "\0" + x + "\0" + rest == w + "\0" + (x + "\0" + rest)
  {
  }

  lemma SameLengthWord(x: string, y: string, r1: string, r2: string)
    requires |x| == |y| && x + "\0" + r1 == y + "\0" + r2
    ensures x == y && r1 == r2
  {
    var s := x + "\0" + r1;
    assert s[..|x|] == x && s[..|y|] == y;
    assert s[|x| + 1..] == r1 && s[|y| + 1..] == r2;
  }

  lemma FileContentUnique(x: string, y: string, r1: string, r2: string)
    requires Digits(|x|) + "\0" + x + "\0" + r1 == Digits(|y|) + "\0" + y + "\0" + r2
    ensures x == y && r1 == r2
  {
    hide Digits;
    var dx, dy := Digits(|x|), Digits(|y|);
    DigitsLength(|x|);
    DigitsLength(|y|);
    Regroup(dx, x, r1);
    Regroup(dy, y, r2);
    WordUnique(dx, dy, x + "\0" + r1, y + "\0" + r2);
    DigitsInjective(|x|, |y|);
    SameLengthWord(x, y, r1, r2);
  }

  lemma RelIsPlain(prefix: string, name: string)
    requires NoNul(prefix) && PlainName(name)
    ensures NoNul(prefix + name) && Slashes(prefix + name) == Slashes(prefix)
    ensures NoNul(prefix + name + "/") && Slashes(prefix + name + "/") == Slashes(prefix) + 1
  {
    PlainHasNoSlash(name);
    SlashesAdd(prefix, name);
    SlashesAdd(prefix + name, "/");
    assert "/"[..0] == "";
    assert Slashes("/") == Slashes("") + 1;
  }

  /** A nonempty run of neighbours starts at their own depth. */
  lemma AllStartsAt(ns: seq<Node>, prefix: string, rest: string)
    requires AllTransferable(ns) && AllWellNamed(ns) && NoNul(prefix) && ns != []
    ensures StartsWith(EncodedAll(ns, prefix) + rest, Tag(ns[0]), prefix + ns[0].name,
                       Payload(ns[0], prefix + ns[0].name) + (EncodedAll(ns[1..], prefix) + rest))
  {
    assert ns[0] in ns;
    RelIsPlain(prefix, ns[0].name);
    NodeHeader(ns[0], prefix + ns[0].name, EncodedAll(ns[1..], prefix) + rest);
    assert EncodedAll(ns, prefix) + rest == Encoded(ns[0], prefix + ns[0].name) + (EncodedAll(ns[1..], prefix) + rest);
  }

  lemma RestIsShallow(ns: seq<Node>, prefix: string, rest: string)
    requires AllTransferable(ns) && AllWellNamed(ns) && NoNul(prefix)
    requires ShallowFrom(rest, Slashes(prefix))
    ensures ShallowFrom(EncodedAll(ns, prefix) + rest, Slashes(prefix) + 1)
  {
    if ns == [] {
      assert "" + rest == rest;
    } else {
      assert ns[0] in ns;
      AllStartsAt(ns, prefix, rest);
      RelIsPlain(prefix, ns[0].name);
    }
  }

  /** Two nodes with the same parent, whose streams agree up to what follows, are equal. */
  lemma {:induction false} NodeUnique(a: Node, b: Node, prefix: string, ra: string, rb: string)
    requires Transferable(a) && Transferable(b) && WellNamed(a) && WellNamed(b) && NoNul(prefix)
    requires Encoded(a, prefix + a.name) + ra == Encoded(b, prefix + b.name) + rb
    requires ShallowFrom(ra, Slashes(prefix) + 1) && ShallowFrom(rb, Slashes(prefix) + 1)
    ensures a == b && ra == rb
    decreases a, 0
  {
    var relA, relB := prefix + a.name, prefix + b.name;
    RelIsPlain(prefix, a.name);
    RelIsPlain(prefix, b.name);
    NodeHeader(a, relA, ra);
    NodeHeader(b, relB, rb);
    HeaderUnique(Encoded(a, relA) + ra, Tag(a), relA, Payload(a, relA) + ra, Tag(b), relB, Payload(b, relB) + rb);
    assert a.name == relA[|prefix|..] && b.name == relB[|prefix|..];
    if a.Dir? {
      AllUnique(a.kids, b.kids, relA + "/", ra, rb);
    } else {
      FileContentUnique(a.content, b.content, ra, rb);
    }
  }

  lemma FirstThenRest(ns: seq<Node>, prefix: string, rest: string)
    requires AllTransferable(ns) && ns != []
    ensures EncodedAll(ns, prefix) + rest == Encoded(ns[0], prefix + ns[0].name) + (EncodedAll(ns[1..], prefix) + rest)
  {
  }

  lemma {:induction false} AllUnique(xs: seq<Node>, ys: seq<Node>, prefix: string, ra: string, rb: string)
    requires AllTransferable(xs) && AllTransferable(ys) && AllWellNamed(xs) && AllWellNamed(ys) && NoNul(prefix)
    requires EncodedAll(xs, prefix) + ra == EncodedAll(ys, prefix) + rb
    requires ShallowFrom(ra, Slashes(prefix)) && ShallowFrom(rb, Slashes(prefix))
    ensures xs == ys && ra == rb
    decreases xs, 1
  {
    hide Encoded, ShallowFrom, Slashes, NoNul;
    if xs == [] && ys == [] {
      assert "" + ra == ra && "" + rb == rb;
    } else if xs == [] {
      NotShallow(ys, prefix, rb, ra);
    } else if ys == [] {
      NotShallow(xs, prefix, ra, rb);
    } else {
      var sa := EncodedAll(xs[1..], prefix) + ra;
      var sb := EncodedAll(ys[1..], prefix) + rb;
      RestIsShallow(xs[1..], prefix, ra);
      RestIsShallow(ys[1..], prefix, rb);
      assert xs[0] in xs && ys[0] in ys;
      FirstThenRest(xs, prefix, ra);
      FirstThenRest(ys, prefix, rb);
      NodeUnique(xs[0], ys[0], prefix, sa, sb);
      AllUnique(xs[1..], ys[1..], prefix, ra, rb);
      assert xs == [xs[0]] + xs[1..] && ys == [ys[0]] + ys[1..];
    }
  }

  /** A stream that starts with a neighbour cannot be one that must start shallower. */
  lemma NotShallow(ns: seq<Node>, prefix: string, rest: string, s: string)
    requires AllTransferable(ns) && AllWellNamed(ns) && NoNul(prefix) && ns != []
    requires ShallowFrom(s, Slashes(prefix))
    ensures EncodedAll(ns, prefix) + rest != "" + s
  {
    assert ns[0] in ns;
    AllStartsAt(ns, prefix, rest);
    RelIsPlain(prefix, ns[0].name);
    if EncodedAll(ns, prefix) + rest == "" + s {
      assert "" + s == s;
      var tag, rel, tail :| StartsWith(s, tag, rel, tail) && Slashes(rel) < Slashes(prefix);
      HeaderUnique(s, tag, rel, tail, Tag(ns[0]), prefix + ns[0].name,
                   Payload(ns[0], prefix + ns[0].name) + (EncodedAll(ns[1..], prefix) + rest));
    }
  }

  /**
   * Main result: two selections have the same signature exactly when they are the same ordered
   * forest of names and contents - same-named top-level directories included.
   */
  lemma SignatureIsExact(f: seq<Node>, g: seq<Node>)
    requires AllWellNamed(f) && AllWellNamed(g)
    requires SignatureOf(f).Some? && SignatureOf(g).Some?
    ensures SignatureOf(f) == SignatureOf(g) <==> f == g
  {
    if SignatureOf(f) == SignatureOf(g) {
      assert Slashes("") == 0;
      assert EncodedAll(f, "") + "" == EncodedAll(f, "") && EncodedAll(g, "") + "" == EncodedAll(g, "");
      AllUnique(f, g, "", "", "");
    }
  }

  // ---------------------------------------------------------------- reusing a registered transfer

  // Outgoing transfers: transfer id to source signature.
  type Registry = map<string, Digest>

  ghost predicate DistinctSignatures(reg: Registry) {
    forall a, b :: a in reg && b in reg && reg[a] == reg[b] ==> a == b
  }

  /** What registering a selection may do: give the id already holding its signature, or a fresh one. */
  ghost predicate Registers(reg: Registry, forest: seq<Node>, freshID: string, reg': Registry, id: Option<string>) {
    match SignatureOf(forest)
    case None => id == None && reg' == reg
    case Some(sig) =>
      && id.Some?
      && (if exists k :: k in reg && reg[k] == sig then reg' == reg && id.value in reg && reg[id.value] == sig
          else id.value == freshID && reg' == reg[freshID := sig])
  }

  class TransferManager {
    var outgoing: Registry

    constructor ()
      ensures outgoing == map[]
    {
      outgoing := map[];
    }

    method SourcePathsSignature(forest: seq<Node>) returns (sig: Option<Digest>)
      ensures sig == SignatureOf(forest)
    {
      if |forest| == 0 {
        return None;
      }
      var hash := new HashWriter();
      for k := 0 to |forest|
        invariant AllTransferable(forest[..k])
        invariant hash.written == EncodedAll(forest[..k], "")
        invariant fresh(hash)
      {
        var ok := hash.Append(forest[k], forest[k].name);
        if !ok {
          assert forest[k] in forest;
          return None;
        }
        EncodedAllSnoc(forest[..k], forest[k], "");
        assert forest[..k + 1] == forest[..k] + [forest[k]];
        assert "" + forest[k].name == forest[k].name;
      }
      assert forest[..|forest|] == forest;
      return Some(Sha256(hash.written));
    }

    method RegisterOutgoing(forest: seq<Node>, freshID: string) returns (id: Option<string>)
      modifies this
      ensures Registers(old(outgoing), forest, freshID, outgoing, id)
    {
      var sig := SourcePathsSignature(forest);
      if sig.None? {
        return None;
      }
      var rest := outgoing.Keys;
      while rest != {}
        invariant rest <= outgoing.Keys
        invariant outgoing == old(outgoing)
        invariant forall k :: k in outgoing && k !in rest ==> outgoing[k] != sig.value
        decreases rest
      {
        var k :| k in rest;
        if outgoing[k] == sig.value {
          return Some(k);
        }
        rest := rest - {k};
      }
      outgoing := outgoing[freshID := sig.value];
      return Some(freshID);
    }
  }

  /** One registration after another, each under an id never used before. */
  ghost predicate RegistrationRun(regs: seq<Registry>, forests: seq<seq<Node>>, freshIDs: seq<string>, ids: seq<Option<string>>) {
    && |regs| == |forests| + 1 && |freshIDs| == |forests| && |ids| == |forests|
    && regs[0] == map[]
    && (forall i :: 0 <= i < |forests| ==> AllWellNamed(forests[i]))
    && (forall i :: 0 <= i < |forests| ==> freshIDs[i] !in regs[i])
    && (forall i :: 0 <= i < |forests| ==> Registers(regs[i], forests[i], freshIDs[i], regs[i + 1], ids[i]))
  }

  lemma {:induction false} RegistryKeepsSignatures(regs: seq<Registry>, forests: seq<seq<Node>>, freshIDs: seq<string>,
                                                   ids: seq<Option<string>>, i: nat, n: nat)
    requires RegistrationRun(regs, forests, freshIDs, ids) && i < n <= |forests|
    ensures DistinctSignatures(regs[n])
    ensures ids[i].Some? <==> SignatureOf(forests[i]).Some?
    ensures ids[i].Some? ==> ids[i].value in regs[n] && Some(regs[n][ids[i].value]) == SignatureOf(forests[i])
  {
    RegistryIsDistinct(regs, forests, freshIDs, ids, n - 1);
    if i < n - 1 {
      RegistryKeepsSignatures(regs, forests, freshIDs, ids, i, n - 1);
    }
    assert Registers(regs[n - 1], forests[n - 1], freshIDs[n - 1], regs[n], ids[n - 1]);
  }

  lemma {:induction false} RegistryIsDistinct(regs: seq<Registry>, forests: seq<seq<Node>>, freshIDs: seq<string>,
                                              ids: seq<Option<string>>, n: nat)
    requires RegistrationRun(regs, forests, freshIDs, ids) && n <= |forests|
    ensures DistinctSignatures(regs[n])
  {
    if n > 0 {
      RegistryIsDistinct(regs, forests, freshIDs, ids, n - 1);
      assert Registers(regs[n - 1], forests[n - 1], freshIDs[n - 1], regs[n], ids[n - 1]);
    }
  }

  /** A selection has a signature exactly if it is one at all and no link is found in it. */
  lemma SignedIff(forest: seq<Node>)
    ensures SignatureOf(forest).Some? <==> |forest| > 0 && forall n :: n in forest ==> Transferable(n)
  {
  }

  /**
   * Main result: in every run of registrations a selection gets an id exactly if it is not empty and has no
   * links, and two such selections share one exactly when they are equal.
   */
  lemma SameIDIffSameForest(regs: seq<Registry>, forests: seq<seq<Node>>, freshIDs: seq<string>, ids: seq<Option<string>>, i: nat, j: nat)
    requires RegistrationRun(regs, forests, freshIDs, ids) && i < j < |forests|
    ensures ids[i].Some? <==> |forests[i]| > 0 && forall n :: n in forests[i] ==> Transferable(n)
    ensures ids[i].Some? && ids[j].Some? ==> (ids[i] == ids[j] <==> forests[i] == forests[j])
  {
    RegistryKeepsSignatures(regs, forests, freshIDs, ids, i, |forests|);
    RegistryKeepsSignatures(regs, forests, freshIDs, ids, j, |forests|);
    SignedIff(forests[i]);
    if ids[i].Some? && ids[j].Some? {
      SignatureIsExact(forests[i], forests[j]);
    }
  }
}

/**
 * The STOMP frame printer and parser: the subset of section "STOMP Frames" of the STOMP
 * Protocol Specification, Version 1.1, without value escaping. A text is its sequence of
 * code points.
 */
module Stomp {
  type Headers = map<string, string>

  datatype Frame = Frame(command: string, headers: Headers, body: string)

  // ---------------------------------------------------------------- text helpers

  /** The code points the program's TrimSpace removes. */
  predicate IsSpace(c: char) {
    || '\t' <= c <= '\r'
    || c == ' ' || c == '\U{0085}' || c == '\U{00A0}' || c == '\U{1680}'
    || '\U{2000}' <= c <= '\U{200A}'
    || c == '\U{2028}' || c == '\U{2029}' || c == '\U{202F}' || c == '\U{205F}' || c == '\U{3000}'
  }

  /** They are the 25 code points with the Unicode property White_Space. */
  lemma SpacesAreWhiteSpace(c: char)
    ensures var n := c as int;
            IsSpace(c) <==> n in {9, 10, 11, 12, 13, 32, 133, 160, 5760, 8192, 8193, 8194, 8195, 8196, 8197, 8198, 8199, 8200,
                                  8201, 8202, 8232, 8233, 8239, 8287, 12288}
  {
  }

  /** How many leading code points are spaces. */
  function LeadingSpaces(s: string): (n: nat)
    ensures n <= |s|
    ensures n < |s| ==> !IsSpace(s[n])
    ensures forall i :: 0 <= i < n ==> IsSpace(s[i])
  {
    if s == "" || !IsSpace(s[0]) then 0
    else
      assert forall i :: 0 < i < |s| ==> s[i] == s[1..][i - 1];
      1 + LeadingSpaces(s[1..])
  }

  /** Where the text ends once the spaces after position `from` are cut from its end. */
  function EndWithoutSpaces(s: string, from: nat): (e: nat)
    requires from <= |s|
    ensures from <= e <= |s|
    ensures from < e ==> !IsSpace(s[e - 1])
  {
    if from < |s| && IsSpace(s[|s| - 1]) then EndWithoutSpaces(s[..|s| - 1], from) else |s|
  }

  function TrimSpace(s: string): string {
    var from := LeadingSpaces(s);
    s[from..EndWithoutSpaces(s, from)]
  }

  /** The text without its trailing NULs. */
  function TrimNuls(s: string): (r: string)
    ensures r <= s
    ensures r != "" ==> r[|r| - 1] != '\0'
  {
    if s != "" && s[|s| - 1] == '\0' then TrimNuls(s[..|s| - 1]) else s
  }

  function IndexOf(s: string, c: char): (k: int)
    ensures -1 <= k < |s|
    ensures k >= 0 ==> s[k] == c && forall i :: 0 <= i < k ==> s[i] != c
    ensures k < 0 ==> forall i :: 0 <= i < |s| ==> s[i] != c
  {
    if s == "" then -1
    else if s[0] == c then 0
    else
      assert forall i :: 0 < i < |s| ==> s[i] == s[1..][i - 1];
      var k := IndexOf(s[1..], c);
      if k < 0 then -1 else k + 1
  }

  /** Start of the first empty line, that is of the first two newlines in a row. */
  function BlankAt(s: string): (k: int)
    ensures -1 <= k < |s|
    ensures k >= 0 ==> k + 1 < |s| && s[k] == '\n' && s[k + 1] == '\n'
    ensures k >= 0 ==> forall i :: 0 <= i < k ==> !(s[i] == '\n' && s[i + 1] == '\n')
    ensures k < 0 ==> forall i :: 0 <= i < |s| - 1 ==> !(s[i] == '\n' && s[i + 1] == '\n')
  {
    if |s| < 2 then -1
    else if s[0] == '\n' && s[1] == '\n' then 0
    else
      var k := BlankAt(s[1..]);
      assert forall i :: 0 < i < |s| ==> s[i] == s[1..][i - 1];
      if k < 0 then -1 else k + 1
  }

  predicate OneLine(s: string) {
    forall i :: 0 <= i < |s| ==> s[i] != '\n'
  }

  /** The text cut at every newline; never empty. */
  function Lines(s: string): (lines: seq<string>)
    ensures |lines| > 0
    ensures forall i :: 0 <= i < |lines| ==> OneLine(lines[i])
  {
    var k := IndexOf(s, '\n');
    if k < 0 then [s]
    else
      var first := s[..k];
      var rest := Lines(s[k + 1..]);
      assert OneLine(first);
      [first] + rest
  }

  // ---------------------------------------------------------------- wire format

  /** The headers of these lines, a later line overriding an earlier one. */
  function HeadersOf(lines: seq<string>): Headers {
    if lines == [] then map[] else WithLine(HeadersOf(lines[..|lines| - 1]), lines[|lines| - 1])
  }

  /** A line without a colon past its first character names no header and is skipped. */
  function WithLine(earlier: Headers, rawLine: string): Headers {
    var line := TrimSpace(rawLine);
    var idx := IndexOf(line, ':');
    if idx <= 0 then earlier else earlier[line[..idx] := line[idx + 1..]]
  }

  function Parsed(data: string): Frame {
    var raw := TrimNuls(data);
    var blank := BlankAt(raw);
    var head := if blank < 0 then raw else raw[..blank];
    var body := if blank < 0 then "" else raw[blank + 2..];
    var lines := Lines(head);
    Frame(TrimSpace(lines[0]), HeadersOf(lines[1..]), body)
  }

  /** One way of walking the header map: every key once. */
  ghost predicate IsOrder(order: seq<string>, headers: Headers) {
    && (forall k :: k in order <==> k in headers)
    && (forall i, j :: 0 <= i < j < |order| ==> order[i] != order[j])
  }

  function HeaderLine(headers: Headers, key: string): string
    requires key in headers
  {
    key + ":" + headers[key]
  }

  function HeaderText(headers: Headers, order: seq<string>): string
    requires forall k :: k in order ==> k in headers
  {
    if order == [] then ""
    else HeaderText(headers, order[..|order| - 1]) + HeaderLine(headers, order[|order| - 1]) + "\n"
  }

  function EncodedIn(f: Frame, order: seq<string>): string
    requires forall k :: k in order ==> k in f.headers
  {
    f.command + "\n" + HeaderText(f.headers, order) + "\n" + f.body + "\0"
  }

  // ---------------------------------------------------------------- the program's loops

  /** The part of a walk over the header map that has left `rest` to visit. */
  ghost predicate IsWalk(order: seq<string>, headers: Headers, rest: set<string>) {
    && rest <= headers.Keys
    && (forall k :: k in order <==> k in headers && k !in rest)
    && (forall i, j :: 0 <= i < j < |order| ==> order[i] != order[j])
  }

  lemma WalkOn(order: seq<string>, headers: Headers, rest: set<string>, key: string)
    requires IsWalk(order, headers, rest) && key in rest
    ensures IsWalk(order + [key], headers, rest - {key})
    ensures HeaderText(headers, order + [key]) == HeaderText(headers, order) + key + ":" + headers[key] + "\n"
  {
    var longer := order + [key];
    assert longer[..|longer| - 1] == order;
    assert forall k :: k in longer <==> k in order || k == key;
    assert HeaderText(headers, order) + HeaderLine(headers, key) == HeaderText(headers, order) + key + ":" + headers[key];
  }

  method Encode(f: Frame) returns (wire: string)
    ensures exists order :: IsOrder(order, f.headers) && wire == EncodedIn(f, order)
  {
    hide HeaderText;
    wire := f.command;
    wire := wire + "\n";
    ghost var order: seq<string> := [];
    ghost var text := "";
    var rest := f.headers.Keys;
    assert HeaderText(f.headers, []) == "" by { NoHeaders(f.headers); }
    while rest != {}
      invariant IsWalk(order, f.headers, rest)
      invariant text == HeaderText(f.headers, order) && wire == f.command + "\n" + text
      decreases rest
    {
      var key :| key in rest;
      WalkOn(order, f.headers, rest, key);
      wire := wire + key;
      wire := wire + ":";
      wire := wire + f.headers[key];
      wire := wire + "\n";
      order, text, rest := order + [key], text + key + ":" + f.headers[key] + "\n", rest - {key};
    }
    wire := wire + "\n";
    wire := wire + f.body;
    wire := wire + "\0";
    assert IsOrder(order, f.headers);
  }

  lemma NoHeaders(headers: Headers)
    ensures HeaderText(headers, []) == ""
  {
  }

  method ParseFrame(data: string) returns (frame: Frame)
    ensures frame == Parsed(data)
  {
    hide WithLine, IndexOf, LeadingSpaces, EndWithoutSpaces;
    var raw := TrimNuls(data);
    var blank := BlankAt(raw);
    var head, body := raw, "";
    if blank >= 0 {
      head, body := raw[..blank], raw[blank + 2..];
    }
    var lines := Lines(head);
    var headers: Headers := map[];
    ghost var tail := lines[1..];
    for k := 1 to |lines|
      invariant headers == HeadersOf(tail[..k - 1])
    {
      HeadersOfNext(tail, k - 1);
      headers := ReadHeader(headers, lines[k]);
    }
    assert tail[..|lines| - 1] == tail;
    frame := Frame(TrimSpace(lines[0]), headers, body);
  }

  method ReadHeader(earlier: Headers, rawLine: string) returns (headers: Headers)
    ensures headers == WithLine(earlier, rawLine)
  {
    var line := TrimSpace(rawLine);
    if line == "" {
      return earlier;
    }
    var idx := IndexOf(line, ':');
    if idx <= 0 {
      return earlier;
    }
    headers := earlier[line[..idx] := line[idx + 1..]];
  }

  lemma HeadersOfNext(lines: seq<string>, k: nat)
    requires k < |lines|
    ensures HeadersOf(lines[..k + 1]) == WithLine(HeadersOf(lines[..k]), lines[k])
  {
    assert lines[..k + 1][..k] == lines[..k];
  }

  // ---------------------------------------------------------------- when a frame survives

  /** No space at either end. */
  predicate Trimmed(s: string) {
    s == "" || (!IsSpace(s[0]) && !IsSpace(s[|s| - 1]))
  }

  predicate CleanHeader(key: string, value: string) {
    && key != "" && ':' !in key && OneLine(key) && OneLine(value)
    && Trimmed(key + ":" + value)
  }

  predicate CleanHeaders(headers: Headers) {
    forall k :: k in headers ==> CleanHeader(k, headers[k])
  }

  /** The frames the unescaped format can carry. */
  predicate Clean(f: Frame) {
    && OneLine(f.command) && Trimmed(f.command)
    && CleanHeaders(f.headers)
    && (f.body == "" || f.body[|f.body| - 1] != '\0')
  }

  lemma TrimSpaceFacts(s: string)
    ensures Trimmed(TrimSpace(s))
    ensures Trimmed(s) ==> TrimSpace(s) == s
    ensures OneLine(s) ==> OneLine(TrimSpace(s))
  {
    if s != "" && Trimmed(s) {
      assert LeadingSpaces(s) == 0;
      assert s[0..|s|] == s;
    }
  }

  lemma IndexOfIs(s: string, c: char, k: nat)
    requires k < |s| && s[k] == c && forall i :: 0 <= i < k ==> s[i] != c
    ensures IndexOf(s, c) == k
  {
  }

  lemma BlankAtIs(s: string, k: nat)
    requires k + 1 < |s| && s[k] == '\n' && s[k + 1] == '\n'
    requires forall i :: 0 <= i < k ==> !(s[i] == '\n' && s[i + 1] == '\n')
    ensures BlankAt(s) == k
  {
  }

  lemma TrimNulsOf(raw: string)
    requires raw == "" || raw[|raw| - 1] != '\0'
    ensures TrimNuls(raw + "\0") == raw
  {
    var ended := raw + "\0";
    assert ended[..|ended| - 1] == raw;
  }

  lemma HeaderLineSplits(headers: Headers, key: string)
    requires key in headers && CleanHeader(key, headers[key])
    ensures forall earlier :: WithLine(earlier, HeaderLine(headers, key)) == earlier[key := headers[key]]
  {
    var line := HeaderLine(headers, key);
    TrimSpaceFacts(line);
    assert line[..|key|] == key && line[|key|] == ':' && line[|key| + 1..] == headers[key];
    IndexOfIs(line, ':', |key|);
  }

  /** Each line followed by a newline. */
  ghost function Terminated(lines: seq<string>): string {
    if lines == [] then "" else lines[0] + "\n" + Terminated(lines[1..])
  }

  ghost function HeaderLines(headers: Headers, order: seq<string>): seq<string>
    requires forall k :: k in order ==> k in headers
  {
    seq(|order|, i requires 0 <= i < |order| => HeaderLine(headers, order[i]))
  }

  lemma {:induction false} TerminatedSnoc(lines: seq<string>, last: string)
    ensures Terminated(lines + [last]) == Terminated(lines) + last + "\n"
  {
    if lines != [] {
      assert (lines + [last])[1..] == lines[1..] + [last];
      TerminatedSnoc(lines[1..], last);
    }
  }

  lemma {:induction false} HeaderTextIsTerminated(headers: Headers, order: seq<string>)
    requires forall k :: k in order ==> k in headers
    ensures HeaderText(headers, order) == Terminated(HeaderLines(headers, order))
  {
    if order != [] {
      var front := order[..|order| - 1];
      HeaderTextIsTerminated(headers, front);
      TerminatedSnoc(HeaderLines(headers, front), HeaderLine(headers, order[|order| - 1]));
      assert HeaderLines(headers, order) == HeaderLines(headers, front) + [HeaderLine(headers, order[|order| - 1])];
    }
  }

  ghost predicate PlainLines(lines: seq<string>) {
    && lines != []
    && (forall i :: 0 <= i < |lines| ==> OneLine(lines[i]))
    && (forall i :: 1 <= i < |lines| ==> lines[i] != "")
  }

  lemma {:induction false} TerminatedHasNoBlank(lines: seq<string>)
    requires PlainLines(lines)
    ensures var t := Terminated(lines);
            && |t| > 0 && t[|t| - 1] == '\n'
            && (lines[0] != "" ==> t[0] != '\n')
            && (forall i :: 0 <= i < |t| - 1 ==> !(t[i] == '\n' && t[i + 1] == '\n'))
  {
    var t := Terminated(lines);
    var first := lines[0] + "\n";
    if |lines| == 1 {
      assert lines[1..] == [];
      assert Terminated(lines[1..]) == "";
      assert t == first + "";
    } else {
      var rest := Terminated(lines[1..]);
      TerminatedHasNoBlank(lines[1..]);
      assert t == first + rest;
      forall i | 0 <= i < |t| - 1
        ensures !(t[i] == '\n' && t[i + 1] == '\n')
      {
        if i >= |first| {
          assert t[i] == rest[i - |first|] && t[i + 1] == rest[i - |first| + 1];
        } else if i == |first| - 1 {
          assert t[i + 1] == rest[0];
        }
      }
    }
  }

  lemma LinesSplit(first: string, rest: string)
    requires OneLine(first)
    ensures Lines(first + "\n" + rest) == [first] + Lines(rest)
  {
    var text := first + "\n" + rest;
    IndexOfIs(text, '\n', |first|);
    assert text[..|first|] == first && text[|first| + 1..] == rest;
  }

  lemma LineAlone(s: string)
    requires OneLine(s)
    ensures Lines(s) == [s]
  {
    assert IndexOf(s, '\n') < 0;
  }

  /** The lines with a newline between neighbours. */
  ghost function Joined(lines: seq<string>): string
    requires lines != []
  {
    if |lines| == 1 then lines[0] else lines[0] + "\n" + Joined(lines[1..])
  }

  lemma {:induction false} TerminatedIsJoined(lines: seq<string>)
    requires lines != []
    ensures Terminated(lines) == Joined(lines) + "\n"
  {
    if |lines| == 1 {
      assert lines[1..] == [];
      assert Terminated(lines[1..]) == "";
    } else {
      TerminatedIsJoined(lines[1..]);
      assert lines[0] + "\n" + (Joined(lines[1..]) + "\n") == lines[0] + "\n" + Joined(lines[1..]) + "\n";
    }
  }

  lemma {:induction false} LinesOfJoined(lines: seq<string>)
    requires PlainLines(lines)
    ensures Lines(Joined(lines)) == lines
  {
    if |lines| == 1 {
      LineAlone(lines[0]);
    } else {
      LinesOfJoined(lines[1..]);
      LinesSplit(lines[0], Joined(lines[1..]));
    }
  }

  lemma LinesOfTerminated(lines: seq<string>)
    requires PlainLines(lines)
    ensures Terminated(lines) != "" && Lines(Terminated(lines)[..|Terminated(lines)| - 1]) == lines
  {
    TerminatedIsJoined(lines);
    LinesOfJoined(lines);
    var j := Joined(lines);
    assert (j + "\n")[..|j|] == j;
  }

  lemma HeaderLinesSnoc(headers: Headers, order: seq<string>)
    requires order != [] && forall k :: k in order ==> k in headers
    ensures var lines := HeaderLines(headers, order);
            && lines[..|lines| - 1] == HeaderLines(headers, order[..|order| - 1])
            && lines[|lines| - 1] == HeaderLine(headers, order[|order| - 1])
  {
  }

  /** The headers whose keys the walk has visited. */
  function Visited(headers: Headers, order: seq<string>): Headers {
    map k | k in headers && k in order :: headers[k]
  }

  lemma VisitedSnoc(headers: Headers, order: seq<string>)
    requires order != [] && order[|order| - 1] in headers
    ensures var last := order[|order| - 1];
            Visited(headers, order) == Visited(headers, order[..|order| - 1])[last := headers[last]]
  {
    var front, last := order[..|order| - 1], order[|order| - 1];
    assert order == front + [last];
  }

  lemma {:induction false} HeadersComeBack(headers: Headers, order: seq<string>)
    requires CleanHeaders(headers)
    requires forall k :: k in order ==> k in headers
    ensures HeadersOf(HeaderLines(headers, order)) == Visited(headers, order)
  {
    hide Visited, WithLine, HeaderLine, CleanHeader;
    if order == [] {
      NothingVisited(headers);
    } else {
      var front, last := order[..|order| - 1], order[|order| - 1];
      assert last in order;
      HeadersComeBack(headers, front);
      HeaderLineSplits(headers, last);
      HeaderLinesSnoc(headers, order);
      VisitedSnoc(headers, order);
    }
  }

  lemma NothingVisited(headers: Headers)
    ensures Visited(headers, []) == map[]
  {
  }

  lemma FrameLinesArePlain(f: Frame, order: seq<string>)
    requires Clean(f) && IsOrder(order, f.headers)
    ensures PlainLines([f.command] + HeaderLines(f.headers, order))
  {
    var lines := [f.command] + HeaderLines(f.headers, order);
    forall i | 1 <= i < |lines|
      ensures OneLine(lines[i]) && lines[i] != ""
    {
      assert lines[i] == HeaderLine(f.headers, order[i - 1]);
      assert CleanHeader(order[i - 1], f.headers[order[i - 1]]);
    }
  }

  /** The printed text is the frame's lines, an empty line, the body and a NUL. */
  lemma EncodedShape(f: Frame, order: seq<string>)
    requires IsOrder(order, f.headers)
    ensures EncodedIn(f, order) == Terminated([f.command] + HeaderLines(f.headers, order)) + "\n" + f.body + "\0"
  {
    HeaderTextIsTerminated(f.headers, order);
    assert ([f.command] + HeaderLines(f.headers, order))[1..] == HeaderLines(f.headers, order);
  }

  /** Every key of the map, in some order, gives the map back. */
  lemma AllHeadersComeBack(headers: Headers, order: seq<string>)
    requires CleanHeaders(headers) && IsOrder(order, headers)
    ensures HeadersOf(HeaderLines(headers, order)) == headers
  {
    HeadersComeBack(headers, order);
  }

  lemma BlankAfter(t: string, body: string)
    requires t != "" && t[|t| - 1] == '\n'
    requires forall i :: 0 <= i < |t| - 1 ==> !(t[i] == '\n' && t[i + 1] == '\n')
    ensures BlankAt(t + "\n" + body) == |t| - 1
  {
    var raw := t + "\n" + body;
    assert raw[|t| - 1] == '\n' && raw[|t|] == '\n';
    assert forall i :: 0 <= i < |t| ==> raw[i] == t[i];
    BlankAtIs(raw, |t| - 1);
  }

  /** Parsing cuts at the first empty line and drops the final NUL. */
  lemma ParsedAtBlank(t: string, body: string)
    requires t != "" && t[|t| - 1] == '\n'
    requires forall i :: 0 <= i < |t| - 1 ==> !(t[i] == '\n' && t[i + 1] == '\n')
    requires body == "" || body[|body| - 1] != '\0'
    ensures var lines := Lines(t[..|t| - 1]);
            Parsed(t + "\n" + body + "\0") == Frame(TrimSpace(lines[0]), HeadersOf(lines[1..]), body)
  {
    var raw := t + "\n" + body;
    TrimNulsOf(raw);
    BlankAfter(t, body);
    assert raw[..|t| - 1] == t[..|t| - 1];
    assert raw[|t| + 1..] == body;
  }

  /** Parsing finds the command, the header lines and the body of plainly written text. */
  lemma ParsedOfLines(lines: seq<string>, body: string)
    requires PlainLines(lines)
    requires body == "" || body[|body| - 1] != '\0'
    ensures Parsed(Terminated(lines) + "\n" + body + "\0") == Frame(TrimSpace(lines[0]), HeadersOf(lines[1..]), body)
  {
    TerminatedHasNoBlank(lines);
    LinesOfTerminated(lines);
    ParsedAtBlank(Terminated(lines), body);
  }

  /** Parsing undoes printing, whatever order the header map was walked in. */
  lemma RoundTrip(f: Frame, order: seq<string>)
    requires Clean(f) && IsOrder(order, f.headers)
    ensures Parsed(EncodedIn(f, order)) == f
  {
    var tail := HeaderLines(f.headers, order);
    var lines := [f.command] + tail;
    FrameLinesArePlain(f, order);
    EncodedShape(f, order);
    ParsedOfLines(lines, f.body);
    TrimSpaceFacts(f.command);
    assert lines[1..] == tail;
    AllHeadersComeBack(f.headers, order);
  }

  lemma WithLineStaysClean(earlier: Headers, rawLine: string)
    requires CleanHeaders(earlier) && OneLine(rawLine)
    ensures CleanHeaders(WithLine(earlier, rawLine))
  {
    var line := TrimSpace(rawLine);
    TrimSpaceFacts(rawLine);
    var idx := IndexOf(line, ':');
    if idx > 0 {
      var key, value := line[..idx], line[idx + 1..];
      assert line == key + ":" + value;
      assert CleanHeader(key, value);
    }
  }

  lemma {:induction false} ParsedHeadersAreClean(lines: seq<string>)
    requires forall i :: 0 <= i < |lines| ==> OneLine(lines[i])
    ensures CleanHeaders(HeadersOf(lines))
  {
    if lines != [] {
      var front := lines[..|lines| - 1];
      ParsedHeadersAreClean(front);
      WithLineStaysClean(HeadersOf(front), lines[|lines| - 1]);
    }
  }

  /** Whatever bytes come in, the parsed frame is one the format can carry. */
  lemma ParsedIsClean(data: string)
    ensures Clean(Parsed(data))
  {
    var raw := TrimNuls(data);
    var blank := BlankAt(raw);
    var lines := Lines(if blank < 0 then raw else raw[..blank]);
    TrimSpaceFacts(lines[0]);
    ParsedHeadersAreClean(lines[1..]);
  }

  /** Exactly the clean frames survive the wire. */
  lemma RoundTripIffClean(f: Frame, order: seq<string>)
    requires IsOrder(order, f.headers)
    ensures Parsed(EncodedIn(f, order)) == f <==> Clean(f)
  {
    ParsedIsClean(EncodedIn(f, order));
    if Clean(f) {
      RoundTrip(f, order);
    }
  }

  /** A frame that was received once can be relayed without change. */
  lemma RelayIsStable(data: string, order: seq<string>)
    requires IsOrder(order, Parsed(data).headers)
    ensures Parsed(EncodedIn(Parsed(data), order)) == Parsed(data)
  {
    ParsedIsClean(data);
    RoundTrip(Parsed(data), order);
  }
}

/** Reading PEM objects out of a text (source/pem.c).

The parser goes twice over the lines of each object: once to add up the length of its base64 text, once to copy it
into a buffer of exactly that length. The base64 text itself is not decoded here.
*/
module Pem {
  import opened Basics

  const BEGIN_HEADER: string := "-----BEGIN"
  const END_HEADER: string := "-----END"
  const DASHES: string := "-----"

  /** The type between the dashes, and the text between the headers without its line breaks. */
  datatype Object = Object(kind: string, text: string)

  // ----- Lines -----

  predicate StartsWith(s: string, prefix: string) {
    prefix <= s
  }

  /** isspace() of the C locale */
  predicate IsSpace(c: char) {
    c == ' ' || 9 <= c as int <= 13
  }

  function TrimLeft(s: string): (t: string)
    ensures |t| <= |s| && (t != "" ==> !IsSpace(t[0]))
    ensures s != "" && !IsSpace(s[0]) ==> t == s
    ensures t != "" ==> s != "" && t[|t| - 1] == s[|s| - 1]
  {
    if s == "" then ""
    else if IsSpace(s[0]) then TrimLeft(s[1..])
    else s
  }

  function TrimRight(s: string): (t: string)
    ensures t <= s && (t != "" ==> !IsSpace(t[|t| - 1]))
    ensures s != "" && !IsSpace(s[|s| - 1]) ==> t == s
  {
    if s == "" then ""
    else if IsSpace(s[|s| - 1]) then TrimRight(s[..|s| - 1])
    else s
  }

  function Trim(s: string): string {
    TrimRight(TrimLeft(s))
  }

  /** Space, tab, line feed, vertical tab, form feed and carriage return. */
  const SPACES: string := " \t\n\U{000B}\U{000C}\r"

  lemma {:induction false} LeftSpaces(s: string) returns (lo: nat)
    ensures lo <= |s| && TrimLeft(s) == s[lo..] && forall i :: 0 <= i < lo ==> IsSpace(s[i])
  {
    lo := 0;
    if s != "" && IsSpace(s[0]) {
      var rest := LeftSpaces(s[1..]);
      lo := rest + 1;
      assert s[1..][rest..] == s[lo..];
      assert forall i :: 0 < i < lo ==> s[i] == s[1..][i - 1];
    }
  }

  lemma {:induction false} RightSpaces(s: string)
    ensures forall i :: |TrimRight(s)| <= i < |s| ==> IsSpace(s[i])
  {
    if s != "" && IsSpace(s[|s| - 1]) {
      RightSpaces(s[..|s| - 1]);
    }
  }

  lemma {:induction false} SixSpaces(c: char)
    ensures IsSpace(c) <==> c in SPACES
  {
    if IsSpace(c) {
      var k := if c == ' ' then 0 else c as int - 8;
      assert SPACES[k] == c;
    }
  }

  /** Trimming takes all the space characters of the C locale off both ends of a line, and nothing else. */
  lemma {:induction false} TrimTakesSpacesOnly(s: string) returns (lo: nat, hi: nat)
    ensures lo <= hi <= |s| && Trim(s) == s[lo..hi]
    ensures forall i :: 0 <= i < lo || hi <= i < |s| ==> s[i] in SPACES
    ensures lo < hi ==> s[lo] !in SPACES && s[hi - 1] !in SPACES
  {
    lo := LeftSpaces(s);
    RightSpaces(s[lo..]);
    hi := lo + |Trim(s)|;
    forall i | 0 <= i < |s| ensures IsSpace(s[i]) <==> s[i] in SPACES {
      SixSpaces(s[i]);
    }
    assert forall i :: hi <= i < |s| ==> s[i] == s[lo..][i - lo];
    if lo < hi {
      assert Trim(s)[0] == s[lo] && Trim(s)[|Trim(s)| - 1] == s[hi - 1];
    }
  }

  /** Going over a line again, already trimmed, finds it the same. */
  lemma {:induction false} TrimTwice(s: string)
    ensures Trim(Trim(s)) == Trim(s)
  {
    var t := Trim(s);
    if t != "" {
      assert !IsSpace(t[|t| - 1]);
      assert t[0] == TrimLeft(s)[0];
    }
  }

  lemma {:induction false} TrimKeeps(s: string)
    requires s != "" ==> !IsSpace(s[0]) && !IsSpace(s[|s| - 1])
    ensures Trim(s) == s
  {
  }

  /** The pieces between line feeds; there is always one more piece than there are line feeds. */
  function Split(s: string): (lines: seq<string>)
    ensures |lines| > 0
    decreases |s|
  {
    if s == "" then [""]
    else if s[0] == '\n' then [""] + Split(s[1..])
    else
      var rest := Split(s[1..]);
      [[s[0]] + rest[0]] + rest[1..]
  }

  /** The type named by a begin header: what stands between the character after "-----BEGIN" and the closing dashes. */
  function HeaderKind(line: string): Option<string> {
    if |line| >= 16 && line[|line| - 5..] == DASHES then Some(line[11..|line| - 5]) else None
  }

  /** aws_byte_cursor_advance: a count that is too large leaves the cursor where it is and takes nothing. */
  function Advance(cursor: string, n: Size): (string, string) {
    if n > |cursor| || n > SIZE_MAX / 2 then ("", cursor) else (cursor[..n], cursor[n..])
  }

  /** s_extract_header_type_cur. The length left for the type is a difference of unsigned numbers and wraps around for
      a line that is too short; the advance then takes nothing, and the line is rejected for want of dashes. */
  method ExtractHeaderKind(line: string) returns (kind: Option<string>)
    requires |line| <= SIZE_MAX / 2
    ensures kind == if StartsWith(line, BEGIN_HEADER) then HeaderKind(line) else None
  {
    if !StartsWith(line, BEGIN_HEADER) {
      return None;
    }
    var (_, afterBegin) := Advance(line, |BEGIN_HEADER|);
    var (_, cursor) := Advance(afterBegin, 1);
    var (name, rest) := Advance(cursor, SubWrap(|cursor|, |DASHES|));
    if rest != DASHES {
      assert |line| >= 16 ==> rest == line[|line| - 5..];
      return None;
    }
    assert rest == line[|line| - 5..] && name == line[11..|line| - 5];
    return Some(name);
  }

  /** A trimmed line and all that the parser asks about it. */
  datatype Line = Line(text: string, begin: bool, kind: Option<string>, end: bool)

  function Look(text: string): Line {
    Line(text, StartsWith(text, BEGIN_HEADER), HeaderKind(text), StartsWith(text, END_HEADER))
  }

  /** Headers are recognised by their first characters; a begin header names a type exactly when at least one character
      and then five dashes follow. */
  lemma {:induction false} HeadersAre(text: string)
    ensures Look(text).begin <==> |text| >= 10 && text[..10] == "-----BEGIN"
    ensures Look(text).end <==> |text| >= 8 && text[..8] == "-----END"
    ensures Look(text).begin ==>
              (Look(text).kind.Some? <==> |text| >= 16 && forall i :: |text| - 5 <= i < |text| ==> text[i] == '-')
    ensures Look(text).begin && Look(text).kind.Some? ==>
              |text| >= 16 && Look(text).kind.value == text[11..|text| - 5]
  {
    if |text| >= 16 && forall i :: |text| - 5 <= i < |text| ==> text[i] == '-' {
      assert text[|text| - 5..] == DASHES;
    }
    if |text| >= 16 && text[|text| - 5..] == DASHES {
      forall i | |text| - 5 <= i < |text| ensures text[i] == '-' {
        assert text[i] == DASHES[i - (|text| - 5)];
      }
    }
  }

  // ----- The one-pass meaning -----

  /** What a reader is doing: looking for a begin header, inside an object, or given up at a malformed header. */
  datatype Mode = Searching | Inside(kind: string, text: string) | Stopped

  datatype Reading = Reading(objects: seq<Object>, mode: Mode)

  function ReadLine(r: Reading, line: Line): Reading {
    match r.mode
    case Stopped => r
    case Searching =>
      if !line.begin then r
      else
        (match line.kind
         case None => r.(mode := Stopped)
         case Some(kind) => r.(mode := Inside(kind, "")))
    case Inside(kind, text) =>
      if line.end then Reading(r.objects + [Object(kind, text)], Searching)
      else r.(mode := Inside(kind, text + line.text))
  }

  /** What the first `n` lines make of a reading. */
  function ReadTo(r: Reading, lines: seq<Line>, n: nat): Reading
    requires n <= |lines|
  {
    if n == 0 then r else ReadLine(ReadTo(r, lines, n - 1), lines[n - 1])
  }

  function ReadLines(r: Reading, lines: seq<Line>): Reading {
    ReadTo(r, lines, |lines|)
  }

  /** A text that ends inside an object, or has no object at all, is malformed. */
  function Result(r: Reading): Option<seq<Object>> {
    if r.mode.Inside? || r.objects == [] then None else Some(r.objects)
  }

  function LookAll(lines: seq<string>): (t: seq<Line>)
    ensures |t| == |lines| && forall i :: 0 <= i < |lines| ==> t[i] == Look(Trim(lines[i]))
  {
    seq(|lines|, i requires 0 <= i < |lines| => Look(Trim(lines[i])))
  }

  const START := Reading([], Searching)

  function Parse(text: string): Option<seq<Object>> {
    Result(ReadLines(START, LookAll(Split(text))))
  }

  // ----- The two-pass parser -----

  function Lengths(lines: seq<Line>, lo: nat, hi: nat): nat
    requires lo <= hi <= |lines|
  {
    if lo == hi then 0 else Lengths(lines, lo, hi - 1) + |lines[hi - 1].text|
  }

  function Joined(lines: seq<Line>, lo: nat, hi: nat): (s: string)
    requires lo <= hi <= |lines|
    ensures |s| == Lengths(lines, lo, hi)
  {
    if lo == hi then "" else Joined(lines, lo, hi - 1) + lines[hi - 1].text
  }

  lemma {:induction false} LengthsGrow(lines: seq<Line>, lo: nat, i: nat, hi: nat)
    requires lo <= i <= hi <= |lines|
    ensures Lengths(lines, lo, i) <= Lengths(lines, lo, hi)
  {
    if i < hi {
      LengthsGrow(lines, lo, i, hi - 1);
    }
  }

  ghost predicate NoEndIn(lines: seq<Line>, lo: nat, hi: nat)
    requires lo <= hi <= |lines|
  {
    forall k :: lo <= k < hi ==> !lines[k].end
  }

  lemma {:induction false} NoEndStaysInside(r: Reading, lines: seq<Line>, kind: string, lo: nat, hi: nat)
    requires lo <= hi <= |lines| && ReadTo(START, lines, lo) == r.(mode := Inside(kind, "")) && NoEndIn(lines, lo, hi)
    ensures ReadTo(START, lines, hi) == r.(mode := Inside(kind, Joined(lines, lo, hi)))
    decreases hi
  {
    if lo < hi {
      NoEndStaysInside(r, lines, kind, lo, hi - 1);
    }
  }

  // What the parser knows in each of its states.

  /** Looking for the next object: the lines before `i` gave `objects`. */
  ghost predicate Searches(t: seq<Line>, i: nat, objects: seq<Object>) {
    i <= |t| && ReadTo(START, t, i) == Reading(objects, Searching)
  }

  ghost predicate Entered(t: seq<Line>, first: nat, kind: string, objects: seq<Object>) {
    first <= |t| && ReadTo(START, t, first) == Reading(objects, Inside(kind, ""))
  }

  /** Adding up the lengths of the lines of an object. */
  ghost predicate Measures(t: seq<Line>, first: nat, i: nat, kind: string, objects: seq<Object>, length: nat) {
    && first <= i <= |t| && Entered(t, first, kind, objects)
    && NoEndIn(t, first, i) && length == Lengths(t, first, i)
  }

  /** Copying them; `last` is the line of the end header. */
  ghost predicate Copies(t: seq<Line>, first: nat, last: nat, i: nat, kind: string, objects: seq<Object>,
                         capacity: nat, buffer: string) {
    && first <= i <= last < |t| && Entered(t, first, kind, objects)
    && NoEndIn(t, first, last) && t[last].end
    && capacity == Lengths(t, first, last) && buffer == Joined(t, first, i)
  }

  lemma {:induction false} SearchOn(t: seq<Line>, i: nat, objects: seq<Object>)
    requires Searches(t, i, objects) && i < |t|
    ensures !t[i].begin ==> Searches(t, i + 1, objects)
    ensures t[i].begin && t[i].kind.Some? ==>
              Measures(t, i + 1, i + 1, t[i].kind.value, objects, 0)
    ensures t[i].begin && t[i].kind.None? ==>
              ReadLines(START, t) == Reading(objects, Stopped)
  {
    if t[i].begin && t[i].kind.None? {
      StoppedStays(t, i + 1, |t|);
    }
  }

  lemma {:induction false} MeasureOn(t: seq<Line>, first: nat, i: nat, kind: string, objects: seq<Object>, length: nat)
    requires Measures(t, first, i, kind, objects, length) && i < |t|
    ensures !t[i].end ==> Measures(t, first, i + 1, kind, objects, length + |t[i].text|)
    ensures t[i].end ==> Copies(t, first, i, first, kind, objects, length, "")
  {
  }

  /** The append fits, and at the end header the buffer is full. */
  lemma {:induction false} CopyOn(t: seq<Line>, first: nat, last: nat, i: nat, kind: string, objects: seq<Object>,
                                  capacity: nat, buffer: string)
    requires Copies(t, first, last, i, kind, objects, capacity, buffer)
    ensures !t[i].end ==>
              && |buffer| + |t[i].text| <= capacity
              && Copies(t, first, last, i + 1, kind, objects, capacity, buffer + t[i].text)
    ensures t[i].end ==>
              |buffer| == capacity && Searches(t, i + 1, objects + [Object(kind, buffer)])
  {
    if t[i].end {
      assert i == last;
      NoEndStaysInside(Reading(objects, Searching), t, kind, first, i);
    } else {
      assert i < last;
      LengthsGrow(t, first, i + 1, last);
    }
  }

  lemma {:induction false} MeasureEnds(t: seq<Line>, first: nat, kind: string, objects: seq<Object>, length: nat)
    requires Measures(t, first, |t|, kind, objects, length)
    ensures ReadLines(START, t).mode.Inside?
  {
    NoEndStaysInside(Reading(objects, Searching), t, kind, first, |t|);
  }

  lemma {:induction false} StoppedStays(t: seq<Line>, i: nat, n: nat)
    requires i <= n <= |t| && ReadTo(START, t, i).mode.Stopped?
    ensures ReadTo(START, t, n) == ReadTo(START, t, i)
    decreases n
  {
    if i < n {
      StoppedStays(t, i, n - 1);
    }
  }

  /** The loop of s_convert_pem_to_raw_base64. The index goes back to the first line of an object when its length is
      known. The buffer allocated then is never too small for an append and is full when the end header is reached. */
  method ConvertLines(t: seq<Line>) returns (result: Option<seq<Object>>)
    ensures result == Result(ReadLines(START, t))
  {
    var onData, onLengthCalc := false, true;
    var length: nat, first: nat, capacity: nat := 0, 0, 0;
    var kind, buffer := "", "";
    var objects: seq<Object> := [];
    ghost var last: nat := 0;
    var i: nat := 0;
    while i < |t|
      invariant i <= |t| && first <= |t|
      invariant !onData ==> onLengthCalc && length == 0 && Searches(t, i, objects)
      invariant onData && onLengthCalc ==> Measures(t, first, i, kind, objects, length)
      invariant onData && !onLengthCalc ==> Copies(t, first, last, i, kind, objects, capacity, buffer)
      decreases |t| - (if onData then first else i), onLengthCalc, |t| - i
    {
      var line := t[i];
      if !onData {
        SearchOn(t, i, objects);
        if line.begin {
          if line.kind.None? {
            return if objects == [] then None else Some(objects);
          }
          kind := line.kind.value;
          first := i + 1;
          onData := true;
        }
        i := i + 1;
      } else if line.end {
        if onLengthCalc {
          MeasureOn(t, first, i, kind, objects, length);
          last := i;
          onLengthCalc := false;
          i := first;
          capacity, buffer := length, "";
        } else {
          CopyOn(t, first, last, i, kind, objects, capacity, buffer);
          assert |buffer| == capacity;
          objects := objects + [Object(kind, buffer)];
          onData, onLengthCalc := false, true;
          length := 0;
          i := i + 1;
        }
      } else {
        if onLengthCalc {
          MeasureOn(t, first, i, kind, objects, length);
          length := length + |line.text|;
        } else {
          CopyOn(t, first, last, i, kind, objects, capacity, buffer);
          assert |buffer| + |line.text| <= capacity;
          buffer := buffer + line.text;
        }
        i := i + 1;
      }
    }
    if onData {
      MeasureEnds(t, first, kind, objects, length);
      return None;
    }
    result := if |objects| > 0 then Some(objects) else None;
  }

  /** s_convert_pem_to_raw_base64. Lines are trimmed and looked at once here, where the code does so on each visit. */
  method ConvertToRawBase64(text: string) returns (result: Option<seq<Object>>)
    ensures result == Parse(text)
  {
    var lines := Split(text);
    var t: seq<Line> := [];
    for i := 0 to |lines|
      invariant t == LookAll(lines[..i])
    {
      t := t + [Look(Trim(lines[i]))];
    }
    assert lines[..|lines|] == lines;
    result := ConvertLines(t);
  }

  // ----- Which texts are accepted -----

  /** The lines of the two headers of an object. */
  datatype Span = Span(begin: nat, end: nat)

  ghost predicate NoBeginIn(lines: seq<Line>, lo: nat, hi: nat)
    requires lo <= hi <= |lines|
  {
    forall k :: lo <= k < hi ==> !lines[k].begin
  }

  /** A well-formed begin header and the first end header after it. */
  ghost predicate IsObject(t: seq<Line>, x: Span) {
    && x.begin < x.end < |t| && t[x.begin].begin && t[x.begin].kind.Some?
    && t[x.end].end && NoEndIn(t, x.begin + 1, x.end)
  }

  /** Reading stops at line `stop`: at the end, at a malformed begin header, or at one that no end header follows. */
  ghost predicate StopsAt(t: seq<Line>, stop: nat) {
    stop <= |t| && (stop < |t| ==> t[stop].begin && (t[stop].kind.None? || NoEndIn(t, stop + 1, |t|)))
  }

  ghost predicate NextSpan(t: seq<Line>, from: nat, x: Span) {
    IsObject(t, x) && from <= x.begin && NoBeginIn(t, from, x.begin)
  }

  /** From line `from` on the text has these objects one after the other, no other begin header in between, and then
      comes to `stop`. */
  ghost predicate LaidOut(t: seq<Line>, from: nat, spans: seq<Span>, stop: nat)
    decreases |spans|
  {
    if spans == [] then from <= stop && StopsAt(t, stop) && NoBeginIn(t, from, stop)
    else NextSpan(t, from, spans[0]) && LaidOut(t, spans[0].end + 1, spans[1..], stop)
  }

  /** What stands between the headers: the type from the begin header, all lines up to the end header as one text. */
  ghost function ObjectAt(t: seq<Line>, x: Span): Object
    requires IsObject(t, x)
  {
    Object(t[x.begin].kind.value, Joined(t, x.begin + 1, x.end))
  }

  ghost function ObjectsAt(t: seq<Line>, from: nat, spans: seq<Span>, stop: nat): (objects: seq<Object>)
    requires LaidOut(t, from, spans, stop)
    ensures |objects| == |spans|
    decreases |spans|
  {
    if spans == [] then [] else [ObjectAt(t, spans[0])] + ObjectsAt(t, spans[0].end + 1, spans[1..], stop)
  }

  lemma {:induction false} NoBeginKeepsSearching(t: seq<Line>, lo: nat, hi: nat, objects: seq<Object>)
    requires lo <= hi <= |t| && NoBeginIn(t, lo, hi) && Searches(t, lo, objects)
    ensures Searches(t, hi, objects)
    decreases hi
  {
    if lo < hi {
      NoBeginKeepsSearching(t, lo, hi - 1, objects);
    }
  }

  lemma {:induction false} ReadSpan(t: seq<Line>, from: nat, x: Span, objects: seq<Object>)
    requires NextSpan(t, from, x) && Searches(t, from, objects)
    ensures Searches(t, x.end + 1, objects + [ObjectAt(t, x)])
  {
    NoBeginKeepsSearching(t, from, x.begin, objects);
    NoEndStaysInside(Reading(objects, Searching), t, t[x.begin].kind.value, x.begin + 1, x.end);
  }

  /** Every text is laid out in some way. */
  lemma {:induction false} LayoutExists(t: seq<Line>, from: nat) returns (spans: seq<Span>, stop: nat)
    requires from <= |t|
    ensures LaidOut(t, from, spans, stop)
    decreases |t| - from
  {
    var begin := from;
    while begin < |t| && !t[begin].begin
      invariant from <= begin <= |t| && NoBeginIn(t, from, begin)
    {
      begin := begin + 1;
    }
    spans, stop := [], begin;
    if begin < |t| && t[begin].kind.Some? {
      var end := begin + 1;
      while end < |t| && !t[end].end
        invariant begin < end <= |t| && NoEndIn(t, begin + 1, end)
      {
        end := end + 1;
      }
      if end < |t| {
        var rest, last := LayoutExists(t, end + 1);
        spans, stop := [Span(begin, end)] + rest, last;
        assert spans[1..] == rest;
      }
    }
  }

  lemma {:induction false} ReadToStop(t: seq<Line>, stop: nat, objects: seq<Object>)
    requires StopsAt(t, stop) && Searches(t, stop, objects)
    ensures var r := ReadLines(START, t);
            r.objects == objects && (r.mode.Inside? <==> stop < |t| && t[stop].kind.Some?)
  {
    if stop < |t| {
      if t[stop].kind.Some? {
        NoEndStaysInside(Reading(objects, Searching), t, t[stop].kind.value, stop + 1, |t|);
      } else {
        StoppedStays(t, stop + 1, |t|);
      }
    }
  }

  lemma {:induction false} ReadLayout(t: seq<Line>, from: nat, spans: seq<Span>, stop: nat, objects: seq<Object>)
    requires LaidOut(t, from, spans, stop) && Searches(t, from, objects)
    ensures var r := ReadLines(START, t);
            && r.objects == objects + ObjectsAt(t, from, spans, stop)
            && (r.mode.Inside? <==> stop < |t| && t[stop].kind.Some?)
    decreases |spans|
  {
    if spans == [] {
      NoBeginKeepsSearching(t, from, stop, objects);
      ReadToStop(t, stop, objects);
      assert objects + [] == objects;
    } else {
      var x := spans[0];
      ReadSpan(t, from, x, objects);
      ReadLayout(t, x.end + 1, spans[1..], stop, objects + [ObjectAt(t, x)]);
      var rest := ObjectsAt(t, x.end + 1, spans[1..], stop);
      assert objects + [ObjectAt(t, x)] + rest == objects + ([ObjectAt(t, x)] + rest);
    }
  }

  lemma {:induction false} LayoutDecides(t: seq<Line>, spans: seq<Span>, stop: nat)
    requires LaidOut(t, 0, spans, stop)
    ensures Result(ReadLines(START, t)) ==
            if spans == [] || (stop < |t| && t[stop].kind.Some?) then None else Some(ObjectsAt(t, 0, spans, stop))
  {
    ReadLayout(t, 0, spans, stop, []);
    assert [] + ObjectsAt(t, 0, spans, stop) == ObjectsAt(t, 0, spans, stop);
  }

  /** What any text is parsed to. Its objects are found one after the other, up to the end, to a malformed begin header
      or to one without an end header. It is rejected exactly when it has none or comes to the last of these. */
  lemma {:induction false} ParseFollowsLayout(text: string, t: seq<Line>, spans: seq<Span>, stop: nat)
    requires t == LookAll(Split(text)) && LaidOut(t, 0, spans, stop)
    ensures Parse(text) ==
            if spans == [] || (stop < |t| && t[stop].kind.Some?) then None else Some(ObjectsAt(t, 0, spans, stop))
  {
    LayoutDecides(t, spans, stop);
  }

  // ----- Printing -----

  /** A document is a list of objects with explanatory lines before, between and after them (sections 2 and 3 of RFC
      7468). */
  datatype Item = Note(line: string) | Block(o: Object)

  predicate NoLineFeed(s: string) {
    forall i :: 0 <= i < |s| ==> s[i] != '\n'
  }

  /** Base64 text has neither spaces nor dashes. */
  predicate PlainText(s: string) {
    forall i :: 0 <= i < |s| ==> !IsSpace(s[i]) && s[i] != '-'
  }

  predicate Printable(x: Item) {
    match x
    case Note(line) => NoLineFeed(line) && !StartsWith(Trim(line), BEGIN_HEADER)
    case Block(o) => NoLineFeed(o.kind) && PlainText(o.text)
  }

  predicate AllPrintable(items: seq<Item>) {
    forall i :: 0 <= i < |items| ==> Printable(items[i])
  }

  /** The text of an object in lines of `width` characters, the last one possibly shorter. */
  function Wrapped(text: string, width: nat): seq<string>
    requires width > 0
    decreases |text|
  {
    if text == "" then []
    else [text[..Min(width, |text|)]] + Wrapped(text[Min(width, |text|)..], width)
  }

  function BeginLine(kind: string): string {
    BEGIN_HEADER + " " + kind + DASHES
  }

  function EndLine(kind: string): string {
    END_HEADER + " " + kind + DASHES
  }

  function ItemLines(x: Item, width: nat): seq<string>
    requires width > 0
  {
    match x
    case Note(line) => [line]
    case Block(o) => [BeginLine(o.kind)] + Wrapped(o.text, width) + [EndLine(o.kind)]
  }

  function DocumentLines(items: seq<Item>, width: nat): seq<string>
    requires width > 0
  {
    Flatten(seq(|items|, i requires 0 <= i < |items| => ItemLines(items[i], width)))
  }

  /** Every line ends in a line feed. */
  function PrintLines(lines: seq<string>): string {
    if lines == [] then "" else lines[0] + "\n" + PrintLines(lines[1..])
  }

  function Print(items: seq<Item>, width: nat): string
    requires width > 0
  {
    PrintLines(DocumentLines(items, width))
  }

  function ObjectOf(x: Item): seq<Object> {
    if x.Block? then [x.o] else []
  }

  function Objects(items: seq<Item>): seq<Object> {
    Flatten(seq(|items|, i requires 0 <= i < |items| => ObjectOf(items[i])))
  }

  // ----- Lines survive printing -----

  lemma {:induction false} SplitLine(line: string, rest: string)
    requires NoLineFeed(line)
    ensures Split(line + "\n" + rest) == [line] + Split(rest)
    decreases |line|
  {
    var whole := line + "\n" + rest;
    if line == "" {
      assert whole[0] == '\n' && whole[1..] == rest;
    } else {
      SplitLine(line[1..], rest);
      assert whole[0] == line[0] && whole[1..] == line[1..] + "\n" + rest;
      assert [line[0]] + line[1..] == line;
    }
  }

  lemma {:induction false} SplitLines(lines: seq<string>)
    requires forall i :: 0 <= i < |lines| ==> NoLineFeed(lines[i])
    ensures Split(PrintLines(lines)) == lines + [""]
  {
    if lines != [] {
      SplitLines(lines[1..]);
      SplitLine(lines[0], PrintLines(lines[1..]));
      assert [lines[0]] + (lines[1..] + [""]) == lines + [""];
    }
  }

  lemma {:induction false} ReadToConcat(r: Reading, a: seq<Line>, b: seq<Line>, n: nat)
    requires n <= |b|
    ensures ReadTo(r, a + b, |a| + n) == ReadTo(ReadTo(r, a, |a|), b, n)
  {
    if n == 0 {
      SamePrefix(r, a, a + b, |a|);
    } else {
      ReadToConcat(r, a, b, n - 1);
    }
  }

  lemma {:induction false} SamePrefix(r: Reading, a: seq<Line>, b: seq<Line>, n: nat)
    requires n <= |a| && n <= |b| && forall i :: 0 <= i < n ==> a[i] == b[i]
    ensures ReadTo(r, a, n) == ReadTo(r, b, n)
  {
    if n > 0 {
      SamePrefix(r, a, b, n - 1);
    }
  }

  lemma {:induction false} ReadConcat(r: Reading, a: seq<Line>, b: seq<Line>)
    ensures ReadLines(r, a + b) == ReadLines(ReadLines(r, a), b)
  {
    ReadToConcat(r, a, b, |b|);
  }

  lemma {:induction false} LookConcat(a: seq<string>, b: seq<string>)
    ensures LookAll(a + b) == LookAll(a) + LookAll(b)
  {
  }

  predicate NoLineFeeds(lines: seq<string>) {
    forall i :: 0 <= i < |lines| ==> NoLineFeed(lines[i])
  }

  lemma {:induction false} PrintedItem(x: Item, width: nat)
    requires width > 0 && Printable(x)
    ensures NoLineFeeds(ItemLines(x, width))
  {
    if x.Block? {
      WrappedLines(x.o.text, width);
      assert NoLineFeeds(Wrapped(x.o.text, width));
    }
  }

  lemma {:induction false} NoLineFeedsInAll(parts: seq<seq<string>>)
    requires forall i :: 0 <= i < |parts| ==> NoLineFeeds(parts[i])
    ensures NoLineFeeds(Flatten(parts))
  {
    if parts != [] {
      NoLineFeedsInAll(parts[1..]);
    }
  }

  lemma {:induction false} PrintedLines(items: seq<Item>, width: nat)
    requires width > 0 && AllPrintable(items)
    ensures NoLineFeeds(DocumentLines(items, width))
  {
    forall i | 0 <= i < |items| ensures NoLineFeeds(ItemLines(items[i], width)) {
      PrintedItem(items[i], width);
    }
    NoLineFeedsInAll(seq(|items|, i requires 0 <= i < |items| => ItemLines(items[i], width)));
  }

  predicate DataLine(line: string) {
    line != "" && PlainText(line)
  }

  lemma {:induction false} WrappedLines(text: string, width: nat)
    requires width > 0 && PlainText(text)
    ensures DataLines(Wrapped(text, width)) && NoLineFeeds(Wrapped(text, width))
    decreases |text|
  {
    if text != "" {
      WrappedLines(text[Min(width, |text|)..], width);
    }
  }

  // ----- What the parser makes of them -----

  /** The first `n` lines as one text. */
  function TextTo(lines: seq<string>, n: nat): string
    requires n <= |lines|
  {
    if n == 0 then "" else TextTo(lines, n - 1) + lines[n - 1]
  }

  predicate DataLines(lines: seq<string>) {
    forall i :: 0 <= i < |lines| ==> DataLine(lines[i])
  }

  lemma {:induction false} TextAfterFirst(line: string, rest: seq<string>, n: nat)
    requires n <= |rest|
    ensures TextTo([line] + rest, n + 1) == line + TextTo(rest, n)
  {
    if n > 0 {
      TextAfterFirst(line, rest, n - 1);
      assert ([line] + rest)[n] == rest[n - 1];
    }
  }

  lemma {:induction false} WrappedText(text: string, width: nat)
    requires width > 0
    ensures TextTo(Wrapped(text, width), |Wrapped(text, width)|) == text
    decreases |text|
  {
    if text != "" {
      var n := Min(width, |text|);
      var rest := Wrapped(text[n..], width);
      WrappedText(text[n..], width);
      TextAfterFirst(text[..n], rest, |rest|);
      assert Wrapped(text, width) == [text[..n]] + rest;
    }
  }

  /** Lines that say nothing but themselves. */
  predicate PlainLines(t: seq<Line>, lines: seq<string>) {
    |t| == |lines| && forall i :: 0 <= i < |t| ==> !t[i].end && t[i].text == lines[i]
  }

  lemma {:induction false} LookDataLine(line: string)
    requires DataLine(line)
    ensures !Look(Trim(line)).end && Look(Trim(line)).text == line
  {
    TrimKeeps(line);
    assert END_HEADER[0] == '-';
  }

  lemma {:induction false} LookDataLines(lines: seq<string>)
    requires DataLines(lines)
    ensures PlainLines(LookAll(lines), lines)
  {
    forall i | 0 <= i < |lines| ensures !LookAll(lines)[i].end && LookAll(lines)[i].text == lines[i] {
      LookDataLine(lines[i]);
    }
  }

  lemma {:induction false} ReadPlainTo(r: Reading, t: seq<Line>, lines: seq<string>, n: nat)
    requires r.mode.Inside? && PlainLines(t, lines) && n <= |t|
    ensures ReadTo(r, t, n) == r.(mode := Inside(r.mode.kind, r.mode.text + TextTo(lines, n)))
  {
    if n == 0 {
      assert r.mode.text + "" == r.mode.text;
    } else {
      ReadPlainTo(r, t, lines, n - 1);
      assert r.mode.text + TextTo(lines, n - 1) + lines[n - 1] == r.mode.text + TextTo(lines, n);
    }
  }

  lemma {:induction false} ReadWrapped(r: Reading, text: string, width: nat)
    requires width > 0 && PlainText(text) && r.mode.Inside?
    ensures ReadLines(r, LookAll(Wrapped(text, width))) == r.(mode := Inside(r.mode.kind, r.mode.text + text))
  {
    var lines := Wrapped(text, width);
    WrappedLines(text, width);
    WrappedText(text, width);
    LookDataLines(lines);
    ReadPlainTo(r, LookAll(lines), lines, |lines|);
  }

  lemma {:induction false} ReadBeginLine(objects: seq<Object>, kind: string)
    ensures ReadLine(Reading(objects, Searching), Look(Trim(BeginLine(kind)))) == Reading(objects, Inside(kind, ""))
  {
    var line := BeginLine(kind);
    assert line[0] == '-' && line[|line| - 1] == '-';
    TrimKeeps(line);
    assert StartsWith(line, BEGIN_HEADER);
    assert line[|line| - 5..] == DASHES;
    assert line[11..|line| - 5] == kind;
  }

  lemma {:induction false} ReadEndLine(objects: seq<Object>, kind: string, text: string)
    ensures ReadLine(Reading(objects, Inside(kind, text)), Look(Trim(EndLine(kind)))) ==
            Reading(objects + [Object(kind, text)], Searching)
  {
    var line := EndLine(kind);
    assert line[0] == '-' && line[|line| - 1] == '-';
    TrimKeeps(line);
    assert StartsWith(line, END_HEADER);
  }

  lemma {:induction false} ReadBlock(objects: seq<Object>, o: Object, width: nat)
    requires width > 0 && Printable(Block(o))
    ensures ReadLines(Reading(objects, Searching), LookAll(ItemLines(Block(o), width))) ==
            Reading(objects + [o], Searching)
  {
    var r := Reading(objects, Searching);
    var begin, body, end := [BeginLine(o.kind)], Wrapped(o.text, width), [EndLine(o.kind)];
    LookConcat(begin + body, end);
    LookConcat(begin, body);
    ReadConcat(r, LookAll(begin) + LookAll(body), LookAll(end));
    ReadConcat(r, LookAll(begin), LookAll(body));
    ReadBeginLine(objects, o.kind);
    ReadOne(r, begin);
    ReadWrapped(Reading(objects, Inside(o.kind, "")), o.text, width);
    assert "" + o.text == o.text;
    ReadEndLine(objects, o.kind, o.text);
    ReadOne(Reading(objects, Inside(o.kind, o.text)), end);
  }

  lemma ReadOne(r: Reading, lines: seq<string>)
    requires |lines| == 1
    ensures ReadLines(r, LookAll(lines)) == ReadLine(r, Look(Trim(lines[0])))
  {
    assert ReadTo(r, LookAll(lines), 1) == ReadLine(r, LookAll(lines)[0]);
  }

  lemma {:induction false} ReadItem(objects: seq<Object>, x: Item, width: nat)
    requires width > 0 && Printable(x)
    ensures ReadLines(Reading(objects, Searching), LookAll(ItemLines(x, width))) ==
            Reading(objects + ObjectOf(x), Searching)
  {
    match x
    case Note(line) =>
      ReadOne(Reading(objects, Searching), [line]);
      assert objects + [] == objects;
    case Block(o) => ReadBlock(objects, o, width);
  }

  /** Lines that bring certain objects and leave the reader searching. */
  ghost predicate Brings(lines: seq<Line>, gain: seq<Object>) {
    forall objects :: ReadLines(Reading(objects, Searching), lines) == Reading(objects + gain, Searching)
  }

  lemma {:induction false} BringsAll(parts: seq<seq<Line>>, gains: seq<seq<Object>>)
    requires |parts| == |gains| && forall i :: 0 <= i < |parts| ==> Brings(parts[i], gains[i])
    ensures Brings(Flatten(parts), Flatten(gains))
    decreases |parts|
  {
    if parts == [] {
      forall objects: seq<Object>
        ensures ReadLines(Reading(objects, Searching), []) == Reading(objects + [], Searching) {
        assert objects + [] == objects;
      }
    } else {
      BringsAll(parts[1..], gains[1..]);
      BringsBoth(parts[0], Flatten(parts[1..]), gains[0], Flatten(gains[1..]));
    }
  }

  lemma {:induction false} BringsBoth(a: seq<Line>, b: seq<Line>, x: seq<Object>, y: seq<Object>)
    requires Brings(a, x) && Brings(b, y)
    ensures Brings(a + b, x + y)
  {
    forall objects ensures ReadLines(Reading(objects, Searching), a + b) == Reading(objects + (x + y), Searching) {
      ReadConcat(Reading(objects, Searching), a, b);
      assert objects + x + y == objects + (x + y);
    }
  }

  lemma {:induction false} LookFlatten(parts: seq<seq<string>>)
    ensures LookAll(Flatten(parts)) == Flatten(seq(|parts|, i requires 0 <= i < |parts| => LookAll(parts[i])))
  {
    if parts != [] {
      LookFlatten(parts[1..]);
      LookConcat(parts[0], Flatten(parts[1..]));
      var looked := seq(|parts|, i requires 0 <= i < |parts| => LookAll(parts[i]));
      var n := |parts| - 1;
      assert looked[1..] == seq(n, i requires 0 <= i < n => LookAll(parts[1..][i]));
    }
  }

  lemma {:induction false} ReadDocument(items: seq<Item>, width: nat)
    requires width > 0 && AllPrintable(items)
    ensures Brings(LookAll(DocumentLines(items, width)), Objects(items))
  {
    var n := |items|;
    var lines := seq(n, i requires 0 <= i < n => ItemLines(items[i], width));
    var parts := seq(n, i requires 0 <= i < n => LookAll(lines[i]));
    var gains := seq(n, i requires 0 <= i < n => ObjectOf(items[i]));
    forall i | 0 <= i < n ensures Brings(parts[i], gains[i]) {
      forall objects
        ensures ReadLines(Reading(objects, Searching), parts[i]) == Reading(objects + gains[i], Searching) {
        ReadItem(objects, items[i], width);
      }
    }
    BringsAll(parts, gains);
    LookFlatten(lines);
  }

  // ----- Main result -----

  /** Parsing a printed document gives back its objects, types and texts, whatever the width of the lines and whatever
      is written around the objects; a document without objects is rejected. */
  lemma {:induction false} ParsePrinted(items: seq<Item>, width: nat)
    requires width > 0 && AllPrintable(items)
    ensures Parse(Print(items, width)) == if Objects(items) == [] then None else Some(Objects(items))
  {
    var lines := DocumentLines(items, width);
    PrintedLines(items, width);
    SplitLines(lines);
    LookConcat(lines, [""]);
    ReadConcat(START, LookAll(lines), LookAll([""]));
    ReadDocument(items, width);
    assert [] + Objects(items) == Objects(items);
    var r := Reading(Objects(items), Searching);
    ReadOne(r, [""]);
    assert ReadLine(r, Look(Trim(""))) == r;
  }

  /** Two documents that print the same have the same objects. */
  lemma {:induction false} PrintDeterminesObjects(a: seq<Item>, b: seq<Item>, v: nat, w: nat)
    requires v > 0 && w > 0 && Print(a, v) == Print(b, w)
    requires AllPrintable(a) && AllPrintable(b)
    ensures Objects(a) == Objects(b)
  {
    ParsePrinted(a, v);
    ParsePrinted(b, w);
  }
}

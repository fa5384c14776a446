/** Cleaning up a PEM text before it is handed to a TLS library (source/pem.c).

Everything outside the blocks from "-----BEGIN" to the dashes that close the end header is dropped, and each block is
closed with a line feed. The output starts out with room for as many bytes as the input has. Single bytes are appended
with growth; the end header and the closing dashes are appended without, and are lost when they do not fit.

A header counts as present only when all its bytes are there.
*/
module PemSanitize {
  import opened Basics
  import Pem

  /** The markers of a block. What is proved here uses of them only that they are not empty, that a begin header does
      not start with a line feed, and that it is not longer than the other two together. */
  datatype Headers = Headers(begin: string, end: string, dashes: string)

  predicate Proper(h: Headers) {
    && h.begin != "" && h.end != "" && h.dashes != ""
    && h.begin[0] != '\n' && |h.begin| <= |h.end| + |h.dashes|
  }

  type Markers = h: Headers | Proper(h) witness Headers("a", "b", "c")

  const PEM: Markers := Headers(Pem.BEGIN_HEADER, Pem.END_HEADER, Pem.DASHES)

  /** The text starts with all of the header. */
  predicate Starts(header: string, s: string)
    ensures Starts(header, s) ==> |header| <= |s|
  {
    StartsFrom(header, s, 0)
  }

  /** It does from byte `k` of the header on. */
  predicate StartsFrom(header: string, s: string, k: nat)
    requires k <= |header|
    ensures StartsFrom(header, s, k) ==> |header| <= |s| || k == |header|
    decreases |header| - k
  {
    k == |header| || (k < |s| && s[k] == header[k] && StartsFrom(header, s, k + 1))
  }

  predicate SameAt(header: string, s: string, i: nat) {
    i < |header| && i < |s| && s[i] == header[i]
  }

  lemma {:induction false} StartsFromMeans(header: string, s: string, k: nat)
    requires k <= |header|
    ensures StartsFrom(header, s, k) <==> forall i :: k <= i < |header| ==> SameAt(header, s, i)
    decreases |header| - k
  {
    if k < |header| {
      StartsFromMeans(header, s, k + 1);
      if forall i :: k <= i < |header| ==> SameAt(header, s, i) {
        assert SameAt(header, s, k);
      }
    }
  }

  lemma {:induction false} StartsMeans(header: string, s: string)
    ensures Starts(header, s) <==> header <= s
  {
    StartsFromMeans(header, s, 0);
    if Starts(header, s) {
      forall i | 0 <= i < |header| ensures s[..|header|][i] == header[i] {
        assert SameAt(header, s, i);
      }
      assert s[..|header|] == header;
    }
    if header <= s {
      forall i | 0 <= i < |header| ensures SameAt(header, s, i) {
        assert header == s[..|header|];
      }
    }
  }

  // ----- What cleaning means -----

  /** Outside the blocks. */
  function Outside(h: Markers, s: string): string
    decreases |s|, 1
  {
    if s == "" then ""
    else if Starts(h.begin, s) then InData(h, s)
    else Outside(h, s[1..])
  }

  /** In a block, before its end header. */
  function InData(h: Markers, s: string): string
    decreases |s|, 0
  {
    if s == "" then ""
    else if Starts(h.end, s) then h.end + InEnd(h, s[|h.end|..])
    else [s[0]] + InData(h, s[1..])
  }

  /** In the end header. */
  function InEnd(h: Markers, s: string): string
    decreases |s|, 0
  {
    if s == "" then ""
    else if Starts(h.dashes, s) then h.dashes + ("\n" + Outside(h, s[|h.dashes|..]))
    else [s[0]] + InEnd(h, s[1..])
  }

  // ----- The blocks, found one after the other -----

  /** Where a header first occurs; the length of the text if it does not. */
  function Find(header: string, s: string): (p: nat)
    ensures p <= |s| && (p < |s| ==> p + |header| <= |s|)
  {
    FindFrom(header, s, 0)
  }

  function FindFrom(header: string, s: string, i: nat): (p: nat)
    requires i <= |s|
    ensures i <= p <= |s| && (p < |s| ==> p + |header| <= |s|)
    decreases |s| - i
  {
    if i == |s| then i
    else if Starts(header, s[i..]) then i
    else FindFrom(header, s, i + 1)
  }

  lemma {:induction false} FindIsFirst(header: string, s: string, i: nat)
    requires i <= |s|
    ensures var p := FindFrom(header, s, i);
            && (p < |s| ==> Starts(header, s[p..]))
            && forall q :: i <= q < p ==> !Starts(header, s[q..])
    decreases |s| - i
  {
    if i < |s| && !Starts(header, s[i..]) {
      FindIsFirst(header, s, i + 1);
    }
  }

  lemma {:induction false} FindFromNext(header: string, s: string, i: nat)
    requires i < |s|
    ensures FindFrom(header, s, i + 1) == 1 + FindFrom(header, s[1..], i)
    decreases |s| - i
  {
    if i + 1 < |s| {
      assert s[i + 1..] == s[1..][i..];
      if !Starts(header, s[i + 1..]) {
        FindFromNext(header, s, i + 1);
      }
    }
  }

  /** Looking for a header one byte after the other. */
  lemma {:induction false} FindNext(header: string, s: string)
    ensures Find(header, s) == if s == "" || Starts(header, s) then 0 else 1 + Find(header, s[1..])
  {
    if s != "" {
      assert s[0..] == s;
      FindFromNext(header, s, 0);
    }
  }

  /** Where the block that starts the text ends: after the dashes that close its end header. */
  function BlockEnd(h: Markers, s: string): (end: Option<nat>)
    ensures end.Some? ==> 0 < end.value <= |s|
  {
    var e := Find(h.end, s);
    if e == |s| then None
    else
      var d := Find(h.dashes, s[e + |h.end|..]);
      if d == |s| - (e + |h.end|) then None else Some(e + |h.end| + d + |h.dashes|)
  }

  /** Every block, from its begin header to the dashes that close its end header, followed by a line feed; a last block
      that is not complete is kept as it is. */
  function Blocks(h: Markers, s: string): string
    decreases |s|
  {
    var block := s[Find(h.begin, s)..];
    match BlockEnd(h, block)
    case None => block
    case Some(k) => block[..k] + ("\n" + Blocks(h, block[k..]))
  }

  lemma {:induction false} OutsideSkips(h: Markers, s: string)
    ensures Outside(h, s) == if Find(h.begin, s) == |s| then "" else InData(h, s[Find(h.begin, s)..])
    decreases |s|
  {
    FindNext(h.begin, s);
    if s != "" && !Starts(h.begin, s) {
      OutsideSkips(h, s[1..]);
    }
  }

  /** A text split one character further on. */
  lemma SplitFurther(s: string, i: nat, rest: string)
    requires s != "" && i < |s|
    ensures s[..i + 1] + rest == [s[0]] + (s[1..][..i] + rest)
    ensures s[i + 1..] == s[1..][i..]
  {
    assert s[..i + 1] == [s[0]] + s[1..][..i];
  }

  lemma {:induction false} InDataCopies(h: Markers, s: string)
    requires Find(h.end, s) < |s|
    ensures var i := Find(h.end, s) + |h.end|; i <= |s| && InData(h, s) == s[..i] + InEnd(h, s[i..])
    decreases |s|
  {
    FindNext(h.end, s);
    if Starts(h.end, s) {
      StartsMeans(h.end, s);
      assert s[..|h.end|] == h.end;
    } else {
      var i := Find(h.end, s[1..]) + |h.end|;
      InDataCopies(h, s[1..]);
      SplitFurther(s, i, InEnd(h, s[i + 1..]));
    }
  }

  lemma {:induction false} InDataCopiesAll(h: Markers, s: string)
    requires Find(h.end, s) == |s|
    ensures InData(h, s) == s
    decreases |s|
  {
    FindNext(h.end, s);
    if s != "" {
      InDataCopiesAll(h, s[1..]);
      assert s == [s[0]] + s[1..];
    }
  }

  lemma {:induction false} InEndCopies(h: Markers, s: string)
    requires Find(h.dashes, s) < |s|
    ensures var j := Find(h.dashes, s) + |h.dashes|; j <= |s| && InEnd(h, s) == s[..j] + ("\n" + Outside(h, s[j..]))
    decreases |s|
  {
    FindNext(h.dashes, s);
    if Starts(h.dashes, s) {
      StartsMeans(h.dashes, s);
      assert s[..|h.dashes|] == h.dashes;
      assert InEnd(h, s) == h.dashes + ("\n" + Outside(h, s[|h.dashes|..]));
    } else {
      var j := Find(h.dashes, s[1..]) + |h.dashes|;
      InEndCopies(h, s[1..]);
      SplitFurther(s, j, "\n" + Outside(h, s[j + 1..]));
    }
  }

  lemma {:induction false} InEndCopiesAll(h: Markers, s: string)
    requires Find(h.dashes, s) == |s|
    ensures InEnd(h, s) == s
    decreases |s|
  {
    FindNext(h.dashes, s);
    if s != "" {
      InEndCopiesAll(h, s[1..]);
      assert s == [s[0]] + s[1..];
    }
  }

  lemma JoinParts(s: string, i: nat, j: nat, data: string, end: string, rest: string)
    requires i <= |s| && j <= |s| - i
    requires data == s[..i] + end && end == s[i..][..j] + rest
    ensures data == s[..i + j] + rest
  {
    assert s[..i + j] == s[..i] + s[i..][..j];
  }

  lemma {:induction false} BlockParts(h: Markers, s: string, k: nat) returns (e: nat, d: nat)
    requires BlockEnd(h, s) == Some(k)
    ensures e == Find(h.end, s) && e + |h.end| <= |s| && d == Find(h.dashes, s[e + |h.end|..]) < |s| - e - |h.end|
    ensures k == e + |h.end| + d + |h.dashes| <= |s|
  {
    e := Find(h.end, s);
    d := Find(h.dashes, s[e + |h.end|..]);
  }

  lemma {:induction false} DataIsParts(h: Markers, s: string, i: nat, j: nat)
    requires i <= |s| && j <= |s| - i && i == Find(h.end, s) + |h.end| && j == Find(h.dashes, s[i..]) + |h.dashes|
    ensures InData(h, s) == s[..i + j] + ("\n" + Outside(h, s[i..][j..]))
  {
    InDataCopies(h, s);
    InEndCopies(h, s[i..]);
    JoinParts(s, i, j, InData(h, s), InEnd(h, s[i..]), "\n" + Outside(h, s[i..][j..]));
  }

  lemma {:induction false} DataIsBlock(h: Markers, s: string)
    requires BlockEnd(h, s).Some?
    ensures var k := BlockEnd(h, s).value; InData(h, s) == s[..k] + ("\n" + Outside(h, s[k..]))
  {
    var e, d := BlockParts(h, s, BlockEnd(h, s).value);
    var i, j := e + |h.end|, d + |h.dashes|;
    DataIsParts(h, s, i, j);
    assert s[i..][j..] == s[i + j..];
  }

  lemma {:induction false} DataIsOpenEnd(h: Markers, s: string, i: nat)
    requires i <= |s| && i == Find(h.end, s) + |h.end| && Find(h.dashes, s[i..]) == |s| - i
    ensures InData(h, s) == s
  {
    InDataCopies(h, s);
    InEndCopiesAll(h, s[i..]);
    assert s[..i] + s[i..] == s;
  }

  lemma {:induction false} DataIsOpenBlock(h: Markers, s: string)
    requires BlockEnd(h, s).None?
    ensures InData(h, s) == s
  {
    if Find(h.end, s) == |s| {
      InDataCopiesAll(h, s);
    } else {
      DataIsOpenEnd(h, s, Find(h.end, s) + |h.end|);
    }
  }

  /** The byte-by-byte cleaning keeps exactly the blocks. */
  lemma {:induction false} CleaningKeepsBlocks(h: Markers, s: string)
    ensures Outside(h, s) == Blocks(h, s)
    decreases |s|
  {
    OutsideSkips(h, s);
    var block := s[Find(h.begin, s)..];
    var end := BlockEnd(h, block);
    if end.Some? {
      DataIsBlock(h, block);
      CleaningKeepsBlocks(h, block[end.value..]);
    } else {
      DataIsOpenBlock(h, block);
    }
  }

  // ----- Cleaning twice -----

  predicate Agree(s: string, t: string, k: nat) {
    k <= |s| && k <= |t| && forall i :: 0 <= i < k ==> s[i] == t[i]
  }

  lemma AgreeFurther(c: char, s: string, t: string, k: nat)
    requires Agree(s, t, k)
    ensures Agree([c] + s, [c] + t, k + 1)
  {
  }

  lemma AgreeAfter(x: string, s: string, t: string, k: nat)
    requires Agree(s, t, k)
    ensures Agree(x + s, x + t, |x| + k)
  {
  }

  /** Cleaning changes nothing before the first line feed it inserts. */
  lemma {:induction false} InEndAgrees(h: Markers, s: string)
    ensures Agree(s, InEnd(h, s), Min(|s|, |h.dashes|))
    ensures |s| < |h.dashes| ==> |InEnd(h, s)| == |s|
    decreases |s|
  {
    StartsMeans(h.dashes, s);
    if s != "" && !Starts(h.dashes, s) {
      InEndAgrees(h, s[1..]);
      assert s == [s[0]] + s[1..];
      AgreeFurther(s[0], s[1..], InEnd(h, s[1..]), Min(|s| - 1, |h.dashes|));
    }
  }

  lemma {:induction false} InDataAgrees(h: Markers, s: string)
    ensures Agree(s, InData(h, s), Min(|s|, |h.end| + |h.dashes|))
    ensures |s| < |h.end| + |h.dashes| ==> |InData(h, s)| == |s|
    decreases |s|
  {
    if s != "" {
      if Starts(h.end, s) {
        var tail := s[|h.end|..];
        StartsMeans(h.end, s);
        assert s == h.end + tail;
        InEndAgrees(h, tail);
        AgreeAfter(h.end, tail, InEnd(h, tail), Min(|tail|, |h.dashes|));
      } else {
        InDataAgrees(h, s[1..]);
        assert s == [s[0]] + s[1..];
        AgreeFurther(s[0], s[1..], InData(h, s[1..]), Min(|s| - 1, |h.end| + |h.dashes|));
      }
    }
  }

  lemma SamePrefix(s: string, t: string, header: string, k: nat)
    requires Agree(s, t, Min(|s|, k)) && (|s| < k ==> |t| == |s|) && |header| <= k
    ensures Starts(header, t) <==> Starts(header, s)
  {
    StartsMeans(header, s);
    StartsMeans(header, t);
  }

  lemma {:induction false} SamePrefixAfterData(h: Markers, s: string, header: string)
    requires |header| <= |h.end| + |h.dashes|
    ensures Starts(header, InData(h, s)) <==> Starts(header, s)
  {
    InDataAgrees(h, s);
    SamePrefix(s, InData(h, s), header, |h.end| + |h.dashes|);
  }

  lemma {:induction false} SamePrefixAfterEnd(h: Markers, s: string, header: string)
    requires |header| <= |h.dashes|
    ensures Starts(header, InEnd(h, s)) <==> Starts(header, s)
  {
    InEndAgrees(h, s);
    SamePrefix(s, InEnd(h, s), header, |h.dashes|);
  }

  lemma {:induction false} OutsideTwice(h: Markers, s: string)
    ensures Outside(h, Outside(h, s)) == Outside(h, s)
    decreases |s|, 1
  {
    if s != "" {
      if Starts(h.begin, s) {
        SamePrefixAfterData(h, s, h.begin);
        InDataTwice(h, s);
      } else {
        OutsideTwice(h, s[1..]);
      }
    }
  }

  lemma {:induction false} InDataTwice(h: Markers, s: string)
    ensures InData(h, InData(h, s)) == InData(h, s)
    decreases |s|, 0
  {
    if s != "" {
      var t := InData(h, s);
      SamePrefixAfterData(h, s, h.end);
      if Starts(h.end, s) {
        assert t[|h.end|..] == InEnd(h, s[|h.end|..]);
        InEndTwice(h, s[|h.end|..]);
      } else {
        assert t[1..] == InData(h, s[1..]);
        InDataTwice(h, s[1..]);
      }
    }
  }

  lemma {:induction false} InEndTwice(h: Markers, s: string)
    ensures InEnd(h, InEnd(h, s)) == InEnd(h, s)
    decreases |s|, 0
  {
    if s != "" {
      var t := InEnd(h, s);
      SamePrefixAfterEnd(h, s, h.dashes);
      if Starts(h.dashes, s) {
        assert t[|h.dashes|..] == "\n" + Outside(h, s[|h.dashes|..]);
        LineFeedIsSkipped(h, Outside(h, s[|h.dashes|..]));
        OutsideTwice(h, s[|h.dashes|..]);
      } else {
        assert t[1..] == InEnd(h, s[1..]);
        InEndTwice(h, s[1..]);
      }
    }
  }

  lemma LineFeedIsSkipped(h: Markers, s: string)
    ensures Outside(h, "\n" + s) == Outside(h, s)
  {
    var t := "\n" + s;
    assert t[0] != h.begin[0] && t[1..] == s;
  }

  // ----- When the end header or the closing dashes are lost -----

  /** An append of `k` bytes to `length` bytes does not fit in the room for `n`, which has not been grown. */
  predicate Straddles(length: nat, k: nat, n: nat) {
    length <= n < length + k
  }

  /** Some append without growth fails, with `length` bytes written so far and room for `n` at the start. */
  predicate LostOutside(h: Markers, s: string, length: nat, n: nat)
    decreases |s|, 1
  {
    s != "" && if Starts(h.begin, s) then LostInData(h, s, length, n) else LostOutside(h, s[1..], length, n)
  }

  predicate LostInData(h: Markers, s: string, length: nat, n: nat)
    decreases |s|, 0
  {
    s != "" &&
    if Starts(h.end, s) then Straddles(length, |h.end|, n) || LostInEnd(h, s[|h.end|..], length + |h.end|, n)
    else LostInData(h, s[1..], length + 1, n)
  }

  predicate LostInEnd(h: Markers, s: string, length: nat, n: nat)
    decreases |s|, 0
  {
    s != "" &&
    if Starts(h.dashes, s) then
      Straddles(length, |h.dashes|, n) || LostOutside(h, s[|h.dashes|..], length + |h.dashes| + 1, n)
    else LostInEnd(h, s[1..], length + 1, n)
  }

  // ----- The same, read off the blocks of the text -----

  /** A block that has an end header: how many bytes are skipped before it, and how many bytes of the text are left at
      its end header and at the dashes that close it (0 if there are none). */
  datatype Span = Span(gap: nat, atEnd: nat, atDashes: nat)

  function Spans(h: Markers, s: string): seq<Span>
    decreases |s|
  {
    var gap := Find(h.begin, s);
    var block := s[gap..];
    var e := Find(h.end, block);
    if e == |block| then [] else SpansFromEnd(h, gap, block[e + |h.end|..])
  }

  /** `tail` is what follows the end header. */
  function SpansFromEnd(h: Markers, gap: nat, tail: string): seq<Span>
    decreases |tail|
  {
    var d := Find(h.dashes, tail);
    if d == |tail| then [Span(gap, |h.end| + |tail|, 0)]
    else [Span(gap, |h.end| + |tail|, |tail| - d)] + Spans(h, tail[d + |h.dashes|..])
  }

  function GapsTo(spans: seq<Span>, n: nat): nat
    requires n <= |spans|
  {
    if n == 0 then 0 else GapsTo(spans, n - 1) + spans[n - 1].gap
  }

  /** By how much the output is ahead of the input in block `j`: a line feed was added for each block before, and the
      gaps were dropped. */
  function Ahead(spans: seq<Span>, start: int, j: nat): int
    requires j < |spans|
  {
    start + j - GapsTo(spans, j + 1)
  }

  /** A header of `k` bytes at which `left` bytes are left does not fit any more, though what came before it did. */
  predicate Cut(ahead: int, left: nat, k: nat) {
    0 < left && ahead <= left < ahead + k
  }

  predicate CutAt(h: Markers, x: Span, ahead: int) {
    Cut(ahead, x.atEnd, |h.end|) || Cut(ahead, x.atDashes, |h.dashes|)
  }

  predicate CutSomewhere(h: Markers, spans: seq<Span>, start: int) {
    exists j :: 0 <= j < |spans| && CutAt(h, spans[j], Ahead(spans, start, j))
  }

  /** Whether cleaning a text loses part of it: in some block the output is ahead by at most the bytes that are left at
      a header, but by so much that the header does not fit. */
  predicate Loses(h: Markers, s: string) {
    CutSomewhere(h, Spans(h, s), 0)
  }

  lemma {:induction false} LostOutsideSkips(h: Markers, s: string, length: nat, n: nat)
    ensures LostOutside(h, s, length, n) <==> var f := Find(h.begin, s); f < |s| && LostInData(h, s[f..], length, n)
    decreases |s|
  {
    FindNext(h.begin, s);
    if s != "" && !Starts(h.begin, s) {
      LostOutsideSkips(h, s[1..], length, n);
      assert s[1..][Find(h.begin, s[1..])..] == s[Find(h.begin, s)..];
    }
  }

  lemma {:induction false} LostInDataSkips(h: Markers, s: string, length: nat, n: nat)
    ensures LostInData(h, s, length, n) <==>
            var e := Find(h.end, s);
            && e < |s|
            && (Straddles(length + e, |h.end|, n) || LostInEnd(h, s[e + |h.end|..], length + e + |h.end|, n))
    decreases |s|
  {
    FindNext(h.end, s);
    if s != "" && !Starts(h.end, s) {
      LostInDataSkips(h, s[1..], length + 1, n);
      var e := Find(h.end, s);
      assert e < |s| ==> s[e + |h.end|..] == s[1..][e - 1 + |h.end|..];
    }
  }

  lemma {:induction false} LostInEndSkips(h: Markers, s: string, length: nat, n: nat)
    ensures LostInEnd(h, s, length, n) <==>
            var d := Find(h.dashes, s);
            && d < |s|
            && (|| Straddles(length + d, |h.dashes|, n)
                || LostOutside(h, s[d + |h.dashes|..], length + d + |h.dashes| + 1, n))
    decreases |s|
  {
    FindNext(h.dashes, s);
    if s != "" && !Starts(h.dashes, s) {
      LostInEndSkips(h, s[1..], length + 1, n);
      var d := Find(h.dashes, s);
      assert d < |s| ==> s[d + |h.dashes|..] == s[1..][d - 1 + |h.dashes|..];
    }
  }

  lemma {:induction false} GapsShift(x: Span, rest: seq<Span>, n: nat)
    requires n <= |rest|
    ensures GapsTo([x] + rest, n + 1) == x.gap + GapsTo(rest, n)
  {
    if n > 0 {
      GapsShift(x, rest, n - 1);
      assert ([x] + rest)[n] == rest[n - 1];
    }
  }

  lemma {:induction false} CutInFirstOrRest(h: Markers, x: Span, rest: seq<Span>, start: int)
    ensures CutSomewhere(h, [x] + rest, start) <==>
            CutAt(h, x, start - x.gap) || CutSomewhere(h, rest, start - x.gap + 1)
  {
    var spans := [x] + rest;
    GapsShift(x, rest, 0);
    assert spans[0] == x && Ahead(spans, start, 0) == start - x.gap;
    forall j | 0 <= j < |rest|
      ensures spans[j + 1] == rest[j] && Ahead(spans, start, j + 1) == Ahead(rest, start - x.gap + 1, j)
    {
      GapsShift(x, rest, j + 1);
    }
    if CutSomewhere(h, spans, start) {
      var j :| 0 <= j < |spans| && CutAt(h, spans[j], Ahead(spans, start, j));
      assert j > 0 ==> CutAt(h, rest[j - 1], Ahead(rest, start - x.gap + 1, j - 1));
    }
    if CutSomewhere(h, rest, start - x.gap + 1) {
      var j :| 0 <= j < |rest| && CutAt(h, rest[j], Ahead(rest, start - x.gap + 1, j));
      assert CutAt(h, spans[j + 1], Ahead(spans, start, j + 1));
    }
  }

  /** `length` bytes were written up to and with an end header, and `tail` bytes of the text are left. */
  lemma {:induction false} LossInOpenBlock(h: Markers, length: nat, n: nat, gap: nat, tail: nat)
    requires length >= |h.end|
    ensures Straddles(length - |h.end|, |h.end|, n) <==>
            CutSomewhere(h, [Span(gap, |h.end| + tail, 0)], length + tail - n + gap)
  {
    var x := Span(gap, |h.end| + tail, 0);
    CutInFirstOrRest(h, x, [], length + tail - n + gap);
    assert [x] + [] == [x];
  }

  lemma {:induction false} LossInBlock(
    h: Markers, length: nat, n: nat, gap: nat, tail: nat, d: nat, rest: seq<Span>, lostLater: bool)
    requires length >= |h.end| && d < tail
    requires lostLater <==> CutSomewhere(h, rest, length + tail - n + 1)
    ensures Straddles(length - |h.end|, |h.end|, n) || Straddles(length + d, |h.dashes|, n) || lostLater <==>
            CutSomewhere(h, [Span(gap, |h.end| + tail, tail - d)] + rest, length + tail - n + gap)
  {
    CutInFirstOrRest(h, Span(gap, |h.end| + tail, tail - d), rest, length + tail - n + gap);
  }

  lemma {:induction false} SpansOf(h: Markers, s: string, gap: nat, e: nat)
    requires gap == Find(h.begin, s) && e == Find(h.end, s[gap..])
    ensures Spans(h, s) == if e == |s| - gap then [] else SpansFromEnd(h, gap, s[gap..][e + |h.end|..])
  {
  }

  lemma {:induction false} SpansOfTail(h: Markers, gap: nat, tail: string, d: nat)
    requires d == Find(h.dashes, tail)
    ensures SpansFromEnd(h, gap, tail) ==
            if d == |tail| then [Span(gap, |h.end| + |tail|, 0)]
            else [Span(gap, |h.end| + |tail|, |tail| - d)] + Spans(h, tail[d + |h.dashes|..])
  {
  }

  lemma {:induction false} LossInOpenTail(h: Markers, gap: nat, tail: string, length: nat, n: nat)
    requires length >= |h.end| && Find(h.dashes, tail) == |tail|
    ensures Straddles(length - |h.end|, |h.end|, n) || LostInEnd(h, tail, length, n) <==>
            CutSomewhere(h, [Span(gap, |h.end| + |tail|, 0)], length + |tail| - n + gap)
  {
    LostInEndSkips(h, tail, length, n);
    LossInOpenBlock(h, length, n, gap, |tail|);
  }

  /** The end header and the closing dashes, given what is known of the blocks after this one. */
  lemma {:induction false} LossInTail(h: Markers, gap: nat, tail: string, length: nat, n: nat, d: nat, rest: seq<Span>)
    requires length >= |h.end| && d == Find(h.dashes, tail) < |tail|
    requires LostOutside(h, tail[d + |h.dashes|..], length + d + |h.dashes| + 1, n) <==>
             CutSomewhere(h, rest, length + |tail| - n + 1)
    ensures Straddles(length - |h.end|, |h.end|, n) || LostInEnd(h, tail, length, n) <==>
            CutSomewhere(h, [Span(gap, |h.end| + |tail|, |tail| - d)] + rest, length + |tail| - n + gap)
  {
    var lost := LostOutside(h, tail[d + |h.dashes|..], length + d + |h.dashes| + 1, n);
    LostInEndSkips(h, tail, length, n);
    LossInBlock(h, length, n, gap, |tail|, d, rest, lost);
  }

  /** The blocks of a text, given what is known of them from the end header of the first one on. */
  lemma {:induction false} LossInFirst(h: Markers, s: string, length: nat, n: nat, gap: nat, e: nat, spans: seq<Span>)
    requires gap == Find(h.begin, s) && e == Find(h.end, s[gap..])
    requires if e == |s| - gap then spans == []
             else (Straddles(length + e, |h.end|, n) ||
                   LostInEnd(h, s[gap..][e + |h.end|..], length + e + |h.end|, n) <==>
                   CutSomewhere(h, spans, length + |s| - n))
    ensures LostOutside(h, s, length, n) <==> CutSomewhere(h, spans, length + |s| - n)
  {
    LostOutsideSkips(h, s, length, n);
    LostInDataSkips(h, s[gap..], length, n);
  }

  lemma {:induction false} LossFromEnd(h: Markers, gap: nat, tail: string, length: nat, n: nat)
    returns (spans: seq<Span>)
    requires length >= |h.end|
    ensures spans == SpansFromEnd(h, gap, tail)
    ensures Straddles(length - |h.end|, |h.end|, n) || LostInEnd(h, tail, length, n) <==>
            CutSomewhere(h, spans, length + |tail| - n + gap)
    decreases |tail|, 1
  {
    if Find(h.dashes, tail) == |tail| {
      spans := [Span(gap, |h.end| + |tail|, 0)];
      LossInOpenTail(h, gap, tail, length, n);
    } else {
      spans := LossFromClosedEnd(h, gap, tail, length, n, Find(h.dashes, tail));
    }
  }

  lemma {:induction false} LossFromClosedEnd(h: Markers, gap: nat, tail: string, length: nat, n: nat, d: nat)
    returns (spans: seq<Span>)
    requires length >= |h.end| && d == Find(h.dashes, tail) < |tail|
    ensures spans == SpansFromEnd(h, gap, tail)
    ensures Straddles(length - |h.end|, |h.end|, n) || LostInEnd(h, tail, length, n) <==>
            CutSomewhere(h, spans, length + |tail| - n + gap)
    decreases |tail|, 0
  {
    var rest := LossIsInBlocks(h, tail[d + |h.dashes|..], length + d + |h.dashes| + 1, n);
    spans := [Span(gap, |h.end| + |tail|, |tail| - d)] + rest;
    assert spans == SpansFromEnd(h, gap, tail) by {
      SpansOfTail(h, gap, tail, d);
    }
    LossInTail(h, gap, tail, length, n, d, rest);
  }

  /** Reading the loss off the blocks is the same as following the output byte by byte. */
  lemma {:induction false} LossIsInBlocks(h: Markers, s: string, length: nat, n: nat) returns (spans: seq<Span>)
    ensures spans == Spans(h, s)
    ensures LostOutside(h, s, length, n) <==> CutSomewhere(h, spans, length + |s| - n)
    decreases |s|
  {
    var gap := Find(h.begin, s);
    var e := Find(h.end, s[gap..]);
    SpansOf(h, s, gap, e);
    spans := [];
    if e < |s| - gap {
      spans := LossFromEnd(h, gap, s[gap..][e + |h.end|..], length + e + |h.end|, n);
    }
    LossInFirst(h, s, length, n, gap, e, spans);
  }

  // ----- Cleaning as a list of appends -----

  /** The two ways of appending: a byte, growing the buffer, or a header, which must fit. */
  datatype Op = Byte(c: char) | Header(text: string)

  datatype Mode = Begin | OnData | End

  function Plan(h: Markers, mode: Mode, s: string): seq<Op>
    decreases |s|, if mode.Begin? then 1 else 0
  {
    if s == "" then []
    else
      match mode
      case Begin => if Starts(h.begin, s) then Plan(h, OnData, s) else Plan(h, Begin, s[1..])
      case OnData =>
        if Starts(h.end, s) then [Header(h.end)] + Plan(h, End, s[|h.end|..])
        else [Byte(s[0])] + Plan(h, OnData, s[1..])
      case End =>
        if Starts(h.dashes, s) then [Header(h.dashes), Byte('\n')] + Plan(h, Begin, s[|h.dashes|..])
        else [Byte(s[0])] + Plan(h, End, s[1..])
  }

  function Text(op: Op): string {
    match op
    case Byte(c) => [c]
    case Header(text) => text
  }

  /** What the appends write if none is lost. */
  function Written(ops: seq<Op>): string {
    if ops == [] then "" else Text(ops[0]) + Written(ops[1..])
  }

  predicate LosesOps(ops: seq<Op>, length: nat, n: nat) {
    ops != [] &&
    ((ops[0].Header? && Straddles(length, |ops[0].text|, n)) || LosesOps(ops[1..], length + |Text(ops[0])|, n))
  }

  function Rest(h: Markers, mode: Mode, s: string): string {
    match mode
    case Begin => Outside(h, s)
    case OnData => InData(h, s)
    case End => InEnd(h, s)
  }

  predicate LostRest(h: Markers, mode: Mode, s: string, length: nat, n: nat) {
    match mode
    case Begin => LostOutside(h, s, length, n)
    case OnData => LostInData(h, s, length, n)
    case End => LostInEnd(h, s, length, n)
  }

  lemma WrittenFirst(op: Op, ops: seq<Op>)
    ensures Written([op] + ops) == Text(op) + Written(ops)
  {
    assert ([op] + ops)[1..] == ops;
  }

  lemma {:induction false} PlanWrites(h: Markers, mode: Mode, s: string)
    ensures Written(Plan(h, mode, s)) == Rest(h, mode, s)
    decreases |s|, if mode.Begin? then 1 else 0
  {
    if s != "" {
      match mode
      case Begin =>
        if Starts(h.begin, s) {
          PlanWrites(h, OnData, s);
        } else {
          PlanWrites(h, Begin, s[1..]);
        }
      case OnData =>
        if Starts(h.end, s) {
          PlanWrites(h, End, s[|h.end|..]);
          WrittenFirst(Header(h.end), Plan(h, End, s[|h.end|..]));
        } else {
          PlanWrites(h, OnData, s[1..]);
          WrittenFirst(Byte(s[0]), Plan(h, OnData, s[1..]));
        }
      case End =>
        if Starts(h.dashes, s) {
          var after := Plan(h, Begin, s[|h.dashes|..]);
          PlanWrites(h, Begin, s[|h.dashes|..]);
          WrittenFirst(Byte('\n'), after);
          WrittenFirst(Header(h.dashes), [Byte('\n')] + after);
          assert [Header(h.dashes)] + ([Byte('\n')] + after) == [Header(h.dashes), Byte('\n')] + after;
        } else {
          PlanWrites(h, End, s[1..]);
          WrittenFirst(Byte(s[0]), Plan(h, End, s[1..]));
        }
    }
  }

  lemma LosesFirst(op: Op, ops: seq<Op>, length: nat, n: nat)
    ensures LosesOps([op] + ops, length, n) <==>
            (op.Header? && Straddles(length, |op.text|, n)) || LosesOps(ops, length + |Text(op)|, n)
  {
    assert ([op] + ops)[1..] == ops;
  }

  lemma {:induction false} PlanLoses(h: Markers, mode: Mode, s: string, length: nat, n: nat)
    ensures LosesOps(Plan(h, mode, s), length, n) <==> LostRest(h, mode, s, length, n)
    decreases |s|, if mode.Begin? then 3 else 1
  {
    if s != "" {
      match mode
      case Begin => PlanLosesOutside(h, s, length, n);
      case OnData => PlanLosesInData(h, s, length, n);
      case End => PlanLosesInEnd(h, s, length, n);
    }
  }

  lemma {:induction false} PlanLosesOutside(h: Markers, s: string, length: nat, n: nat)
    requires s != ""
    ensures LosesOps(Plan(h, Begin, s), length, n) <==> LostOutside(h, s, length, n)
    decreases |s|, 2
  {
    if Starts(h.begin, s) {
      PlanLoses(h, OnData, s, length, n);
    } else {
      PlanLoses(h, Begin, s[1..], length, n);
    }
  }

  lemma {:induction false} PlanLosesInData(h: Markers, s: string, length: nat, n: nat)
    requires s != ""
    ensures LosesOps(Plan(h, OnData, s), length, n) <==> LostInData(h, s, length, n)
    decreases |s|, 0
  {
    if Starts(h.end, s) {
      PlanLoses(h, End, s[|h.end|..], length + |h.end|, n);
      LosesFirst(Header(h.end), Plan(h, End, s[|h.end|..]), length, n);
    } else {
      PlanLoses(h, OnData, s[1..], length + 1, n);
      LosesFirst(Byte(s[0]), Plan(h, OnData, s[1..]), length, n);
    }
  }

  lemma {:induction false} PlanLosesInEnd(h: Markers, s: string, length: nat, n: nat)
    requires s != ""
    ensures LosesOps(Plan(h, End, s), length, n) <==> LostInEnd(h, s, length, n)
    decreases |s|, 0
  {
    if Starts(h.dashes, s) {
      PlanLoses(h, Begin, s[|h.dashes|..], length + |h.dashes| + 1, n);
      LosesTwo(Header(h.dashes), Byte('\n'), Plan(h, Begin, s[|h.dashes|..]), length, n);
    } else {
      PlanLoses(h, End, s[1..], length + 1, n);
      LosesFirst(Byte(s[0]), Plan(h, End, s[1..]), length, n);
    }
  }

  lemma {:induction false} LosesTwo(op: Op, next: Op, ops: seq<Op>, length: nat, n: nat)
    ensures LosesOps([op, next] + ops, length, n) <==>
            || (op.Header? && Straddles(length, |op.text|, n))
            || (next.Header? && Straddles(length + |Text(op)|, |next.text|, n))
            || LosesOps(ops, length + |Text(op)| + |Text(next)|, n)
  {
    assert [op, next] + ops == [op] + ([next] + ops);
    LosesFirst(op, [next] + ops, length, n);
    LosesFirst(next, ops, length + |Text(op)|, n);
  }

  // ----- The buffer -----

  /** A buffer with a capacity. Appending a byte doubles a full buffer; appending a header leaves a buffer that has no
      room for it as it is. */
  datatype Buffer = Buffer(bytes: string, capacity: nat)
  {
    function Append(op: Op): Buffer {
      match op
      case Byte(c) => Buffer(bytes + [c], if |bytes| == capacity then 2 * capacity else capacity)
      case Header(text) => if |bytes| + |text| <= capacity then this.(bytes := bytes + text) else this
    }
  }

  function Appended(b: Buffer, ops: seq<Op>): Buffer
    decreases |ops|
  {
    if ops == [] then b else Appended(b.Append(ops[0]), ops[1..])
  }

  /** A buffer that got less than it was given never catches up. */
  lemma {:induction false} ShortStaysShort(b: Buffer, ops: seq<Op>, length: nat)
    requires |b.bytes| < length
    ensures |Appended(b, ops).bytes| < length + |Written(ops)|
    decreases |ops|
  {
    if ops != [] {
      ShortStaysShort(b.Append(ops[0]), ops[1..], length + |Text(ops[0])|);
    }
  }

  /** Once grown, the buffer has room for everything that can follow. */
  lemma {:induction false} AppendsKeepOrLose(b: Buffer, ops: seq<Op>, n: nat)
    requires b.capacity == (if |b.bytes| <= n then n else 2 * n) && |b.bytes| + |Written(ops)| <= 2 * n
    ensures !LosesOps(ops, |b.bytes|, n) ==> Appended(b, ops).bytes == b.bytes + Written(ops)
    ensures LosesOps(ops, |b.bytes|, n) ==> |Appended(b, ops).bytes| < |b.bytes| + |Written(ops)|
    decreases |ops|
  {
    if ops == [] {
      assert b.bytes + "" == b.bytes;
    } else {
      var c := b.Append(ops[0]);
      if ops[0].Header? && Straddles(|b.bytes|, |ops[0].text|, n) {
        ShortStaysShort(c, ops[1..], |b.bytes| + |Text(ops[0])|);
      } else {
        AppendsKeepOrLose(c, ops[1..], n);
        assert b.bytes + Text(ops[0]) + Written(ops[1..]) == b.bytes + Written(ops);
      }
    }
  }

  lemma {:induction false} CleanedLength(h: Markers, mode: Mode, s: string)
    ensures |Rest(h, mode, s)| <= 2 * |s|
    decreases |s|, if mode.Begin? then 1 else 0
  {
    if s != "" {
      match mode
      case Begin =>
        if Starts(h.begin, s) {
          CleanedLength(h, OnData, s);
        } else {
          CleanedLength(h, Begin, s[1..]);
        }
      case OnData =>
        CleanedLength(h, if Starts(h.end, s) then End else OnData, if Starts(h.end, s) then s[|h.end|..] else s[1..]);
      case End =>
        var closes := Starts(h.dashes, s);
        CleanedLength(h, if closes then Begin else End, if closes then s[|h.dashes|..] else s[1..]);
    }
  }

  // ----- The loop of the code -----

  /** What is appended from byte `i` on. */
  function PlanFrom(h: Markers, mode: Mode, s: string, i: nat): seq<Op>
    requires i <= |s|
  {
    Plan(h, mode, s[i..])
  }

  /** A byte of the text, or the whole end header, in a block. */
  method CopyData(h: Markers, pem: string, i: nat, buffer: Buffer) returns (mode: Mode, next: nat, after: Buffer)
    requires i < |pem|
    ensures i < next <= |pem| && !mode.Begin?
    ensures Appended(after, PlanFrom(h, mode, pem, next)) == Appended(buffer, PlanFrom(h, OnData, pem, i))
  {
    PlanStep(h, OnData, pem, i);
    if Starts(h.end, pem[i..]) {
      mode, next, after := End, i + |h.end|, buffer.Append(Header(h.end));
      AppendedFirst(buffer, Header(h.end), PlanFrom(h, End, pem, next));
    } else {
      mode, next, after := OnData, i + 1, buffer.Append(Byte(pem[i]));
      AppendedFirst(buffer, Byte(pem[i]), PlanFrom(h, OnData, pem, next));
    }
  }

  /** A byte of the text, or the dashes that close the end header and a line feed. */
  method CopyEnd(h: Markers, pem: string, i: nat, buffer: Buffer) returns (mode: Mode, next: nat, after: Buffer)
    requires i < |pem|
    ensures i < next <= |pem|
    ensures Appended(after, PlanFrom(h, mode, pem, next)) == Appended(buffer, PlanFrom(h, End, pem, i))
  {
    PlanStep(h, End, pem, i);
    if Starts(h.dashes, pem[i..]) {
      mode, next := Begin, i + |h.dashes|;
      after := buffer.Append(Header(h.dashes)).Append(Byte('\n'));
      AppendedTwo(buffer, Header(h.dashes), Byte('\n'), PlanFrom(h, Begin, pem, next));
    } else {
      mode, next, after := End, i + 1, buffer.Append(Byte(pem[i]));
      AppendedFirst(buffer, Byte(pem[i]), PlanFrom(h, End, pem, next));
    }
  }

  /** Going through the text appends what the plan says. */
  method AppendAll(h: Markers, pem: string) returns (buffer: Buffer)
    ensures buffer == Appended(Buffer("", |pem|), Plan(h, Begin, pem))
  {
    buffer := Buffer("", |pem|);
    var mode, i := Begin, 0;
    ghost var all := Appended(buffer, PlanFrom(h, Begin, pem, 0));
    assert pem[0..] == pem;
    while i < |pem|
      invariant 0 <= i <= |pem| && Appended(buffer, PlanFrom(h, mode, pem, i)) == all
      decreases |pem| - i, if mode.Begin? then 1 else 0
    {
      match mode {
        case Begin =>
          PlanStep(h, Begin, pem, i);
          if Starts(h.begin, pem[i..]) {
            mode := OnData;
          } else {
            i := i + 1;
          }
        case OnData => mode, i, buffer := CopyData(h, pem, i, buffer);
        case End => mode, i, buffer := CopyEnd(h, pem, i, buffer);
      }
    }
    assert pem[i..] == "";
  }

  lemma {:induction false} PlanStep(h: Markers, mode: Mode, s: string, i: nat)
    requires i < |s|
    ensures mode.Begin? ==>
              Plan(h, mode, s[i..]) ==
              if Starts(h.begin, s[i..]) then Plan(h, OnData, s[i..]) else Plan(h, Begin, s[i + 1..])
    ensures mode.OnData? && Starts(h.end, s[i..]) ==>
              Plan(h, mode, s[i..]) == [Header(h.end)] + Plan(h, End, s[i + |h.end|..])
    ensures mode.OnData? && !Starts(h.end, s[i..]) ==>
              Plan(h, mode, s[i..]) == [Byte(s[i])] + Plan(h, OnData, s[i + 1..])
    ensures mode.End? && Starts(h.dashes, s[i..]) ==>
              Plan(h, mode, s[i..]) == [Header(h.dashes), Byte('\n')] + Plan(h, Begin, s[i + |h.dashes|..])
    ensures mode.End? && !Starts(h.dashes, s[i..]) ==>
              Plan(h, mode, s[i..]) == [Byte(s[i])] + Plan(h, End, s[i + 1..])
  {
    var t := s[i..];
    assert t[0] == s[i] && t[1..] == s[i + 1..];
    assert Starts(h.end, t) ==> t[|h.end|..] == s[i + |h.end|..];
    assert Starts(h.dashes, t) ==> t[|h.dashes|..] == s[i + |h.dashes|..];
  }

  lemma AppendedFirst(b: Buffer, op: Op, ops: seq<Op>)
    ensures Appended(b, [op] + ops) == Appended(b.Append(op), ops)
  {
    assert ([op] + ops)[1..] == ops;
  }

  lemma AppendedTwo(b: Buffer, op: Op, next: Op, ops: seq<Op>)
    ensures Appended(b, [op, next] + ops) == Appended(b.Append(op).Append(next), ops)
  {
    assert ([op, next] + ops)[1..] == [next] + ops;
    AppendedFirst(b.Append(op), next, ops);
  }

  /** aws_sanitize_pem for any markers. The result is the cleaned text exactly when no append is lost; an empty text, or
      one that has nothing in it, is an error. */
  method Sanitize(h: Markers, pem: string) returns (result: Option<string>)
    ensures !Loses(h, pem) ==> result == if Blocks(h, pem) == "" then None else Some(Blocks(h, pem))
    ensures Loses(h, pem) ==> result.None? || |result.value| < |Blocks(h, pem)|
  {
    CleaningKeepsBlocks(h, pem);
    if |pem| == 0 {
      return None;
    }
    var buffer := AppendAll(h, pem);
    PlanWrites(h, Begin, pem);
    PlanLoses(h, Begin, pem, 0, |pem|);
    var _ := LossIsInBlocks(h, pem, 0, |pem|);
    CleanedLength(h, Begin, pem);
    AppendsKeepOrLose(Buffer("", |pem|), Plan(h, Begin, pem), |pem|);
    assert "" + Outside(h, pem) == Outside(h, pem);
    result := if |buffer.bytes| == 0 then None else Some(buffer.bytes);
  }

  /** aws_sanitize_pem */
  method SanitizePem(pem: string) returns (result: Option<string>)
    ensures !Loses(PEM, pem) ==> result == if Blocks(PEM, pem) == "" then None else Some(Blocks(PEM, pem))
    ensures Loses(PEM, pem) ==> result.None? || |result.value| < |Blocks(PEM, pem)|
  {
    result := Sanitize(PEM, pem);
  }

  // ----- Texts that lose nothing -----

  /** No block begins right where the one before it ends. */
  predicate GappedOutside(h: Markers, s: string)
    decreases |s|, 1
  {
    s == "" || if Starts(h.begin, s) then GappedInData(h, s) else GappedOutside(h, s[1..])
  }

  predicate GappedInData(h: Markers, s: string)
    decreases |s|, 0
  {
    s == "" || if Starts(h.end, s) then GappedInEnd(h, s[|h.end|..]) else GappedInData(h, s[1..])
  }

  predicate GappedInEnd(h: Markers, s: string)
    decreases |s|, 0
  {
    s == "" ||
    if Starts(h.dashes, s) then !Starts(h.begin, s[|h.dashes|..]) && GappedOutside(h, s[|h.dashes|..])
    else GappedInEnd(h, s[1..])
  }

  /** A line feed is added for every block but a byte is dropped before every block but the first. */
  lemma {:induction false} GappedOutsideKeeps(h: Markers, s: string, length: nat, n: nat)
    requires GappedOutside(h, s) && (length + |s| <= n || (length + |s| <= n + 1 && !Starts(h.begin, s)))
    ensures !LostOutside(h, s, length, n)
    decreases |s|, 1
  {
    if s != "" {
      if Starts(h.begin, s) {
        GappedInDataKeeps(h, s, length, n);
      } else {
        GappedOutsideKeeps(h, s[1..], length, n);
      }
    }
  }

  lemma {:induction false} GappedInDataKeeps(h: Markers, s: string, length: nat, n: nat)
    requires GappedInData(h, s) && length + |s| <= n
    ensures !LostInData(h, s, length, n)
    decreases |s|, 0
  {
    if s != "" {
      if Starts(h.end, s) {
        GappedInEndKeeps(h, s[|h.end|..], length + |h.end|, n);
      } else {
        GappedInDataKeeps(h, s[1..], length + 1, n);
      }
    }
  }

  lemma {:induction false} GappedInEndKeeps(h: Markers, s: string, length: nat, n: nat)
    requires GappedInEnd(h, s) && length + |s| <= n
    ensures !LostInEnd(h, s, length, n)
    decreases |s|, 0
  {
    if s != "" {
      if Starts(h.dashes, s) {
        GappedOutsideKeeps(h, s[|h.dashes|..], length + |h.dashes| + 1, n);
      } else {
        GappedInEndKeeps(h, s[1..], length + 1, n);
      }
    }
  }

  /** With at least one byte between consecutive blocks nothing is lost. */
  lemma {:induction false} GapsPreventLoss(h: Markers, s: string)
    requires GappedOutside(h, s)
    ensures !Loses(h, s)
  {
    GappedOutsideKeeps(h, s, 0, |s|);
    var _ := LossIsInBlocks(h, s, 0, |s|);
  }

  lemma {:induction false} CleanOutsideIsGapped(h: Markers, s: string)
    ensures GappedOutside(h, Outside(h, s))
    decreases |s|, 1
  {
    if s != "" {
      if Starts(h.begin, s) {
        SamePrefixAfterData(h, s, h.begin);
        CleanInDataIsGapped(h, s);
      } else {
        CleanOutsideIsGapped(h, s[1..]);
      }
    }
  }

  lemma {:induction false} CleanInDataIsGapped(h: Markers, s: string)
    ensures GappedInData(h, InData(h, s))
    decreases |s|, 0
  {
    if s != "" {
      var t := InData(h, s);
      SamePrefixAfterData(h, s, h.end);
      if Starts(h.end, s) {
        assert t[|h.end|..] == InEnd(h, s[|h.end|..]);
        CleanInEndIsGapped(h, s[|h.end|..]);
      } else {
        assert t[1..] == InData(h, s[1..]);
        CleanInDataIsGapped(h, s[1..]);
      }
    }
  }

  lemma {:induction false} CleanInEndIsGapped(h: Markers, s: string)
    ensures GappedInEnd(h, InEnd(h, s))
    decreases |s|, 0
  {
    if s != "" {
      var t := InEnd(h, s);
      SamePrefixAfterEnd(h, s, h.dashes);
      if Starts(h.dashes, s) {
        var after := Outside(h, s[|h.dashes|..]);
        assert t[|h.dashes|..] == "\n" + after;
        assert ("\n" + after)[0] == '\n' && ("\n" + after)[1..] == after;
        CleanOutsideIsGapped(h, s[|h.dashes|..]);
      } else {
        assert t[1..] == InEnd(h, s[1..]);
        CleanInEndIsGapped(h, s[1..]);
      }
    }
  }

  /** Cleaning is idempotent: a cleaned text consists of blocks only, and cleaning it again neither changes nor loses
      anything. */
  lemma {:induction false} CleanedTextIsStable(h: Markers, s: string)
    ensures Blocks(h, Blocks(h, s)) == Blocks(h, s) && !Loses(h, Blocks(h, s))
  {
    CleaningKeepsBlocks(h, s);
    CleaningKeepsBlocks(h, Blocks(h, s));
    OutsideTwice(h, s);
    CleanOutsideIsGapped(h, s);
    GapsPreventLoss(h, Blocks(h, s));
  }

  // ----- Texts that do -----

  lemma {:induction false} SpansAtStart(h: Markers, s: string, e: nat)
    requires Starts(h.begin, s) && s != "" && e == Find(h.end, s) < |s|
    ensures Spans(h, s) == SpansFromEnd(h, 0, s[e + |h.end|..])
  {
    FindNext(h.begin, s);
    assert s[0..] == s;
    SpansOf(h, s, 0, e);
  }

  /** A complete block at the start of a text is its first span. */
  lemma {:induction false} FirstSpan(h: Markers, s: string, k: nat) returns (x: Span, rest: seq<Span>)
    requires Starts(h.begin, s) && s != "" && BlockEnd(h, s) == Some(k)
    ensures Spans(h, s) == [x] + rest && rest == Spans(h, s[k..]) && x.gap == 0 && x.atDashes == |s| - k + |h.dashes|
  {
    var e, d := BlockParts(h, s, k);
    var tail := s[e + |h.end|..];
    SpansAtStart(h, s, e);
    SpansOfTail(h, 0, tail, d);
    assert tail[d + |h.dashes|..] == s[k..];
    x, rest := Span(0, |h.end| + |tail|, |tail| - d), Spans(h, s[k..]);
  }

  /** Two complete blocks with nothing between them and nothing after: the dashes that close the second are lost. */
  lemma {:induction false} AdjacentBlocksLoseDashes(h: Markers, s: string, k: nat)
    requires Starts(h.begin, s) && BlockEnd(h, s) == Some(k)
    requires Starts(h.begin, s[k..]) && BlockEnd(h, s[k..]) == Some(|s| - k)
    ensures Loses(h, s)
  {
    var x, rest := FirstSpan(h, s, k);
    var y, more := FirstSpan(h, s[k..], |s| - k);
    SecondIsCut(h, x, y, more);
  }

  lemma {:induction false} SecondIsCut(h: Markers, x: Span, y: Span, rest: seq<Span>)
    requires x.gap == 0 && y.gap == 0 && y.atDashes == |h.dashes|
    ensures CutSomewhere(h, [x] + ([y] + rest), 0)
  {
    CutInFirstOrRest(h, x, [y] + rest, 0);
    CutInFirstOrRest(h, y, rest, 1);
  }
}

/** Marker lines that the editor did not write: exactly when an edit of any profile reads back,
    and what happens to a second block. */
module Markers {
  import opened Text
  import opened Sections
  import opened Blocks
  import opened Profile
  import opened Edits

  /** Where a begin marker without an end is left in the section after the cut, or its length. */
  function Unclosed(body: seq<string>): nat {
    FirstBegin(Strip(body), 0, |Strip(body)|)
  }

  /** No begin marker is left open above a line with content. */
  predicate NothingOpen(body: seq<string>) {
    var c := Strip(body);
    Unclosed(body) == |c| || Content(c[Unclosed(body) + 1..]) == []
  }

  lemma ClosedShrinks(c: seq<string>, b: nat)
    requires b == FirstBegin(c, 0, |c|) < |c| && FirstEnd(c, b + 1, |c|) < |c|
    ensures |Strip(c)| < |c|
  {
    hide IsBegin, IsEnd, StripFrom, FirstEnd;
    var e := FirstEnd(c, b + 1, |c|);
    StripSkip(c, 0, b, |c|);
    hide FirstBegin;
    StripStep(c, b, |c|);
    StripSubset(c, e + 1, |c|);
  }

  /** What the cut leaves has no closed block. */
  lemma CutIsOpen(c: seq<string>, b: nat)
    requires Strip(c) == c && b == FirstBegin(c, 0, |c|) < |c|
    ensures FirstEnd(c, b + 1, |c|) == |c|
  {
    hide Strip, FirstBegin, FirstEnd;
    if FirstEnd(c, b + 1, |c|) < |c| {
      ClosedShrinks(c, b);
    }
  }

  lemma {:induction false} ContentBlank(lines: seq<string>)
    requires AllBlank(lines)
    ensures Content(lines) == []
  {
    hide Blank;
    if lines != [] {
      BlankNoContent(lines[0]);
      ContentBlank(lines[1..]);
    }
  }

  lemma BlankNoContent(line: string)
    ensures Blank(line) ==> !IsContent(line)
  {
  }

  lemma OpenMarkers(x: seq<string>, b: nat, block: seq<string>, e: string, tail: seq<string>)
    requires b == FirstBegin(x, 0, |x|) < |x| && FirstEnd(x, b + 1, |x|) == |x|
    requires IsEnd(e) && forall i | 0 <= i < |block| :: !IsEnd(block[i])
    ensures var body := x + (block + [e]) + tail;
      FirstBegin(body, 0, |body|) == b && FirstEnd(body, b + 1, |body|) == |x| + |block|
  {
    hide IsBegin, IsEnd;
    var body, k := x + (block + [e]) + tail, |x| + |block|;
    assert forall j | 0 <= j < |x| :: body[j] == x[j];
    assert forall j | |x| <= j < k :: body[j] == block[j - |x|] && !IsEnd(body[j]);
    assert body[k] == e;
    FirstBeginIs(body, 0, |body|, b);
    FirstEndIs(body, b + 1, |body|, k);
  }

  lemma RenderedIsNoEnd(managed: seq<string>)
    requires AllOrdinary(managed)
    ensures var block := ["", MARKER_BEGIN] + managed; forall i | 0 <= i < |block| :: !IsEnd(block[i])
    ensures IsEnd(MARKER_END)
  {
    MarkerFacts();
    OrdinaryIsNoEnd(managed);
    hide IsEnd, IsBegin, IsHeader;
  }

  lemma CutMiddle(x: seq<string>, b: nat, block: seq<string>, e: string, tail: seq<string>)
    requires b < |x|
    ensures (x + (block + [e]) + tail)[b + 1..|x| + |block|] == x[b + 1..] + block
  {
  }

  /** The block that the next reader finds below an open begin marker: everything from there to
      the end marker that was just rendered. */
  lemma OpenMarkerBlock(x: seq<string>, b: nat, managed: seq<string>, tail: seq<string>)
    requires b == FirstBegin(x, 0, |x|) < |x| && FirstEnd(x, b + 1, |x|) == |x| && AllOrdinary(managed)
    ensures var body := x + (["", MARKER_BEGIN] + managed + [MARKER_END]) + tail;
      BlockOf(body) == Some(Content(x[b + 1..]) + managed)
  {
    hide FirstBegin, FirstEnd, AllOrdinary, Content, IsEnd;
    var block := ["", MARKER_BEGIN] + managed;
    RenderedIsNoEnd(managed);
    OpenMarkers(x, b, block, MARKER_END, tail);
    CutMiddle(x, b, block, MARKER_END, tail);
    ContentAppend(x[b + 1..], block);
    BlockContent(managed);
  }

  lemma OrdinaryIsNoEnd(managed: seq<string>)
    requires AllOrdinary(managed)
    ensures forall i | 0 <= i < |managed| :: !IsEnd(managed[i])
  {
    forall i | 0 <= i < |managed| ensures !IsEnd(managed[i]) {
      assert Ordinary(managed[i]);
    }
  }

  lemma BlockContent(managed: seq<string>)
    requires AllOrdinary(managed)
    ensures Content(["", MARKER_BEGIN] + managed) == managed
  {
    ContentAppend(["", MARKER_BEGIN], managed);
    forall i | 0 <= i < |managed| ensures IsContent(managed[i]) {
      assert Ordinary(managed[i]);
    }
    ContentAll(managed);
    MarkerFacts();
    assert Content(["", MARKER_BEGIN]) == [] by {
      assert ["", MARKER_BEGIN][1..] == [MARKER_BEGIN] && [MARKER_BEGIN][1..] == [];
    }
  }

  /** One more line behind the block does not matter. */
  lemma BlockSnoc(body: seq<string>, line: string)
    requires BlockOf(body).Some?
    ensures BlockOf(body + [line]) == BlockOf(body)
  {
    hide IsBegin, IsEnd, Content;
    var n, longer := |body|, body + [line];
    var b := FirstBegin(body, 0, n);
    var e := FirstEnd(body, b + 1, n);
    FirstBeginIs(longer, 0, n + 1, b);
    FirstEndIs(longer, b + 1, n + 1, e);
    assert longer[b + 1..e] == body[b + 1..e];
  }

  /** The lines that an open marker adds to the block. */
  function Swallowed(body: seq<string>): seq<string> {
    var c := Strip(body);
    if Unclosed(body) == |c| then [] else Content(c[Unclosed(body) + 1..])
  }

  /** The section as written, for any section: below an open marker the next reader takes
      unmanaged lines for managed ones. */
  lemma WrittenBlock(p: Parts, managed: seq<string>)
    requires AllOrdinary(managed) && managed != []
    ensures BlockOf(BodyWith(Cleaned(p), managed)) == Some(Swallowed(p.body) + managed)
  {
    var c, b := Strip(p.body), Unclosed(p.body);
    if b == |c| {
      BlockInserted(Cleaned(p), managed);
      assert [] + managed == managed;
    } else {
      StripTwice(p.body, 0, |p.body|);
      CutIsOpen(c, b);
      OpenBlock(Cleaned(p), b, managed);
    }
  }

  lemma OpenBlock(p: Parts, b: nat, managed: seq<string>)
    requires AllOrdinary(managed) && managed != []
    requires b == FirstBegin(p.body, 0, |p.body|) < |p.body| && FirstEnd(p.body, b + 1, |p.body|) == |p.body|
    ensures BlockOf(BodyWith(p, managed)) == Some(Content(p.body[b + 1..]) + managed)
  {
    var c, k := p.body, BlankFrom(p.body);
    OpenAbove(c, b, k);
    var pad := if k == |c| && p.post != [] then [""] else [];
    hide AllOrdinary, FirstBegin, FirstEnd, BlockOf, Content;
    OpenMarkerBlock(c[..k], b, managed, pad + c[k..]);
    BodyIs(c[..k], managed, pad, c[k..]);
  }

  lemma BodyIs(x: seq<string>, managed: seq<string>, pad: seq<string>, y: seq<string>)
    ensures x + (["", MARKER_BEGIN] + managed + [MARKER_END]) + (pad + y)
         == x + (["", MARKER_BEGIN] + managed + [MARKER_END] + pad) + y
  {
  }

  /** The open marker stands above the place where the block goes in. */
  lemma OpenAbove(c: seq<string>, b: nat, k: nat)
    requires b == FirstBegin(c, 0, |c|) < |c| && FirstEnd(c, b + 1, |c|) == |c| && k == BlankFrom(c)
    ensures b < k && b == FirstBegin(c[..k], 0, k) && FirstEnd(c[..k], b + 1, k) == k
    ensures Content(c[..k][b + 1..]) == Content(c[b + 1..])
  {
    MarkerAboveBlank(c, b, k);
    PrefixMarkers(c, b, k);
    OpenContent(c, b + 1, k);
  }

  lemma MarkerAboveBlank(c: seq<string>, b: nat, k: nat)
    requires b < |c| && k <= |c| && IsBegin(c[b]) && AllBlank(c[k..])
    ensures b < k
  {
    MarkerNotBlank(c[b]);
    hide IsBegin, Blank;
    forall j | k <= j < |c| ensures Blank(c[j]) {
      assert c[k..][j - k] == c[j];
    }
  }

  lemma PrefixMarkers(c: seq<string>, b: nat, k: nat)
    requires b < k <= |c| && b == FirstBegin(c, 0, |c|) && FirstEnd(c, b + 1, |c|) == |c|
    ensures FirstBegin(c[..k], 0, k) == b && FirstEnd(c[..k], b + 1, k) == k
  {
    hide IsBegin, IsEnd;
    FirstBeginIs(c[..k], 0, k, b);
    FirstEndIs(c[..k], b + 1, k, k);
  }

  lemma OpenContent(c: seq<string>, i: nat, k: nat)
    requires i <= k <= |c| && AllBlank(c[k..])
    ensures Content(c[..k][i..]) == Content(c[i..])
  {
    hide Content, AllBlank;
    SliceSplit(c, i, k);
    ContentAppend(c[..k][i..], c[k..]);
    ContentBlank(c[k..]);
    assert Content(c[..k][i..]) + [] == Content(c[..k][i..]);
  }

  lemma SliceSplit(c: seq<string>, i: nat, k: nat)
    requires i <= k <= |c|
    ensures c[i..] == c[..k][i..] + c[k..]
  {
  }

  lemma MarkerNotBlank(line: string)
    requires IsBegin(line)
    ensures !Blank(line)
  {
  }

  /** After an edit of any profile the next reader finds the rendered lines in the block,
      behind what an open begin marker swallowed. */
  lemma EditReads(text: string, managed: seq<string>)
    requires AllOrdinary(managed) && managed != []
    ensures var p := OpenOrInsert(LinesOf(text));
      var q := Open(LinesOf(Edited(p, managed)));
      q.Some? && BlockOf(q.value.body) == Some(Swallowed(p.body) + managed)
  {
    var p := OpenOrInsert(LinesOf(text));
    OpenOneLiners(text);
    CleanedValid(p);
    hide OpenOrInsert, ValidParts, OneLiners, AllOrdinary, Strip, BlockOf, Content, Swallowed, WithBlock;
    WithBlockValid(Cleaned(p), managed);
    WithBlockOneLine(p, managed);
    WrittenBlock(p, managed);
    RereadWhole(WithBlock(Cleaned(p), managed));
  }

  /** So an edit reads back, line for line, exactly when no begin marker was left open above a
      line with content. */
  lemma ReadsBackExactly(text: string, managed: seq<string>)
    requires AllOrdinary(managed) && managed != []
    ensures var p := OpenOrInsert(LinesOf(text));
      var q := Open(LinesOf(Edited(p, managed)));
      q.Some? && (BlockOf(q.value.body) == Some(managed) <==> NothingOpen(p.body))
  {
    EditReads(text, managed);
    hide OpenOrInsert, AllOrdinary, Strip, BlockOf, Content, Edited, Open;
    var x := Swallowed(OpenOrInsert(LinesOf(text)).body);
    assert |x + managed| == |x| + |managed|;
    assert x == [] ==> x + managed == managed;
  }

  lemma RereadWhole(w: Parts)
    requires ValidParts(w) && OneLiners(Flatten(w)) && BlockOf(w.body).Some?
    ensures var q := Open(LinesOf(Rendered(Flatten(w))));
      q.Some? && BlockOf(q.value.body) == BlockOf(w.body)
  {
    hide ValidParts, OneLiners, BlockOf;
    LinesOfRendered(Flatten(w));
    RereadPartsFlatten(w);
    BoundsOfParts(RereadParts(w));
    BlockSnoc(w.body, "");
  }

  // ---------- more than one block ----------

  /** The content of all closed blocks that the cut jumps over. */
  function CutContent(lines: seq<string>, i: nat, end: nat): seq<string>
    requires i <= end <= |lines|
    decreases end - i
  {
    if i == end then []
    else if IsBegin(lines[i]) && FirstEnd(lines, i + 1, end) < end then
      var e := FirstEnd(lines, i + 1, end);
      Content(lines[i + 1..e]) + CutContent(lines, e + 1, end)
    else CutContent(lines, i + 1, end)
  }

  /** All managed lines of a section, whatever block they stand in. */
  function AllManaged(body: seq<string>): seq<string> {
    CutContent(body, 0, |body|)
  }

  /** The line of the end marker of the first block, or the length of the section. */
  function FirstClosed(body: seq<string>): (e: nat)
    ensures e <= |body|
  {
    var b := FirstBegin(body, 0, |body|);
    if b == |body| then b else FirstEnd(body, b + 1, |body|)
  }

  /** No closed block with content stands below the first one. */
  predicate OneBlockCounts(body: seq<string>) {
    var e := FirstClosed(body);
    e == |body| || CutContent(body, e + 1, |body|) == []
  }

  lemma {:induction false} CutSkip(lines: seq<string>, i: nat, j: nat, end: nat)
    requires i <= j <= end <= |lines| && forall q | i <= q < j :: !IsBegin(lines[q])
    ensures CutContent(lines, i, end) == CutContent(lines, j, end)
    decreases j - i
  {
    hide IsBegin, FirstEnd, Content;
    if i < j {
      CutSkip(lines, i + 1, j, end);
    }
  }

  /** Without an end marker nothing is cut. */
  lemma {:induction false} CutUnclosed(lines: seq<string>, i: nat, end: nat)
    requires i <= end <= |lines| && FirstEnd(lines, i, end) == end
    ensures CutContent(lines, i, end) == []
    decreases end - i
  {
    hide IsBegin, IsEnd, Content;
    if i < end {
      FirstEndIs(lines, i + 1, end, end);
      CutUnclosed(lines, i + 1, end);
    }
  }

  lemma CutStep(lines: seq<string>, i: nat, e: nat, end: nat)
    requires i < e < end <= |lines| && IsBegin(lines[i]) && e == FirstEnd(lines, i + 1, end)
    ensures CutContent(lines, i, end) == Content(lines[i + 1..e]) + CutContent(lines, e + 1, end)
  {
    hide IsBegin, IsEnd, FirstEnd, Content;
  }

  /** The content of the blocks below the first one. */
  function LaterContent(body: seq<string>): seq<string> {
    if FirstClosed(body) == |body| then [] else CutContent(body, FirstClosed(body) + 1, |body|)
  }

  lemma CutNone(body: seq<string>)
    ensures CutContent(body, |body|, |body|) == []
  {
  }

  lemma UnclosedFromFirst(body: seq<string>, b: nat)
    requires b < |body| && FirstEnd(body, b + 1, |body|) == |body|
    ensures CutContent(body, b, |body|) == []
  {
    CutUnclosed(body, b + 1, |body|);
    hide IsBegin, FirstEnd, Content;
  }

  /** The lines of the first block, up to its end marker at `e`. */
  function FirstContent(body: seq<string>): seq<string> {
    var b, e := FirstBegin(body, 0, |body|), FirstClosed(body);
    if e == |body| then [] else Content(body[b + 1..e])
  }

  lemma FirstContentRead(p: Parts)
    ensures Kept(p, false) == FirstContent(p.body)
  {
    hide IsBegin, IsEnd, Content;
  }

  lemma FirstParts(body: seq<string>, b: nat, e: nat)
    requires b == FirstBegin(body, 0, |body|) && e == FirstClosed(body) < |body|
    ensures b < e && IsBegin(body[b]) && e == FirstEnd(body, b + 1, |body|)
    ensures FirstContent(body) == Content(body[b + 1..e]) && LaterContent(body) == CutContent(body, e + 1, |body|)
  {
    hide IsBegin, IsEnd, Content, CutContent;
  }

  lemma FirstCutClosed(body: seq<string>)
    requires FirstClosed(body) < |body|
    ensures CutContent(body, FirstBegin(body, 0, |body|), |body|) == FirstContent(body) + LaterContent(body)
  {
    hide *;
    var b, e := FirstBegin(body, 0, |body|), FirstClosed(body);
    FirstParts(body, b, e);
    CutStep(body, b, e, |body|);
  }

  lemma FirstCutOpen(body: seq<string>)
    requires FirstClosed(body) == |body|
    ensures CutContent(body, FirstBegin(body, 0, |body|), |body|) == []
  {
    hide IsBegin, IsEnd, Content, FirstEnd, FirstBegin, CutContent;
    var b := FirstBegin(body, 0, |body|);
    if b == |body| {
      CutNone(body);
    } else {
      UnclosedFromFirst(body, b);
    }
  }

  /** From the first begin marker on, the cut takes the first block and the later ones. */
  lemma FirstCut(body: seq<string>)
    ensures CutContent(body, FirstBegin(body, 0, |body|), |body|) == FirstContent(body) + LaterContent(body)
  {
    hide FirstBegin, CutContent, FirstClosed;
    if FirstClosed(body) < |body| {
      FirstCutClosed(body);
    } else {
      FirstCutOpen(body);
    }
  }

  /** All managed lines are those that Add keeps and those of the blocks below. */
  lemma FirstAndRest(p: Parts)
    ensures AllManaged(p.body) == Kept(p, false) + LaterContent(p.body)
  {
    hide IsBegin, FirstContent, LaterContent, CutContent, Kept;
    CutSkip(p.body, 0, FirstBegin(p.body, 0, |p.body|), |p.body|);
    FirstCut(p.body);
    FirstContentRead(p);
  }

  /** The lines that an edit goes on from are all managed lines exactly when no closed block with
      content stands below the first one; the lines of such blocks are cut and not written again. */
  lemma KeepsAllExactly(p: Parts)
    ensures Kept(p, false) == AllManaged(p.body) <==> OneBlockCounts(p.body)
  {
    FirstAndRest(p);
    assert LaterContent(p.body) == [] <==> OneBlockCounts(p.body);
    hide Kept, AllManaged, LaterContent, OneBlockCounts;
    var first, rest := Kept(p, false), LaterContent(p.body);
    assert |first + rest| == |first| + |rest|;
    assert rest == [] ==> first + rest == first;
  }

  /** Of two closed blocks the reader sees the first only, but the cut removes both: every edit
      drops the managed lines of the second. */
  lemma SecondBlockIsLost(a: seq<string>, m1: seq<string>, z1: seq<string>, m2: seq<string>, z2: seq<string>)
    requires NoBegin(a) && NoBegin(m1) && NoEnd(m1) && NoBegin(z1) && NoEnd(z1) && NoBegin(m2) && NoEnd(m2)
    requires NoBegin(z2)
    ensures var body := a + [MARKER_BEGIN] + m1 + [MARKER_END] + (z1 + [MARKER_BEGIN] + m2 + [MARKER_END] + z2);
      BlockOf(body) == Some(Content(m1)) && Strip(body) == a + z1 + z2
  {
    MarkerFacts();
    var second := z1 + [MARKER_BEGIN] + m2 + [MARKER_END] + z2;
    var body := a + [MARKER_BEGIN] + m1 + [MARKER_END] + second;
    hide IsBegin, IsEnd, Content, IsHeader;
    ShapeFacts(second, z1, MARKER_BEGIN, m2, MARKER_END, z2);
    hide Strip, BlockOf;
    FirstBlockRead(body, a, MARKER_BEGIN, m1, MARKER_END, second);
    FirstBlockCut(body, a, MARKER_BEGIN, m1, MARKER_END, second);
    assert a + (z1 + z2) == a + z1 + z2;
  }

  lemma FirstBlockRead(body: seq<string>, a: seq<string>, b: string, m: seq<string>, e: string, rest: seq<string>)
    requires body == a + [b] + m + [e] + rest && NoBegin(a) && NoEnd(m) && IsBegin(b) && IsEnd(e)
    ensures BlockOf(body) == Some(Content(m))
  {
    ShapeAt(body, a, b, m, e, rest);
    FirstMarkers(body, a, b, m, e, rest);
    hide IsBegin, IsEnd, Content, FirstBegin, FirstEnd, NoEnd, NoBegin;
  }

  lemma FirstBlockCut(body: seq<string>, a: seq<string>, b: string, m: seq<string>, e: string, rest: seq<string>)
    requires body == a + [b] + m + [e] + rest && NoBegin(a) && NoEnd(m) && IsBegin(b) && IsEnd(e)
    ensures Strip(body) == a + Strip(rest)
  {
    ShapeAt(body, a, b, m, e, rest);
    FirstMarkers(body, a, b, m, e, rest);
    hide IsBegin, IsEnd, FirstEnd, NoEnd, NoBegin, Strip;
    CutAt(body, |a|, |a| + 1 + |m|);
  }

  lemma CutAt(body: seq<string>, i: nat, k: nat)
    requires i < k < |body| && i == FirstBegin(body, 0, |body|) && k == FirstEnd(body, i + 1, |body|)
    ensures Strip(body) == body[..i] + Strip(body[k + 1..])
  {
    hide IsBegin, IsEnd, StripFrom;
    StripSkip(body, 0, i, |body|);
    StripStep(body, i, |body|);
    StripOfSlice(body, k + 1, |body|);
    assert body[k + 1..|body|] == body[k + 1..] && body[0..i] == body[..i];
  }

  lemma FirstMarkers(body: seq<string>, a: seq<string>, b: string, m: seq<string>, e: string, rest: seq<string>)
    requires body == a + [b] + m + [e] + rest && NoBegin(a) && NoEnd(m) && IsBegin(b) && IsEnd(e)
    ensures FirstBegin(body, 0, |body|) == |a| && FirstEnd(body, |a| + 1, |body|) == |a| + 1 + |m|
  {
    hide IsBegin, IsEnd;
    ShapeAt(body, a, b, m, e, rest);
    FirstBeginIs(body, 0, |body|, |a|);
    FirstEndIs(body, |a| + 1, |body|, |a| + 1 + |m|);
  }
}

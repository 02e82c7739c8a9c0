/** Cut and splice on whole profiles: what an edit of the managed block keeps and what the
    next reader finds. */
module Profile {
  import opened Text
  import opened Sections
  import opened Blocks
  import opened Names
  import opened PortScan

  /** strings.Split(text, "\n") */
  function LinesOf(text: string): seq<string> {
    Split(text, '\n')
  }

  // ---------- the shape of a section ----------

  predicate NoBegin(lines: seq<string>) {
    forall i | 0 <= i < |lines| :: !IsBegin(lines[i])
  }

  predicate NoEnd(lines: seq<string>) {
    forall i | 0 <= i < |lines| :: !IsEnd(lines[i])
  }

  /** The lines of the section fall into the text around one closed block, and the block. */
  predicate Shape(body: seq<string>, a: seq<string>, b: string, m: seq<string>, e: string, z: seq<string>) {
    && body == a + [b] + m + [e] + z
    && IsBegin(b) && IsEnd(e) && NoBegin(a) && NoBegin(m) && NoEnd(m) && NoBegin(z)
  }

  /** At most one closed block and no unclosed begin marker. */
  predicate OneBlock(body: seq<string>) {
    var n := |body|;
    var b := FirstBegin(body, 0, n);
    b == n || (FirstEnd(body, b + 1, n) < n && FirstBegin(body, b + 1, n) == n)
  }

  lemma ShapeAt(body: seq<string>, a: seq<string>, b: string, m: seq<string>, e: string, z: seq<string>)
    requires body == a + [b] + m + [e] + z
    ensures var i, k := |a|, |a| + 1 + |m|;
      && k < |body| && body[..i] == a && body[i] == b && body[i + 1..k] == m && body[k] == e && body[k + 1..] == z
      && (forall j | 0 <= j < i :: body[j] == a[j])
      && (forall j | i < j < k :: body[j] == m[j - i - 1])
      && (forall j | k < j < |body| :: body[j] == z[j - k - 1])
  {
  }

  lemma {:induction false} FirstEndIs(lines: seq<string>, i: nat, end: nat, k: nat)
    requires i <= k <= end <= |lines| && (k < end ==> IsEnd(lines[k])) && forall j | i <= j < k :: !IsEnd(lines[j])
    ensures FirstEnd(lines, i, end) == k
  {
    hide IsEnd;
  }

  lemma {:induction false} FirstBeginIs(lines: seq<string>, i: nat, end: nat, k: nat)
    requires i <= k <= end <= |lines| && (k < end ==> IsBegin(lines[k])) && forall j | i <= j < k :: !IsBegin(lines[j])
    ensures FirstBegin(lines, i, end) == k
  {
    hide IsBegin;
  }

  lemma {:induction false} StripSkip(lines: seq<string>, i: nat, j: nat, end: nat)
    requires i <= j <= end <= |lines| && forall q | i <= q < j :: !IsBegin(lines[q])
    ensures StripFrom(lines, i, end) == lines[i..j] + StripFrom(lines, j, end)
    decreases j - i
  {
    hide IsBegin, IsEnd;
    if i < j {
      StripSkip(lines, i + 1, j, end);
    }
  }

  /** Everything the readers and writers see of a section of that shape. */
  lemma ShapeFacts(body: seq<string>, a: seq<string>, b: string, m: seq<string>, e: string, z: seq<string>)
    requires Shape(body, a, b, m, e, z)
    ensures OneBlock(body) && BlockOf(body) == Some(Content(m)) && Strip(body) == a + z
  {
    hide IsBegin, IsEnd, Content;
    var n, i, k := |body|, |a|, |a| + 1 + |m|;
    ShapeAt(body, a, b, m, e, z);
    FirstBeginIs(body, 0, n, i);
    FirstEndIs(body, i + 1, n, k);
    NoSecondBegin(body, a, b, m, e, z);
    StripSkip(body, 0, i, n);
    assert StripFrom(body, i, n) == StripFrom(body, k + 1, n);
    StripUnmarked(body, k + 1, n);
  }

  lemma NoSecondBegin(body: seq<string>, a: seq<string>, b: string, m: seq<string>, e: string, z: seq<string>)
    requires Shape(body, a, b, m, e, z)
    ensures FirstBegin(body, |a| + 1, |body|) == |body|
  {
    MarkerFacts();
    assert !IsBegin(e);
    hide IsBegin, IsEnd;
    ShapeAt(body, a, b, m, e, z);
    FirstBeginIs(body, |a| + 1, |body|, |body|);
  }

  lemma UnmarkedFacts(body: seq<string>)
    requires NoBegin(body)
    ensures OneBlock(body) && BlockOf(body) == None && Strip(body) == body
  {
    FirstBeginIs(body, 0, |body|, |body|);
    StripUnmarked(body, 0, |body|);
  }

  /** A section with at most one block is unmarked or has that shape; cutting the block out
      leaves no begin marker. */
  lemma OneBlockShape(body: seq<string>)
    returns (a: seq<string>, b: string, m: seq<string>, e: string, z: seq<string>)
    requires OneBlock(body) && !NoBegin(body)
    ensures Shape(body, a, b, m, e, z)
  {
    hide IsBegin, IsEnd;
    var n := |body|;
    var i := FirstBegin(body, 0, n);
    var k := FirstEnd(body, i + 1, n);
    a, b, m, e, z := body[..i], body[i], body[i + 1..k], body[k], body[k + 1..];
  }

  lemma StrippedUnmarked(body: seq<string>)
    requires OneBlock(body)
    ensures NoBegin(Strip(body)) && (BlockOf(body).None? <==> NoBegin(body))
  {
    if NoBegin(body) {
      UnmarkedFacts(body);
    } else {
      var a, b, m, e, z := OneBlockShape(body);
      ShapeFacts(body, a, b, m, e, z);
      hide IsBegin, IsEnd;
    }
  }

  // ---------- lines that are not blank ----------

  function Solid(lines: seq<string>): seq<string> {
    if lines == [] then [] else (if Blank(lines[0]) then [] else [lines[0]]) + Solid(lines[1..])
  }

  lemma {:induction false} SolidAppend(a: seq<string>, b: seq<string>)
    ensures Solid(a + b) == Solid(a) + Solid(b)
  {
    hide Blank;
    if a == [] {
      assert a + b == b;
    } else {
      assert (a + b)[1..] == a[1..] + b;
      SolidAppend(a[1..], b);
    }
  }

  lemma {:induction false} SolidBlank(lines: seq<string>)
    requires AllBlank(lines)
    ensures Solid(lines) == []
  {
    hide Blank;
    if lines != [] {
      SolidBlank(lines[1..]);
    }
  }

  /** Blank lines carry no names and no ports. */
  lemma {:induction false} NamesOfSolid(lines: seq<string>)
    ensures NamesOf(Solid(lines)) == NamesOf(lines) && PortsOf(Solid(lines)) == PortsOf(lines)
  {
    hide Blank, LineName, LinePorts;
    if lines != [] {
      NamesOfSolid(lines[1..]);
      BlankLine(lines[0]);
      ReadCons(lines[0], Solid(lines[1..]));
      ReadCons(lines[0], lines[1..]);
      assert lines == [lines[0]] + lines[1..];
      var rest := Solid(lines[1..]);
      if Blank(lines[0]) {
        assert [] + rest == rest && [] + NamesOf(rest) == NamesOf(rest);
        assert Solid(lines) == rest;
      } else {
        assert Solid(lines) == [lines[0]] + rest;
      }
    }
  }

  lemma ReadCons(line: string, rest: seq<string>)
    ensures NamesOf([line] + rest) == (if LineName(line) == [] then [] else [LineName(line)]) + NamesOf(rest)
    ensures PortsOf([line] + rest) == LinePorts(line) + PortsOf(rest)
  {
    hide LineName, LinePorts;
    assert ([line] + rest)[1..] == rest;
  }

  lemma BlankLine(line: string)
    ensures Blank(line) ==> LineName(line) == [] && LinePorts(line) == {}
  {
  }

  // ---------- inserting the block ----------

  /** A line that may stand in the block. */
  predicate Ordinary(line: string) {
    IsContent(line) && !IsHeader(line) && '\n' !in line
  }

  predicate AllOrdinary(lines: seq<string>) {
    forall i | 0 <= i < |lines| :: Ordinary(lines[i])
  }

  /** The section of WithBlock. */
  function BodyWith(p: Parts, managed: seq<string>): seq<string> {
    WithBlock(p, managed).body
  }

  lemma BodySplits(p: Parts, managed: seq<string>)
    ensures var k := BlankFrom(p.body);
      && p.body[..k] + p.body[k..] == p.body
      && BodyWith(p, managed) == p.body[..k] + BlockLines(managed, k == |p.body| && p.post != []) + p.body[k..]
  {
    hide BlockLines;
  }

  lemma NoBeginCut(body: seq<string>, k: nat)
    requires NoBegin(body) && k <= |body|
    ensures NoBegin(body[..k]) && NoBegin(body[k..])
  {
    hide IsBegin;
  }

  /** The section after the block went in: unmanaged lines as before up to blank lines, and
      exactly the lines that were rendered inside the block. */
  lemma BlockInserted(p: Parts, managed: seq<string>)
    requires NoBegin(p.body) && AllOrdinary(managed)
    ensures var body := BodyWith(p, managed);
      && OneBlock(body) && BlockOf(body) == (if managed == [] then None else Some(managed))
      && Solid(Strip(body)) == Solid(p.body)
  {
    hide *;
    var k := BlankFrom(p.body);
    BodySplits(p, managed);
    if managed == [] {
      NoBlockLines(k == |p.body| && p.post != []);
      assert p.body[..k] + [] + p.body[k..] == p.body;
      UnmarkedFacts(p.body);
    } else {
      NoBeginCut(p.body, k);
      SomeBlockLines(managed, k == |p.body| && p.post != []);
      SplicedBlock(p.body[..k], managed, if k == |p.body| && p.post != [] then [""] else [], p.body[k..]);
    }
  }

  lemma NoBlockLines(pad: bool)
    ensures BlockLines([], pad) == []
  {
  }

  lemma SomeBlockLines(managed: seq<string>, pad: bool)
    requires managed != []
    ensures BlockLines(managed, pad) == ["", MARKER_BEGIN] + managed + [MARKER_END] + if pad then [""] else []
  {
  }

  /** The block between two unmarked stretches of a section. */
  lemma SplicedBlock(x: seq<string>, managed: seq<string>, pad: seq<string>, y: seq<string>)
    requires NoBegin(x) && NoBegin(y) && AllOrdinary(managed) && managed != [] && (pad == [] || pad == [""])
    ensures var body := x + (["", MARKER_BEGIN] + managed + [MARKER_END] + pad) + y;
      && OneBlock(body) && BlockOf(body) == Some(managed)
      && Solid(Strip(body)) == Solid(x + y)
  {
    var body := x + (["", MARKER_BEGIN] + managed + [MARKER_END] + pad) + y;
    var a, z := x + [""], pad + y;
    assert body == a + [MARKER_BEGIN] + managed + [MARKER_END] + z;
    SplicedShape(x, managed, pad, y);
    ShapeFacts(body, a, MARKER_BEGIN, managed, MARKER_END, z);
    ContentAll(managed);
    SolidAppend(a, z);
    SolidPadded(x, pad, y);
  }

  lemma SplicedShape(x: seq<string>, managed: seq<string>, pad: seq<string>, y: seq<string>)
    requires NoBegin(x) && NoBegin(y) && AllOrdinary(managed) && (pad == [] || pad == [""])
    ensures var a, z := x + [""], pad + y;
      Shape(a + [MARKER_BEGIN] + managed + [MARKER_END] + z, a, MARKER_BEGIN, managed, MARKER_END, z)
  {
    MarkerFacts();
    hide IsBegin, IsEnd, Blank, IsHeader;
  }

  lemma SolidPad(pad: seq<string>)
    requires pad == [] || pad == [""]
    ensures Solid(pad) == []
  {
    EmptyLine();
    hide Solid, Blank;
    SolidBlank(pad);
  }

  lemma SolidPadded(x: seq<string>, pad: seq<string>, y: seq<string>)
    requires pad == [] || pad == [""]
    ensures Solid(x + [""]) + Solid(pad + y) == Solid(x + y)
  {
    hide Solid;
    SolidAppend(x, [""]);
    SolidAppend(pad, y);
    SolidAppend(x, y);
    SolidPad([""]);
    SolidPad(pad);
  }

  // ---------- reading the text back ----------

  predicate OneLiners(lines: seq<string>) {
    forall i | 0 <= i < |lines| :: '\n' !in lines[i]
  }

  lemma LinesAreOneLiners(text: string)
    ensures LinesOf(text) != [] && OneLiners(LinesOf(text)) && Join(LinesOf(text), "\n") == text
  {
    SplitParts(text, '\n');
    JoinOfSplit(text, '\n');
    forall i | 0 <= i < |LinesOf(text)| ensures '\n' !in LinesOf(text)[i] {
      assert LinesOf(text)[i] in LinesOf(text);
    }
  }

  /** The lines of a rendered profile: the final newline may add one empty line. */
  function Reread(lines: seq<string>): seq<string> {
    if |lines| > 1 && lines[|lines| - 1] == [] then lines else lines + [""]
  }

  lemma JoinLast(lines: seq<string>)
    requires lines != [] && OneLiners(lines)
    ensures var text := Join(lines, "\n");
      text != [] && text[|text| - 1] == '\n' <==> |lines| > 1 && lines[|lines| - 1] == []
  {
    var last := lines[|lines| - 1];
    if |lines| == 1 {
      assert last == [] || last[|last| - 1] in last;
    } else {
      var front := lines[..|lines| - 1];
      assert lines == front + [last];
      JoinAppend(front, [last], "\n");
      var text := Join(lines, "\n");
      assert text == Join(front, "\n") + "\n" + last;
      if last != [] {
        assert text[|text| - 1] == last[|last| - 1] && last[|last| - 1] in last;
      }
    }
  }

  /** The next reader sees the lines that were rendered. */
  lemma LinesOfRendered(lines: seq<string>)
    requires lines != [] && OneLiners(lines)
    ensures LinesOf(Rendered(lines)) == Reread(lines)
  {
    JoinLast(lines);
    forall p | p in lines + [""] ensures '\n' !in p {}
    if Reread(lines) == lines {
      SplitOfJoin(lines, '\n');
    } else {
      JoinAppend(lines, [""], "\n");
      assert Join(lines, "\n") + "\n" + "" == Join(lines, "\n") + "\n";
      SplitOfJoin(lines + [""], '\n');
    }
  }

  /** The parts that the next reader finds. */
  function RereadParts(p: Parts): Parts {
    if Reread(Flatten(p)) == Flatten(p) then p
    else if p.post != [] then p.(post := p.post + [""])
    else p.(body := p.body + [""])
  }

  lemma RereadPartsFlatten(p: Parts)
    requires ValidParts(p)
    ensures ValidParts(RereadParts(p)) && Flatten(RereadParts(p)) == Reread(Flatten(p))
  {
    EmptyLine();
    hide IsHeader, SectionName;
    if Reread(Flatten(p)) != Flatten(p) {
      if p.post != [] {
        assert p.pre + [p.header] + p.body + (p.post + [""]) == Flatten(p) + [""];
      } else {
        assert p.pre + [p.header] + (p.body + [""]) + [] == p.pre + [p.header] + p.body + [] + [""];
      }
    }
  }

  lemma StripSnoc(body: seq<string>)
    requires OneBlock(body)
    ensures OneBlock(body + [""]) && BlockOf(body + [""]) == BlockOf(body) && Strip(body + [""]) == Strip(body) + [""]
  {
    MarkerFacts();
    hide IsBegin, IsEnd, Content;
    if NoBegin(body) {
      UnmarkedFacts(body);
      UnmarkedFacts(body + [""]);
    } else {
      var a, b, m, e, z := OneBlockShape(body);
      ShapeFacts(body, a, b, m, e, z);
      assert a + [b] + m + [e] + (z + [""]) == body + [""];
      ShapeFacts(body + [""], a, b, m, e, z + [""]);
      assert a + (z + [""]) == a + z + [""];
    }
  }

  /** A final newline changes nothing that matters in the section. */
  lemma RereadSection(p: Parts)
    requires OneBlock(p.body)
    ensures var q := RereadParts(p);
      && OneBlock(q.body) && BlockOf(q.body) == BlockOf(p.body) && Solid(Strip(q.body)) == Solid(Strip(p.body))
      && q.pre == p.pre && q.header == p.header && (q.post == p.post || q.post == p.post + [""])
  {
    hide OneBlock, BlockOf, Blank;
    if RereadParts(p).body != p.body {
      StripSnoc(p.body);
      EmptyLine();
      SolidAppend(Strip(p.body), [""]);
      SolidBlank([""]) by { EmptyLine(); }
    }
  }

  // ---------- one edit ----------

  /** The text after an edit that leaves `managed` in the block. */
  function Edited(p: Parts, managed: seq<string>): string {
    Rendered(Flatten(WithBlock(Cleaned(p), managed)))
  }

  /** What an edit leaves alone: the lines before the section and its header, the lines after
      it up to one final empty line, and the unmanaged lines of the section up to blank ones. */
  predicate Framed(p: Parts, q: Parts) {
    && q.pre == p.pre && q.header == p.header && (q.post == p.post || q.post == p.post + [""])
    && Solid(Strip(q.body)) == Solid(Strip(p.body))
  }

  /** Frame and re-reading of every edit: the reader of the new text finds the same profile
      around the block, and in the block exactly the lines that were rendered. */
  lemma EditFrames(p: Parts, managed: seq<string>) returns (q: Parts)
    requires ValidParts(p) && OneLiners(Flatten(p)) && OneBlock(p.body) && AllOrdinary(managed)
    ensures Open(LinesOf(Edited(p, managed))) == Some(q) && ValidParts(q) && Framed(p, q)
    ensures OneBlock(q.body) && BlockOf(q.body) == if managed == [] then None else Some(managed)
  {
    var c := Cleaned(p);
    CleanedValid(p);
    StrippedUnmarked(p.body);
    UnmarkedFacts(c.body);
    BlockInserted(c, managed);
    var w := WithBlock(c, managed);
    WithBlockValid(c, managed);
    WithBlockOneLine(p, managed);
    LinesOfRendered(Flatten(w));
    RereadPartsFlatten(w);
    BoundsOfParts(RereadParts(w));
    RereadSection(w);
    q := RereadParts(w);
  }

  lemma {:induction false} SolidOfOrdinary(lines: seq<string>)
    requires forall i | 0 <= i < |lines| :: !Blank(lines[i])
    ensures Solid(lines) == lines
  {
    hide Blank;
    if lines != [] {
      SolidOfOrdinary(lines[1..]);
    }
  }

  lemma MarkersSolid()
    ensures !Blank(MARKER_BEGIN) && !Blank(MARKER_END) && Blank("")
  {
    MarkerFacts();
    EmptyLine();
    assert |MARKER_BEGIN| > |MARKER_END| > 0;
  }

  lemma OrdinarySolid(managed: seq<string>)
    requires AllOrdinary(managed)
    ensures var block := [MARKER_BEGIN] + managed + [MARKER_END]; Solid(block) == block
  {
    MarkersSolid();
    forall i | 0 <= i < |managed| ensures !Blank(managed[i]) {
      assert Ordinary(managed[i]);
    }
    hide Blank, Solid;
    SolidOfOrdinary([MARKER_BEGIN] + managed + [MARKER_END]);
  }

  /** The block behind the last line that is not blank. */
  lemma PlacedLast(p: Parts, managed: seq<string>)
    requires AllOrdinary(managed)
    ensures Solid(BodyWith(p, managed))
         == Solid(p.body) + if managed == [] then [] else [MARKER_BEGIN] + managed + [MARKER_END]
  {
    hide *;
    var k := BlankFrom(p.body);
    var pad := k == |p.body| && p.post != [];
    BodySplits(p, managed);
    BlockSolid(managed, pad);
    SolidMiddle(p.body[..k], BlockLines(managed, pad), p.body[k..]);
  }

  lemma SolidMiddle(x: seq<string>, block: seq<string>, y: seq<string>)
    requires AllBlank(y)
    ensures Solid(x + block + y) == Solid(x + y) + Solid(block)
  {
    hide *;
    SolidAppend(x, y);
    SolidBlank(y);
    SolidAppend(x + block, y);
    SolidAppend(x, block);
    NothingMore(Solid(x));
    NothingMore(Solid(x) + Solid(block));
  }

  lemma NothingMore(s: seq<string>)
    ensures s + [] == s
  {
  }

  lemma BlockSolid(managed: seq<string>, pad: bool)
    requires AllOrdinary(managed)
    ensures Solid(BlockLines(managed, pad)) == if managed == [] then [] else [MARKER_BEGIN] + managed + [MARKER_END]
  {
    hide *;
    if managed == [] {
      NoBlockLines(pad);
      NoSolid();
    } else {
      SomeBlockLines(managed, pad);
      PaddedBlock(managed, pad);
    }
  }

  lemma NoSolid()
    ensures Solid([]) == []
  {
  }

  lemma PaddedBlock(managed: seq<string>, pad: bool)
    requires AllOrdinary(managed)
    ensures var block := [MARKER_BEGIN] + managed + [MARKER_END];
      Solid(["", MARKER_BEGIN] + managed + [MARKER_END] + if pad then [""] else []) == block
  {
    hide Blank, Solid, AllOrdinary;
    var block, tail := [MARKER_BEGIN] + managed + [MARKER_END], if pad then [""] else [];
    OrdinarySolid(managed);
    SolidPad([""]);
    SolidPad(tail);
    SolidAppend([""], block);
    SolidAppend([""] + block, tail);
    assert ["", MARKER_BEGIN] + managed + [MARKER_END] + tail == [""] + block + tail;
  }

  lemma RereadSolid(p: Parts)
    ensures Solid(RereadParts(p).body) == Solid(p.body)
  {
    hide Solid;
    SolidPad([""]);
    SolidAppend(p.body, [""]);
  }

  /** What is left of an edited section: the unmanaged lines up to line k, which is not blank, the block,
      with a blank line before it and, where the next section follows at once, one behind it, and the
      blank lines from k on. */
  predicate Written(p: Parts, managed: seq<string>, k: int, body: seq<string>) {
    var rest := Strip(p.body);
    && 0 <= k <= |rest| && AllBlank(rest[k..]) && (k > 0 ==> !Blank(rest[k - 1]))
    && body == rest[..k]
               + (if managed == [] then []
                  else ["", MARKER_BEGIN] + managed + [MARKER_END] + if k == |rest| && p.post != [] then [""] else [])
               + rest[k..]
  }

  lemma BodyWritten(p: Parts, managed: seq<string>)
    ensures Written(p, managed, BlankFrom(Strip(p.body)), WithBlock(Cleaned(p), managed).body)
  {
    hide Strip, Blank, IsBegin, IsEnd;
  }

  lemma EditedFlat(p: Parts, managed: seq<string>)
    ensures var w := WithBlock(Cleaned(p), managed);
      && Edited(p, managed) == Rendered(Flatten(w)) && Flatten(w) == p.pre + [p.header] + w.body + p.post
  {
    hide Strip, BlankFrom, BlockLines, Rendered;
  }

  lemma RereadIs(lines: seq<string>)
    ensures Reread(lines) == lines + if |lines| > 1 && lines[|lines| - 1] == "" then [] else [""]
  {
    assert lines + [] == lines;
  }

  /** The lines of the file after any edit, one by one: those before the section, its header, what is
      written of the section, those after it, and an empty line at the end if there was none. */
  lemma EditWrites(p: Parts, managed: seq<string>) returns (k: int, body: seq<string>)
    requires OneLiners(Flatten(p)) && ValidParts(p) && AllOrdinary(managed)
    ensures Written(p, managed, k, body)
    ensures var lines := p.pre + [p.header] + body + p.post;
      LinesOf(Edited(p, managed)) == lines + if |lines| > 1 && lines[|lines| - 1] == "" then [] else [""]
  {
    hide *;
    var w := WithBlock(Cleaned(p), managed);
    k, body := BlankFrom(Strip(p.body)), w.body;
    BodyWritten(p, managed);
    WithBlockOneLine(p, managed);
    EditedFlat(p, managed);
    LinesOfRendered(Flatten(w));
    RereadIs(Flatten(w));
  }

  /** Whatever markers the section had: after an edit its non-blank lines are the unmanaged ones, in
      order, and behind them the block with just the rendered lines between its markers. */
  lemma EditPlaces(p: Parts, managed: seq<string>)
    requires ValidParts(p) && OneLiners(Flatten(p)) && AllOrdinary(managed)
    ensures var q := Open(LinesOf(Edited(p, managed)));
      && q.Some?
      && Solid(q.value.body)
         == Solid(Strip(p.body)) + if managed == [] then [] else [MARKER_BEGIN] + managed + [MARKER_END]
  {
    var c := Cleaned(p);
    var w := WithBlock(c, managed);
    CleanedValid(p);
    WithBlockValid(c, managed);
    WithBlockOneLine(p, managed);
    LinesOfRendered(Flatten(w));
    RereadPartsFlatten(w);
    BoundsOfParts(RereadParts(w));
    hide WithBlock, Solid, Strip, ValidParts, OneLiners, AllOrdinary, RereadParts, Flatten, Blank, Rendered, LinesOf;
    PlacedLast(c, managed);
    RereadSolid(w);
  }

  lemma WithBlockValid(p: Parts, managed: seq<string>)
    requires ValidParts(p) && AllOrdinary(managed)
    ensures ValidParts(WithBlock(p, managed))
  {
    MarkerFacts();
    EmptyLine();
    hide IsHeader, SectionName, IsBegin, IsEnd, Blank;
  }

  lemma OneLinersAppend(a: seq<string>, b: seq<string>)
    ensures OneLiners(a + b) <==> OneLiners(a) && OneLiners(b)
  {
    assert forall i | 0 <= i < |b| :: (a + b)[|a| + i] == b[i];
    assert forall i | 0 <= i < |a| :: (a + b)[i] == a[i];
  }

  lemma FlattenOneLiners(p: Parts)
    ensures OneLiners(Flatten(p)) <==>
      OneLiners(p.pre) && OneLiners([p.header]) && OneLiners(p.body) && OneLiners(p.post)
  {
    OneLinersAppend(p.pre, [p.header]);
    OneLinersAppend(p.pre + [p.header], p.body);
    OneLinersAppend(p.pre + [p.header] + p.body, p.post);
  }

  lemma StripOneLiners(body: seq<string>)
    requires OneLiners(body)
    ensures OneLiners(Strip(body))
  {
    StripSubset(body, 0, |body|);
    forall i | 0 <= i < |Strip(body)| ensures '\n' !in Strip(body)[i] {
      assert Strip(body)[i] in Strip(body);
    }
  }

  lemma BlockOneLiners(managed: seq<string>, pad: bool)
    requires AllOrdinary(managed)
    ensures OneLiners(BlockLines(managed, pad))
  {
    MarkerFacts();
    hide IsBegin, IsEnd, IsHeader, Blank;
    OneLinersAppend(["", MARKER_BEGIN], managed);
    OneLinersAppend(["", MARKER_BEGIN] + managed, [MARKER_END]);
    OneLinersAppend(["", MARKER_BEGIN] + managed + [MARKER_END], if pad then [""] else []);
  }

  lemma WithBlockOneLine(p: Parts, managed: seq<string>)
    requires OneLiners(Flatten(p)) && AllOrdinary(managed)
    ensures OneLiners(Flatten(WithBlock(Cleaned(p), managed)))
  {
    hide OneLiners, BlockLines, AllOrdinary, Strip;
    var c := Cleaned(p);
    var k := BlankFrom(c.body);
    var block := BlockLines(managed, k == |c.body| && c.post != []);
    FlattenOneLiners(p);
    StripOneLiners(p.body);
    BlockOneLiners(managed, k == |c.body| && c.post != []);
    assert c.body == c.body[..k] + c.body[k..];
    OneLinersAppend(c.body[..k], c.body[k..]);
    OneLinersAppend(c.body[..k], block);
    OneLinersAppend(c.body[..k] + block, c.body[k..]);
    FlattenOneLiners(WithBlock(c, managed));
  }

  /** The lines of an opened or inserted section. */
  lemma OpenOneLiners(text: string)
    ensures ValidParts(OpenOrInsert(LinesOf(text))) && OneLiners(Flatten(OpenOrInsert(LinesOf(text))))
  {
    var lines := LinesOf(text);
    LinesAreOneLiners(text);
    OpenIsValid(lines);
    OpenOrInsertValid(lines);
    if Open(lines).None? {
      InsertedOneLiners(lines);
    }
  }

  lemma InsertedOneLiners(lines: seq<string>)
    requires OneLiners(lines)
    ensures OneLiners(Flatten(Inserted(lines)))
  {
    ProxyHeader();
    var at := InsertPoint(lines);
    var gap := if at > 0 && !Blank(lines[at - 1]) then [""] else [];
    hide InsertPoint, Blank;
    assert lines == lines[..at] + lines[at..];
    OneLinersAppend(lines[..at], lines[at..]);
    OneLinersAppend(lines[..at], gap);
    FlattenOneLiners(Inserted(lines));
  }
}

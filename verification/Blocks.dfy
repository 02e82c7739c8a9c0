/** The marker-delimited block: removeManagedProxyBlock, managedProxyBlock and
    renderManagedProxyBlock of internal/surge/profile.go. */
module Blocks {
  import opened Text
  import opened Sections
  import opened Slices

  // The first character stands apart: it makes a marker a comment.
  const MARKER_TEXT := "#" + " xcore-bridge managed external proxies "
  const MARKER_BEGIN := MARKER_TEXT + "begin"
  const MARKER_END := MARKER_TEXT + "end"

  predicate IsBegin(line: string) {
    Trim(line) == MARKER_BEGIN
  }

  predicate IsEnd(line: string) {
    Trim(line) == MARKER_END
  }

  lemma MarkerFacts()
    ensures IsBegin(MARKER_BEGIN) && !IsEnd(MARKER_BEGIN) && !IsBegin(MARKER_END) && IsEnd(MARKER_END)
    ensures !IsBegin("") && !IsEnd("")
    ensures !IsHeader(MARKER_BEGIN) && !IsHeader(MARKER_END)
    ensures '\n' !in MARKER_BEGIN && '\n' !in MARKER_END
  {
    assert |MARKER_BEGIN| > |MARKER_END| > 0;
    MarkerIsComment(MARKER_BEGIN);
    MarkerIsComment(MARKER_END);
    EmptyLine();
  }

  lemma MarkerIsComment(m: string)
    requires m != [] && Trimmed(m) && m[0] == '#'
    ensures Trim(m) == m && !IsHeader(m)
  {
    TrimOfTrimmed(m);
  }

  // ---------- finding markers ----------

  /** The first end marker in lines[i..end), or `end`. */
  function FirstEnd(lines: seq<string>, i: nat, end: nat): (k: nat)
    requires i <= end <= |lines|
    ensures i <= k <= end && (k < end ==> IsEnd(lines[k])) && forall j | i <= j < k :: !IsEnd(lines[j])
    decreases end - i
  {
    if i == end || IsEnd(lines[i]) then i else FirstEnd(lines, i + 1, end)
  }

  /** The first begin marker in lines[i..end), or `end`. */
  function FirstBegin(lines: seq<string>, i: nat, end: nat): (k: nat)
    requires i <= end <= |lines|
    ensures i <= k <= end && (k < end ==> IsBegin(lines[k])) && forall j | i <= j < k :: !IsBegin(lines[j])
    decreases end - i
  {
    if i == end || IsBegin(lines[i]) then i else FirstBegin(lines, i + 1, end)
  }

  /** findMarkerEnd: -1 when there is none in [start, end). */
  method FindMarkerEnd(lines: seq<string>, start: nat, end: nat) returns (k: int)
    requires start <= end <= |lines|
    ensures k == if FirstEnd(lines, start, end) < end then FirstEnd(lines, start, end) as int else -1
  {
    for i := start to end
      invariant FirstEnd(lines, start, end) == FirstEnd(lines, i, end)
    {
      if IsEnd(lines[i]) {
        return i;
      }
    }
    return -1;
  }

  // ---------- removing blocks ----------

  /** Lines i..end of a section without its closed blocks: whatever such a block holds goes,
      and an unclosed begin marker stays. */
  function StripFrom(lines: seq<string>, i: nat, end: nat): seq<string>
    requires i <= end <= |lines|
    decreases end - i
  {
    if i == end then []
    else if IsBegin(lines[i]) && FirstEnd(lines, i + 1, end) < end then
      StripFrom(lines, FirstEnd(lines, i + 1, end) + 1, end)
    else [lines[i]] + StripFrom(lines, i + 1, end)
  }

  function Strip(body: seq<string>): seq<string> {
    StripFrom(body, 0, |body|)
  }

  /** removeManagedProxyBlock on the parts of a file. */
  function Cleaned(p: Parts): Parts {
    p.(body := Strip(p.body))
  }

  lemma {:induction false} StripSubset(lines: seq<string>, i: nat, end: nat)
    requires i <= end <= |lines|
    ensures forall l | l in StripFrom(lines, i, end) :: exists j :: i <= j < end && lines[j] == l
    ensures |StripFrom(lines, i, end)| <= end - i
    decreases end - i
  {
    hide IsBegin, IsEnd, FirstEnd;
    if i < end {
      if IsBegin(lines[i]) && FirstEnd(lines, i + 1, end) < end {
        StripSubset(lines, FirstEnd(lines, i + 1, end) + 1, end);
      } else {
        StripSubset(lines, i + 1, end);
      }
    }
  }

  lemma CleanedValid(p: Parts)
    requires ValidParts(p)
    ensures ValidParts(Cleaned(p))
  {
    StripSubset(p.body, 0, |p.body|);
    forall i | 0 <= i < |Strip(p.body)| ensures !IsHeader(Strip(p.body)[i]) {
      assert Strip(p.body)[i] in Strip(p.body);
    }
  }

  /** Only the lines of the range matter. */
  lemma {:induction false} FirstEndShift(a: seq<string>, i: nat, b: seq<string>, d: nat, n: nat)
    requires d + n <= |b| && n <= |a| && i <= n && forall j | 0 <= j < n :: a[j] == b[d + j]
    ensures FirstEnd(b, d + i, d + n) == d + FirstEnd(a, i, n)
    ensures FirstBegin(b, d + i, d + n) == d + FirstBegin(a, i, n)
    decreases n - i
  {
    if i < n {
      FirstEndShift(a, i + 1, b, d, n);
    }
  }

  lemma StripStep(lines: seq<string>, i: nat, end: nat)
    requires i < end <= |lines|
    ensures StripFrom(lines, i, end) ==
      if IsBegin(lines[i]) && FirstEnd(lines, i + 1, end) < end then
        StripFrom(lines, FirstEnd(lines, i + 1, end) + 1, end)
      else [lines[i]] + StripFrom(lines, i + 1, end)
  {
  }

  lemma StripNone(lines: seq<string>, i: nat)
    requires i <= |lines|
    ensures StripFrom(lines, i, i) == []
  {
  }

  lemma StripSame(a: seq<string>, i: nat, n: nat, b: seq<string>, j: nat, m: nat)
    requires i < n <= |a| && j < m <= |b| && m - n == j - i && a[i] == b[j]
    requires FirstEnd(b, j + 1, m) - j == FirstEnd(a, i + 1, n) - i
    requires FirstEnd(a, i + 1, n) < n ==>
               StripFrom(b, FirstEnd(b, j + 1, m) + 1, m) == StripFrom(a, FirstEnd(a, i + 1, n) + 1, n)
    requires StripFrom(b, j + 1, m) == StripFrom(a, i + 1, n)
    ensures StripFrom(b, j, m) == StripFrom(a, i, n)
  {
    hide IsBegin, IsEnd, FirstEnd;
  }

  lemma {:induction false} StripShift(a: seq<string>, i: nat, b: seq<string>, d: nat, n: nat)
    requires d + n <= |b| && n <= |a| && i <= n && forall j | 0 <= j < n :: a[j] == b[d + j]
    ensures StripFrom(b, d + i, d + n) == StripFrom(a, i, n)
    decreases n - i
  {
    hide IsBegin, IsEnd, FirstEnd, FirstBegin, StripFrom;
    if i == n {
      StripNone(a, n);
      StripNone(b, d + n);
    } else {
      FirstEndShift(a, i + 1, b, d, n);
      if FirstEnd(a, i + 1, n) < n {
        StripShift(a, FirstEnd(a, i + 1, n) + 1, b, d, n);
      }
      StripShift(a, i + 1, b, d, n);
      StripSame(a, i, n, b, d + i, d + n);
    }
  }

  lemma StripOfSlice(lines: seq<string>, start: nat, end: nat)
    requires start <= end <= |lines|
    ensures Strip(lines[start..end]) == StripFrom(lines, start, end)
  {
    StripShift(lines[start..end], 0, lines, start, end - start);
  }

  lemma {:induction false} StripUnmarked(lines: seq<string>, i: nat, end: nat)
    requires i <= end <= |lines| && forall j | i <= j < end :: !IsBegin(lines[j])
    ensures StripFrom(lines, i, end) == lines[i..end]
    decreases end - i
  {
    if i < end {
      StripUnmarked(lines, i + 1, end);
    }
  }

  lemma {:induction false} FirstEndMono(lines: seq<string>, i: nat, end: nat)
    requires i <= end <= |lines| && FirstEnd(lines, i, end) == end
    ensures forall l | l in StripFrom(lines, i, end) :: !IsEnd(l)
  {
    StripSubset(lines, i, end);
  }

  lemma StripCons(x: string, r: seq<string>)
    requires Strip(r) == r && (IsBegin(x) ==> forall l | l in r :: !IsEnd(l))
    ensures Strip([x] + r) == [x] + r
  {
    hide IsBegin, IsEnd;
    var s := [x] + r;
    if IsBegin(x) {
      assert forall j | 1 <= j < |s| :: s[j] in r;
      NoEndHere(s, 1);
    }
    StripShift(r, 0, s, 1, |r|);
  }

  /** Removing blocks twice removes nothing more. */
  lemma {:induction false} StripTwice(lines: seq<string>, i: nat, end: nat)
    requires i <= end <= |lines|
    ensures Strip(StripFrom(lines, i, end)) == StripFrom(lines, i, end)
    decreases end - i
  {
    hide IsBegin, IsEnd, Strip;
    if i == end {
      StripTwiceNone();
    } else {
      var k := FirstEnd(lines, i + 1, end);
      if IsBegin(lines[i]) && k < end {
        StripTwice(lines, k + 1, end);
      } else {
        StripTwice(lines, i + 1, end);
        if IsBegin(lines[i]) {
          FirstEndMono(lines, i + 1, end);
        }
        StripCons(lines[i], StripFrom(lines, i + 1, end));
      }
    }
  }

  lemma StripTwiceNone()
    ensures Strip([]) == []
  {
  }

  lemma NoEndHere(lines: seq<string>, i: nat)
    requires i <= |lines| && forall j | i <= j < |lines| :: !IsEnd(lines[j])
    ensures FirstEnd(lines, i, |lines|) == |lines|
  {
  }

  /** What removeManagedProxyBlock has copied when it stands at line `i`. */
  predicate Copied(out: seq<string>, lines: seq<string>, start: nat, end: nat, i: nat)
    requires start < end <= |lines| && i <= |lines|
  {
    var kept := lines[..start + 1] + StripFrom(lines, start + 1, end);
    && (i <= start + 1 ==> out == lines[..i])
    && (start < i <= end ==> out + StripFrom(lines, i, end) == kept)
    && (end <= i ==> out == kept + lines[end..i])
  }

  lemma CopiedEnds(out: seq<string>, lines: seq<string>, start: nat, end: nat)
    requires start < end <= |lines|
    ensures Copied([], lines, start, end, 0)
    ensures Copied(out, lines, start, end, |lines|) ==>
      out == lines[..start + 1] + StripFrom(lines, start + 1, end) + lines[end..] && |out| <= |lines|
  {
    StripSubset(lines, start + 1, end);
    assert lines[end..|lines|] == lines[end..];
  }

  /** A line of the section that stays. */
  lemma CopiedBody(out: seq<string>, lines: seq<string>, start: nat, end: nat, i: nat)
    requires start < i < end <= |lines| && Copied(out, lines, start, end, i)
    requires !IsBegin(lines[i]) || FirstEnd(lines, i + 1, end) == end
    ensures Copied(out + [lines[i]], lines, start, end, i + 1)
  {
    hide IsBegin, IsEnd;
    assert out + ([lines[i]] + StripFrom(lines, i + 1, end)) == out + [lines[i]] + StripFrom(lines, i + 1, end);
    if i + 1 == end {
      assert out + [lines[i]] + [] == out + [lines[i]];
    }
  }

  /** A line outside the section. */
  lemma CopiedOther(out: seq<string>, lines: seq<string>, start: nat, end: nat, i: nat)
    requires start < end <= |lines| && i < |lines| && (i <= start || end <= i)
    requires Copied(out, lines, start, end, i)
    ensures Copied(out + [lines[i]], lines, start, end, i + 1)
  {
    assert lines[..i + 1] == lines[..i] + [lines[i]];
    if end <= i {
      var kept := lines[..start + 1] + StripFrom(lines, start + 1, end);
      assert lines[end..i + 1] == lines[end..i] + [lines[i]];
      assert kept + (lines[end..i] + [lines[i]]) == kept + lines[end..i] + [lines[i]];
    }
  }

  /** The jump over a closed block. */
  lemma CopiedJump(out: seq<string>, lines: seq<string>, start: nat, end: nat, i: nat)
    requires start < i < end <= |lines| && Copied(out, lines, start, end, i)
    requires IsBegin(lines[i]) && FirstEnd(lines, i + 1, end) < end
    ensures Copied(out, lines, start, end, FirstEnd(lines, i + 1, end) + 1)
  {
    hide IsBegin, IsEnd;
    var k := FirstEnd(lines, i + 1, end) + 1;
    if k == end {
      assert out + [] == out && lines[end..end] == [];
    }
  }

  /** The loop of removeManagedProxyBlock: lines are copied one by one, and the index jumps
      over closed blocks. */
  method CopyOutsideBlocks(lines: seq<string>, start: nat, end: nat) returns (out: seq<string>)
    requires start < end <= |lines|
    ensures out == lines[..start + 1] + StripFrom(lines, start + 1, end) + lines[end..] && |out| <= |lines|
  {
    hide IsBegin, IsEnd, Copied;
    out := [];
    var i := 0;
    CopiedEnds(out, lines, start, end);
    while i < |lines|
      invariant 0 <= i <= |lines| && Copied(out, lines, start, end, i)
    {
      if start < i < end {
        if IsBegin(lines[i]) {
          var k := FindMarkerEnd(lines, i + 1, end);
          if k != -1 {
            CopiedJump(out, lines, start, end, i);
            i := k + 1;
            continue;
          }
        }
        CopiedBody(out, lines, start, end, i);
      } else {
        CopiedOther(out, lines, start, end, i);
      }
      out := out + [lines[i]];
      i := i + 1;
    }
    CopiedEnds(out, lines, start, end);
  }

  /** removeManagedProxyBlock: the section is found again in what is left. */
  method RemoveManagedProxyBlock(lines: seq<string>, proxyStart: nat, proxyEnd: nat)
    returns (out: Slice, start: int, end: int)
    requires proxyStart < proxyEnd <= |lines|
    ensures Ok(out) && fresh(out.buf)
    ensures View(out) == lines[..proxyStart + 1] + Strip(lines[proxyStart + 1..proxyEnd]) + lines[proxyEnd..]
    ensures (start, end) == Bounds(View(out), PROXY)
  {
    hide Strip, StripFrom, Bounds;
    var kept := CopyOutsideBlocks(lines, proxyStart, proxyEnd);
    StripOfSlice(lines, proxyStart + 1, proxyEnd);
    out := Make(kept, |lines|);
    start, end := SectionBounds(kept, PROXY);
  }

  // ---------- reading the block ----------

  predicate IsContent(line: string) {
    !Blank(line) && !IsBegin(line) && !IsEnd(line)
  }

  /** proxyContentLines as a function */
  function Content(lines: seq<string>): seq<string> {
    if lines == [] then []
    else (if IsContent(lines[0]) then [lines[0]] else []) + Content(lines[1..])
  }

  lemma {:induction false} ContentAppend(a: seq<string>, b: seq<string>)
    ensures Content(a + b) == Content(a) + Content(b)
  {
    if a == [] {
      assert a + b == b;
    } else {
      assert (a + b)[1..] == a[1..] + b;
      ContentAppend(a[1..], b);
    }
  }

  lemma {:induction false} ContentAll(lines: seq<string>)
    requires forall i | 0 <= i < |lines| :: IsContent(lines[i])
    ensures Content(lines) == lines
  {
    if lines != [] {
      ContentAll(lines[1..]);
    }
  }

  /** proxyContentLines */
  method ProxyContentLines(lines: seq<string>) returns (out: seq<string>)
    ensures out == Content(lines)
  {
    out := [];
    assert lines[..0] == [];
    for i := 0 to |lines|
      invariant out == Content(lines[..i])
    {
      assert lines[..i + 1] == lines[..i] + [lines[i]] && [lines[i]][1..] == [];
      ContentAppend(lines[..i], [lines[i]]);
      if Blank(lines[i]) || IsBegin(lines[i]) || IsEnd(lines[i]) {
        continue;
      }
      out := out + [lines[i]];
    }
    assert lines[..|lines|] == lines;
  }

  /** managedProxyBlock as a function: only the first begin marker counts. */
  function BlockFrom(lines: seq<string>, start: nat, end: nat): Option<seq<string>>
    requires start <= end <= |lines|
  {
    var b := FirstBegin(lines, start, end);
    if b == end then None
    else
      var e := FirstEnd(lines, b + 1, end);
      if e == end then None else Some(Content(lines[b + 1..e]))
  }

  function BlockOf(body: seq<string>): Option<seq<string>> {
    BlockFrom(body, 0, |body|)
  }

  lemma EqualSlices<T>(a: seq<T>, b: seq<T>, d: nat, x: nat, y: nat)
    requires x <= y <= |a| && d + |a| <= |b| && forall j | 0 <= j < |a| :: a[j] == b[d + j]
    ensures a[x..y] == b[d + x..d + y]
  {
  }

  lemma BlockShift(a: seq<string>, b: seq<string>, d: nat)
    requires d + |a| <= |b| && forall j | 0 <= j < |a| :: a[j] == b[d + j]
    ensures BlockFrom(b, d, d + |a|) == BlockOf(a)
  {
    hide IsBegin, IsEnd, Content, FirstBegin, FirstEnd;
    var n := |a|;
    FirstEndShift(a, 0, b, d, n);
    var k := FirstBegin(a, 0, n);
    if k < n {
      FirstEndShift(a, k + 1, b, d, n);
      EqualSlices(a, b, d, k + 1, FirstEnd(a, k + 1, n));
    }
  }

  lemma BlockOfSlice(lines: seq<string>, start: nat, end: nat)
    requires start <= end <= |lines|
    ensures BlockOf(lines[start..end]) == BlockFrom(lines, start, end)
  {
    hide BlockOf, BlockFrom;
    BlockShift(lines[start..end], lines, start);
  }

  /** managedProxyBlock */
  method ManagedProxyBlock(lines: seq<string>, proxyStart: nat, proxyEnd: nat)
    returns (managed: seq<string>, found: bool)
    requires proxyStart < proxyEnd <= |lines|
    ensures BlockOf(lines[proxyStart + 1..proxyEnd]) == if found then Some(managed) else None
    ensures !found ==> managed == []
  {
    hide IsBegin, IsEnd, Content;
    BlockOfSlice(lines, proxyStart + 1, proxyEnd);
    for i := proxyStart + 1 to proxyEnd
      invariant FirstBegin(lines, proxyStart + 1, proxyEnd) == FirstBegin(lines, i, proxyEnd)
    {
      if IsBegin(lines[i]) {
        var k := FindMarkerEnd(lines, i + 1, proxyEnd);
        if k != -1 {
          managed := ProxyContentLines(lines[i + 1..k]);
          return managed, true;
        }
        return [], false;
      }
    }
    return [], false;
  }

  // ---------- writing the block ----------

  predicate AllBlank(lines: seq<string>) {
    forall i | 0 <= i < |lines| :: Blank(lines[i])
  }

  /** The section without its trailing blank lines ends here. */
  function BlankFrom(body: seq<string>): (k: nat)
    ensures k <= |body| && AllBlank(body[k..]) && (k > 0 ==> !Blank(body[k - 1]))
  {
    if body == [] || !Blank(body[|body| - 1]) then |body|
    else
      var k := BlankFrom(body[..|body| - 1]);
      assert body[k..] == body[..|body| - 1][k..] + [body[|body| - 1]];
      k
  }

  /** The lines that renderManagedProxyBlock inserts. */
  function BlockLines(managed: seq<string>, pad: bool): seq<string> {
    if managed == [] then []
    else ["", MARKER_BEGIN] + managed + [MARKER_END] + if pad then [""] else []
  }

  /** The section with the block inserted: padded when the next section follows at once. */
  function WithBlock(p: Parts, managed: seq<string>): Parts {
    var k := BlankFrom(p.body);
    p.(body := p.body[..k] + BlockLines(managed, k == |p.body| && p.post != []) + p.body[k..])
  }

  /** The text of a profile: lines joined, with a final newline. */
  function Rendered(lines: seq<string>): string {
    var text := Join(lines, "\n");
    if text != [] && text[|text| - 1] == '\n' then text else text + "\n"
  }

  lemma InsertSplices(p: Parts, k: nat, block: seq<string>)
    requires k <= |p.body|
    ensures var f, at := Flatten(p), |p.pre| + 1 + k;
      at <= |f| && f[..at] + block + f[at..] == Flatten(p.(body := p.body[..k] + block + p.body[k..]))
  {
    var f, at := Flatten(p), |p.pre| + 1 + k;
    assert f[..at] == p.pre + [p.header] + p.body[..k];
    assert f[at..] == p.body[k..] + p.post;
  }

  lemma {:induction false} BlankFromUnique(body: seq<string>, k: nat)
    requires k <= |body| && (k > 0 ==> !Blank(body[k - 1])) && forall i | k <= i < |body| :: Blank(body[i])
    ensures BlankFrom(body) == k
    decreases |body|
  {
    if k < |body| {
      BlankFromUnique(body[..|body| - 1], k);
    }
  }

  /** The first loop of renderManagedProxyBlock: step back over blank lines. */
  method InsertPosition(lines: seq<string>, proxyStart: nat, proxyEnd: nat) returns (insertAt: nat)
    requires proxyStart < proxyEnd <= |lines|
    ensures proxyStart < insertAt <= proxyEnd
    ensures insertAt > proxyStart + 1 ==> !Blank(lines[insertAt - 1])
    ensures forall i | insertAt <= i < proxyEnd :: Blank(lines[i])
  {
    insertAt := proxyEnd;
    while insertAt > proxyStart + 1 && Trim(lines[insertAt - 1]) == ""
      invariant proxyStart < insertAt <= proxyEnd
      invariant forall i | insertAt <= i < proxyEnd :: Blank(lines[i])
    {
      insertAt := insertAt - 1;
    }
  }

  lemma PositionInBody(p: Parts, at: nat)
    requires ValidParts(p) && |p.pre| < at <= |p.pre| + 1 + |p.body|
    requires at > |p.pre| + 1 ==> !Blank(Flatten(p)[at - 1])
    requires forall i | at <= i < |p.pre| + 1 + |p.body| :: Blank(Flatten(p)[i])
    ensures BlankFrom(p.body) == at - |p.pre| - 1
    ensures at < |Flatten(p)| && !Blank(Flatten(p)[at]) <==> at == |p.pre| + 1 + |p.body| && p.post != []
  {
    var k := at - |p.pre| - 1;
    FlattenAt(p);
    forall i | k <= i < |p.body| ensures Blank(p.body[i]) {
      assert Flatten(p)[i + |p.pre| + 1] == p.body[i];
    }
    BlankFromUnique(p.body, k);
    if p.post != [] {
      HeaderNotBlank(p.post[0]);
    }
  }

  /** The block of renderManagedProxyBlock, appended line by line. */
  method BuildBlock(managed: seq<string>, pad: bool) returns (block: seq<string>)
    ensures block == BlockLines(managed, pad)
  {
    block := [];
    if |managed| > 0 {
      block := block + ["", MARKER_BEGIN];
      block := block + managed;
      block := block + [MARKER_END];
    }
    if |block| > 0 && pad {
      block := block + [""];
    }
  }

  /** renderManagedProxyBlock: find the place, build the block and splice it into the shared
      buffer of `lines`. */
  method RenderManagedProxyBlock(lines: Slice, proxyStart: nat, proxyEnd: nat, managed: seq<string>, ghost p: Parts)
    returns (rendered: string)
    requires Ok(lines) && ValidParts(p) && View(lines) == Flatten(p)
    requires proxyStart == |p.pre| && proxyEnd == |p.pre| + 1 + |p.body|
    modifies lines.buf
    ensures rendered == Rendered(Flatten(WithBlock(p, managed)))
  {
    hide IsHeader, Blank, BlockLines;
    var view := lines.buf[..lines.len];
    var insertAt, block := PlaceBlock(view, proxyStart, proxyEnd, managed, p);
    var blockSlice := Make(block, |block|);
    var next := Splice(lines, insertAt, blockSlice);
    rendered := JoinLines(next.buf[..next.len]);
  }

  /** Where the block goes, and what it is. */
  method PlaceBlock(view: seq<string>, proxyStart: nat, proxyEnd: nat, managed: seq<string>, ghost p: Parts)
    returns (insertAt: nat, block: seq<string>)
    requires ValidParts(p) && view == Flatten(p)
    requires proxyStart == |p.pre| && proxyEnd == |p.pre| + 1 + |p.body| <= |view|
    ensures insertAt <= |view| && view[..insertAt] + block + view[insertAt..] == Flatten(WithBlock(p, managed))
  {
    hide WithBlock, BlankFrom, Blank, BlockLines, ValidParts, Flatten;
    insertAt := InsertPosition(view, proxyStart, proxyEnd);
    PlacedBlock(p, insertAt, managed);
    block := BuildBlock(managed, insertAt < |view| && !Blank(view[insertAt]));
  }

  lemma PlacedBlock(p: Parts, at: nat, managed: seq<string>)
    requires ValidParts(p) && |p.pre| < at <= |p.pre| + 1 + |p.body| <= |Flatten(p)|
    requires at > |p.pre| + 1 ==> !Blank(Flatten(p)[at - 1])
    requires forall i | at <= i < |p.pre| + 1 + |p.body| :: Blank(Flatten(p)[i])
    ensures var f := Flatten(p);
      f[..at] + BlockLines(managed, at < |f| && !Blank(f[at])) + f[at..] == Flatten(WithBlock(p, managed))
  {
    hide BlockLines, Blank, ValidParts, BlankFrom, Flatten;
    PositionInBody(p, at);
    InsertSplices(p, at - |p.pre| - 1, BlockLines(managed, at < |Flatten(p)| && !Blank(Flatten(p)[at])));
  }

  /** The end of renderManagedProxyBlock */
  method JoinLines(lines: seq<string>) returns (rendered: string)
    ensures rendered == Rendered(lines)
  {
    rendered := Join(lines, "\n");
    if rendered == [] || rendered[|rendered| - 1] != '\n' {
      rendered := rendered + "\n";
    }
  }
}

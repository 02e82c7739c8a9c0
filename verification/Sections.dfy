/** Finding the [Proxy] section: sectionBounds and insertProxySection of
    internal/surge/profile.go. */
module Sections {
  import opened Text

  const PROXY := "[proxy]"
  const GENERAL := "[general]"
  const PROXY_HEADER := "[Proxy]"

  /** normalizedSectionLine: the lower-case header, or the empty string. */
  function SectionName(line: string): string {
    var t := Trim(line);
    var u := if t != [] && t[0] == BOM then t[1..] else t;
    if u == [] || u[0] != '[' || u[|u| - 1] != ']' then [] else ToLower(u)
  }

  predicate IsHeader(line: string) {
    SectionName(line) != []
  }

  lemma HeaderNotBlank(line: string)
    requires IsHeader(line)
    ensures !Blank(line)
  {
  }

  lemma ProxyHeader()
    ensures SectionName(PROXY_HEADER) == PROXY && '\n' !in PROXY_HEADER && PROXY != []
  {
    TrimOfTrimmed(PROXY_HEADER);
  }

  /** A header as it may be spelled: white space around it, a byte order mark before it, any text in
      the brackets. */
  datatype Header = Header(a: string, mark: string, inner: string, b: string) {
    predicate Ok() {
      AllSpace(a) && AllSpace(b) && (mark == [] || mark == [BOM])
    }

    function Name(): string {
      "[" + inner + "]"
    }

    function Text(): string {
      a + (mark + Name()) + b
    }
  }

  lemma HeaderReads(h: Header)
    requires h.Ok()
    ensures SectionName(h.Text()) == ToLower(h.Name())
  {
    var t := h.mark + h.Name();
    assert t[0] == BOM || t[0] == '[';
    assert t[|t| - 1] == ']';
    assert Trimmed(t);
    TrimPad(h.a, t, h.b);
    assert t[|h.mark|..] == h.Name();
    hide Trim, ToLower, AllSpace;
  }

  lemma HeaderOf(line: string) returns (h: Header)
    requires IsHeader(line)
    ensures h.Ok() && h.Text() == line && SectionName(line) == ToLower(h.Name())
  {
    var a, b := TrimSplit(line);
    var t := Trim(line);
    var u := if t != [] && t[0] == BOM then t[1..] else t;
    hide Trim, ToLower, AllSpace;
    h := Header(a, if t != [] && t[0] == BOM then [BOM] else [], u[1..|u| - 1], b);
    assert u == h.Name();
    assert t == h.mark + u;
  }

  /** normalizedSectionLine takes exactly such lines for headers, under their name in lower case. */
  lemma HeadersExactly(line: string, name: string)
    ensures IsHeader(line) && SectionName(line) == name
       <==> exists h: Header :: h.Ok() && h.Text() == line && ToLower(h.Name()) == name
  {
    hide SectionName, ToLower, Header.Ok, Header.Text;
    if IsHeader(line) {
      var h := HeaderOf(line);
    }
    if h: Header :| h.Ok() && h.Text() == line && ToLower(h.Name()) == name {
      HeaderReads(h);
      LowerNotEmpty(h);
    }
  }

  lemma LowerNotEmpty(h: Header)
    ensures ToLower(h.Name()) != []
  {
  }

  // ---------- bounds ----------

  /** The first line from `i` on whose header is in `wanted`. */
  function FindSection(lines: seq<string>, wanted: set<string>, i: nat): (k: nat)
    requires i <= |lines|
    ensures i <= k <= |lines| && (k < |lines| ==> SectionName(lines[k]) in wanted)
    ensures forall j | i <= j < k :: SectionName(lines[j]) !in wanted
    decreases |lines| - i
  {
    if i == |lines| || SectionName(lines[i]) in wanted then i else FindSection(lines, wanted, i + 1)
  }

  /** The first header from `i` on. */
  function NextHeader(lines: seq<string>, i: nat): (k: nat)
    requires i <= |lines|
    ensures i <= k <= |lines| && (k < |lines| ==> IsHeader(lines[k]))
    ensures forall j | i <= j < k :: !IsHeader(lines[j])
    decreases |lines| - i
  {
    if i == |lines| || IsHeader(lines[i]) then i else NextHeader(lines, i + 1)
  }

  /** sectionBounds as a function; (-1, -1) when the section is missing. */
  function Bounds(lines: seq<string>, want: string): (int, int) {
    var s: int := FindSection(lines, {want}, 0);
    var e: int := if s < |lines| then NextHeader(lines, s + 1) else s;
    if s == |lines| then (-1, -1) else (s, e)
  }

  /** sectionBounds: two index loops. */
  method SectionBounds(lines: seq<string>, want: string) returns (start: int, end: int)
    ensures (start, end) == Bounds(lines, want)
  {
    hide SectionName;
    start, end := -1, -1;
    for i := 0 to |lines|
      invariant start == -1 && FindSection(lines, {want}, 0) == FindSection(lines, {want}, i)
    {
      if SectionName(lines[i]) == want {
        start := i;
        break;
      }
    }
    if start == -1 {
      return -1, -1;
    }
    for i := start + 1 to |lines|
      invariant NextHeader(lines, start + 1) == NextHeader(lines, i)
    {
      if IsHeader(lines[i]) {
        return start, i;
      }
    }
    return start, |lines|;
  }

  // ---------- a file as four parts ----------

  /** The lines before the [Proxy] header, the header, the section, and the rest. */
  datatype Parts = Parts(pre: seq<string>, header: string, body: seq<string>, post: seq<string>)

  predicate ValidParts(p: Parts) {
    && (forall i | 0 <= i < |p.pre| :: SectionName(p.pre[i]) != PROXY)
    && SectionName(p.header) == PROXY
    && (forall i | 0 <= i < |p.body| :: !IsHeader(p.body[i]))
    && (p.post != [] ==> IsHeader(p.post[0]))
  }

  function Flatten(p: Parts): seq<string> {
    p.pre + [p.header] + p.body + p.post
  }

  /** The parts of a file, if it has a [Proxy] section. */
  function Open(lines: seq<string>): Option<Parts> {
    var s := FindSection(lines, {PROXY}, 0);
    if s == |lines| then None
    else
      var e := NextHeader(lines, s + 1);
      Some(Parts(lines[..s], lines[s], lines[s + 1..e], lines[e..]))
  }

  lemma FlattenAt(p: Parts)
    ensures var f, s, e := Flatten(p), |p.pre|, |p.pre| + 1 + |p.body|;
      && e <= |f| && f[..s] == p.pre && f[s] == p.header && f[s + 1..e] == p.body && f[e..] == p.post
      && (forall i | 0 <= i < s :: f[i] == p.pre[i])
      && (forall i | s < i < e :: f[i] == p.body[i - s - 1])
      && (p.post != [] ==> e < |f| && f[e] == p.post[0])
  {
  }

  lemma FindUnique(lines: seq<string>, wanted: set<string>, k: nat)
    requires k < |lines| && SectionName(lines[k]) in wanted
    requires forall j | 0 <= j < k :: SectionName(lines[j]) !in wanted
    ensures FindSection(lines, wanted, 0) == k
  {
  }

  lemma NextUnique(lines: seq<string>, i: nat, k: nat)
    requires i <= k <= |lines| && (k < |lines| ==> IsHeader(lines[k]))
    requires forall j | i <= j < k :: !IsHeader(lines[j])
    ensures NextHeader(lines, i) == k
  {
  }

  /** sectionBounds finds exactly the parts that were put together. */
  lemma BoundsOfParts(p: Parts)
    requires ValidParts(p)
    ensures FindSection(Flatten(p), {PROXY}, 0) == |p.pre|
    ensures NextHeader(Flatten(p), |p.pre| + 1) == |p.pre| + 1 + |p.body|
    ensures Bounds(Flatten(p), PROXY) == (|p.pre|, |p.pre| + 1 + |p.body|)
    ensures Open(Flatten(p)) == Some(p)
  {
    hide SectionName, IsHeader, FindSection, NextHeader;
    FlattenAt(p);
    FindUnique(Flatten(p), {PROXY}, |p.pre|);
    NextUnique(Flatten(p), |p.pre| + 1, |p.pre| + 1 + |p.body|);
  }

  lemma Reassemble(lines: seq<string>, s: nat, e: nat)
    requires s < e <= |lines|
    ensures Flatten(Parts(lines[..s], lines[s], lines[s + 1..e], lines[e..])) == lines
  {
  }

  lemma OpenIsValid(lines: seq<string>)
    ensures Open(lines).Some? ==> ValidParts(Open(lines).value) && Flatten(Open(lines).value) == lines
    ensures Open(lines).None? <==> forall i | 0 <= i < |lines| :: SectionName(lines[i]) != PROXY
    ensures Open(lines).Some? <==> Bounds(lines, PROXY).0 != -1
  {
    var s := FindSection(lines, {PROXY}, 0);
    if s < |lines| {
      var e := NextHeader(lines, s + 1);
      Reassemble(lines, s, e);
      OpenParts(lines, s, e);
    }
  }

  lemma OpenParts(lines: seq<string>, s: nat, e: nat)
    requires s == FindSection(lines, {PROXY}, 0) && s < |lines| && e == NextHeader(lines, s + 1)
    ensures ValidParts(Parts(lines[..s], lines[s], lines[s + 1..e], lines[e..]))
  {
  }

  // ---------- a missing section ----------

  const BEFORE: set<string> := {"[proxy group]", "[rule]"}

  /** Where insertProxySection puts a missing section. */
  function InsertPoint(lines: seq<string>): (at: nat)
    ensures at <= |lines|
  {
    var g := FindSection(lines, {GENERAL}, 0);
    if g < |lines| then NextHeader(lines, g + 1) else FindSection(lines, BEFORE, 0)
  }

  /** The first line under this header. */
  predicate FirstNamed(lines: seq<string>, name: string, k: int) {
    0 <= k < |lines| && SectionName(lines[k]) == name && forall j | 0 <= j < k :: SectionName(lines[j]) != name
  }

  predicate HasSection(lines: seq<string>, name: string) {
    exists k :: 0 <= k < |lines| && SectionName(lines[k]) == name
  }

  /** A missing section goes to the end of [General]; without that, before the first [Proxy Group]
      or [Rule]; without these, to the end of the file. */
  lemma InsertPlace(lines: seq<string>)
    ensures var at := InsertPoint(lines);
      if HasSection(lines, "[general]") then
        exists g :: FirstNamed(lines, "[general]", g) && g < at && (at < |lines| ==> IsHeader(lines[at]))
                    && forall j | g < j < at :: !IsHeader(lines[j])
      else
        && (at < |lines| ==> SectionName(lines[at]) == "[proxy group]" || SectionName(lines[at]) == "[rule]")
        && forall j | 0 <= j < at :: SectionName(lines[j]) != "[proxy group]" && SectionName(lines[j]) != "[rule]"
  {
    hide SectionName;
    var g := FindSection(lines, {GENERAL}, 0);
    assert g < |lines| ==> FirstNamed(lines, "[general]", g);
  }

  lemma InsertPointAtHeader(lines: seq<string>)
    ensures InsertPoint(lines) < |lines| ==> IsHeader(lines[InsertPoint(lines)])
  {
  }

  /** The file with an inserted section, as parts: blank lines keep it apart. */
  function Inserted(lines: seq<string>): Parts {
    var at := InsertPoint(lines);
    Parts(lines[..at] + (if at > 0 && !Blank(lines[at - 1]) then [""] else []),
          PROXY_HEADER,
          if at < |lines| then [""] else [],
          lines[at..])
  }

  lemma EmptyLine()
    ensures Trim("") == "" && Blank("") && !IsHeader("") && SectionName("") == []
  {
  }

  /** The inserted section is found again, and holds only blank lines. */
  lemma InsertedIsValid(lines: seq<string>)
    requires Open(lines).None?
    ensures ValidParts(Inserted(lines))
    ensures forall i | 0 <= i < |Inserted(lines).body| :: Blank(Inserted(lines).body[i])
  {
    OpenIsValid(lines);
    InsertPointAtHeader(lines);
    EmptyLine();
    ProxyHeader();
    hide SectionName, Blank;
  }

  /** The parts to edit: the section that is there, or a new one. */
  function OpenOrInsert(lines: seq<string>): Parts {
    match Open(lines)
    case Some(p) => p
    case None => Inserted(lines)
  }

  lemma OpenOrInsertValid(lines: seq<string>)
    ensures ValidParts(OpenOrInsert(lines))
  {
    OpenIsValid(lines);
    if Open(lines).None? {
      InsertedIsValid(lines);
    }
  }
}

/** Policy names: sanitizeName of internal/surge/line.go; proxyLineName, proxyNames and
    uniqueName of internal/surge/proxy_parse.go. */
module Names {
  import opened Text

  const DEFAULT_NAME := "xcore-bridge"

  /** A character that `[^\p{L}\p{N}_. -]+` leaves alone.  The byte order mark and the wide
      spaces are not in categories L and N. */
  predicate IsNameChar(c: char) {
    || 'a' <= c <= 'z' || 'A' <= c <= 'Z' || IsDigit(c) || c == '_' || c == '.' || c == ' ' || c == '-'
    || (c > '\U{007F}' && c in WIDE_LETTERS && !IsSpace(c) && c != BOM)
  }

  /** Replace every maximal run of other characters by one '-'. */
  function ReplaceUnsafe(s: string, inRun: bool): string
    decreases |s|
  {
    if s == [] then []
    else if IsNameChar(s[0]) then [s[0]] + ReplaceUnsafe(s[1..], false)
    else (if inRun then [] else ['-']) + ReplaceUnsafe(s[1..], true)
  }

  /** Length of the leading run without space. */
  function WordLen(s: string): (n: nat)
    ensures n <= |s| && (forall i | 0 <= i < n :: !IsSpace(s[i])) && (n < |s| ==> IsSpace(s[n]))
  {
    if s == [] || IsSpace(s[0]) then 0 else 1 + WordLen(s[1..])
  }

  /** strings.Fields */
  function Words(s: string): seq<string>
    decreases |s|
  {
    if s == [] then []
    else if IsSpace(s[0]) then Words(s[1..])
    else [s[..WordLen(s)]] + Words(s[WordLen(s)..])
  }

  /** sanitizeName as a function */
  function Sanitize(name: string): string {
    Join(Words(ReplaceUnsafe(Trim(name), false)), " ")
  }

  // ---------- what a sanitized name looks like ----------

  /** Only name characters, no space at either end and no two spaces in a row. */
  predicate Clean(n: string) {
    && (forall i | 0 <= i < |n| :: IsNameChar(n[i]))
    && Trimmed(n)
    && forall i | 0 <= i < |n| - 1 :: !(n[i] == ' ' && n[i + 1] == ' ')
  }

  predicate GoodWord(w: string) {
    w != [] && forall i | 0 <= i < |w| :: IsNameChar(w[i]) && w[i] != ' '
  }

  lemma {:induction false} ReplaceUnsafeSafe(s: string, inRun: bool)
    ensures forall c | c in ReplaceUnsafe(s, inRun) :: IsNameChar(c)
    decreases |s|
  {
    if s != [] {
      ReplaceUnsafeSafe(s[1..], !IsNameChar(s[0]));
    }
  }

  lemma {:induction false} WordsGood(s: string)
    requires forall c | c in s :: IsNameChar(c)
    ensures forall w | w in Words(s) :: GoodWord(w)
    decreases |s|
  {
    if s != [] {
      assert s[0] in s;
      if IsSpace(s[0]) {
        WordsGood(s[1..]);
      } else {
        WordsGood(s[WordLen(s)..]);
      }
    }
  }

  lemma CleanJoin(w: string, n: string)
    requires GoodWord(w) && Clean(n) && n != []
    ensures Clean(w + " " + n)
  {
    assert IsNameChar(w[|w| - 1]);
  }

  lemma {:induction false} JoinedWordsClean(ws: seq<string>)
    requires forall w | w in ws :: GoodWord(w)
    ensures Clean(Join(ws, " ")) && (ws != [] ==> Join(ws, " ") != [])
  {
    if ws != [] {
      assert GoodWord(ws[0]);
      if |ws| > 1 {
        JoinedWordsClean(ws[1..]);
        CleanJoin(ws[0], Join(ws[1..], " "));
      }
    }
  }

  lemma SanitizeIsClean(name: string)
    ensures Clean(Sanitize(name))
  {
    var s := ReplaceUnsafe(Trim(name), false);
    ReplaceUnsafeSafe(Trim(name), false);
    WordsGood(s);
    JoinedWordsClean(Words(s));
  }

  lemma {:induction false} ReplaceUnsafeId(s: string)
    requires forall i | 0 <= i < |s| :: IsNameChar(s[i])
    ensures ReplaceUnsafe(s, false) == s
  {
    if s != [] {
      ReplaceUnsafeId(s[1..]);
    }
  }

  lemma {:induction false} WordsOfClean(n: string)
    requires Clean(n) && n != []
    ensures Words(n) != [] && Join(Words(n), " ") == n
    decreases |n|
  {
    var k := WordLen(n);
    if k == |n| {
      assert n[..k] == n && n[k..] == [];
    } else {
      assert IsNameChar(n[k]);
      assert n[k] == ' ';
      assert n == n[..k] + " " + n[k + 1..];
      assert n[k..][1..] == n[k + 1..];
      WordsOfClean(n[k + 1..]);
      assert ([n[..k]] + Words(n[k + 1..]))[1..] == Words(n[k + 1..]);
    }
  }

  /** sanitizeName fixes exactly the clean names; in particular it is idempotent. */
  lemma SanitizeFixes(n: string)
    ensures Sanitize(n) == n <==> Clean(n)
    ensures Sanitize(Sanitize(n)) == Sanitize(n)
  {
    SanitizeIsClean(n);
    CleanIsFixed(Sanitize(n));
    if Clean(n) {
      CleanIsFixed(n);
    }
  }

  lemma CleanIsFixed(n: string)
    requires Clean(n)
    ensures Sanitize(n) == n
  {
    TrimOfTrimmed(n);
    ReplaceUnsafeId(n);
    if n != [] {
      WordsOfClean(n);
    }
  }

  /** Spaces around a clean name do not matter. */
  lemma SanitizePadded(a: string, n: string, b: string)
    requires Clean(n) && AllSpace(a) && AllSpace(b)
    ensures Sanitize(a + n + b) == n
  {
    TrimPad(a, n, b);
    TrimOfTrimmed(n);
    CleanIsFixed(n);
  }

  // ---------- what sanitizing does ----------

  predicate AllUnsafe(s: string) {
    forall i | 0 <= i < |s| :: !IsNameChar(s[i])
  }

  lemma DropPrefix(x: string, s: string, n: nat)
    requires n <= |x|
    ensures (x + s)[n..] == x[n..] + s && (x + s)[..n] == x[..n]
  {
  }

  lemma ReplaceHead(s: string, inRun: bool)
    requires s != []
    ensures ReplaceUnsafe(s, inRun) ==
      (if IsNameChar(s[0]) then [s[0]] else if inRun then [] else ['-']) + ReplaceUnsafe(s[1..], !IsNameChar(s[0]))
  {
    hide IsNameChar;
  }

  /** Replacing goes piece by piece; only whether a run is open carries over. */
  lemma {:induction false} ReplaceAppend(a: string, b: string, inRun: bool)
    ensures ReplaceUnsafe(a + b, inRun)
         == ReplaceUnsafe(a, inRun) + ReplaceUnsafe(b, if a == [] then inRun else !IsNameChar(a[|a| - 1]))
    decreases |a|
  {
    hide IsNameChar;
    if a == [] {
      assert a + b == b;
    } else {
      ReplaceAppend(a[1..], b, !IsNameChar(a[0]));
      ReplaceHead(a, inRun);
      ReplaceHead(a + b, inRun);
      DropPrefix(a, b, 1);
      hide ReplaceUnsafe;
      var x, y := ReplaceUnsafe(a[1..], !IsNameChar(a[0])), ReplaceUnsafe(b, !IsNameChar(a[|a| - 1]));
      forall h: string ensures h + (x + y) == h + x + y {
      }
    }
  }

  lemma {:induction false} ReplaceRun(u: string, inRun: bool)
    requires AllUnsafe(u)
    ensures ReplaceUnsafe(u, inRun) == if u == [] || inRun then [] else "-"
    decreases |u|
  {
    hide IsNameChar;
    if u != [] {
      ReplaceRun(u[1..], true);
    }
  }

  /** A whole run of other characters counts as one hyphen. */
  lemma ReplacedRun(a: string, u: string, b: string)
    requires u != [] && AllUnsafe(u)
    requires (a == [] || IsNameChar(a[|a| - 1])) && (b == [] || IsNameChar(b[0]))
    ensures ReplaceUnsafe(a + u + b, false) == ReplaceUnsafe(a + "-" + b, false)
  {
    hide IsNameChar, ReplaceUnsafe;
    HyphenStays(b);
    ReplaceAppend(a, u + b, false);
    ReplaceAppend(a, "-" + b, false);
    ReplaceAppend(u, b, false);
    ReplaceRun(u, false);
    RunCloses(b);
    assert a + u + b == a + (u + b) && a + "-" + b == a + ("-" + b);
  }

  lemma HyphenStays(b: string)
    ensures ReplaceUnsafe("-" + b, false) == "-" + ReplaceUnsafe(b, false)
  {
    assert IsNameChar('-') && ("-" + b)[1..] == b;
    hide IsNameChar;
  }

  lemma RunCloses(b: string)
    requires b == [] || IsNameChar(b[0])
    ensures ReplaceUnsafe(b, true) == ReplaceUnsafe(b, false)
  {
    hide IsNameChar;
  }

  lemma WordsSkip(s: string)
    requires s != [] && IsSpace(s[0])
    ensures Words(s) == Words(s[1..])
  {
  }

  lemma {:induction false} WordLenIs(s: string, n: nat)
    requires n < |s| && (forall i | 0 <= i < n :: !IsSpace(s[i])) && IsSpace(s[n])
    ensures WordLen(s) == n
  {
    hide IsSpace;
    assert WordLen(s) < |s| ==> IsSpace(s[WordLen(s)]);
  }

  lemma WordsCut(s: string, n: nat)
    requires 0 < n < |s| && (forall i | 0 <= i < n :: !IsSpace(s[i])) && IsSpace(s[n])
    ensures Words(s) == [s[..n]] + Words(s[n..])
  {
    WordLenIs(s, n);
    hide IsSpace, WordLen;
  }

  /** One word in front, or one space. */
  lemma WordsStep(x: string, s: string)
    requires x != [] && s != [] && IsSpace(s[0])
    ensures var n := if IsSpace(x[0]) then 1 else WordLen(x);
      && 0 < n <= |x|
      && Words(x + s) == (if IsSpace(x[0]) then [] else [x[..n]]) + Words(x[n..] + s)
  {
    hide Words, IsSpace;
    var all := x + s;
    assert all[0] == x[0];
    if IsSpace(x[0]) {
      DropPrefix(x, s, 1);
      WordsSkip(all);
    } else {
      var n := WordLen(x);
      WordPositive(x);
      DropPrefix(x, s, n);
      assert IsSpace(all[n]);
      assert forall i | 0 <= i < n :: all[i] == x[i];
      WordsCut(all, n);
    }
  }

  lemma {:induction false} WordsSame(x: string, s: string, t: string)
    requires s != [] && IsSpace(s[0]) && t != [] && IsSpace(t[0]) && Words(s) == Words(t)
    ensures Words(x + s) == Words(x + t)
    decreases |x|
  {
    hide Words, WordLen, IsSpace;
    if x == [] {
      assert x + s == s && x + t == t;
    } else {
      WordsStep(x, s);
      WordsStep(x, t);
      WordsSame(x[if IsSpace(x[0]) then 1 else WordLen(x)..], s, t);
    }
  }

  /** Two blanks separate words as one does. */
  lemma WordsBlanks(x: string, y: string)
    ensures Words(x + ("  " + y)) == Words(x + (" " + y))
  {
    var s, t := "  " + y, " " + y;
    assert s[1..] == t && s[0] == ' ' && IsSpace(' ');
    hide Words, IsSpace;
    WordsSkip(s);
    WordsSame(x, s, t);
  }

  lemma WordPositive(s: string)
    requires s != [] && !IsSpace(s[0])
    ensures WordLen(s) > 0
  {
  }

  /** What sanitizeName does to any text: white space around it does not matter, a whole run of other
      characters counts as one hyphen, and two blanks count as one.  With `SanitizeFixes`, for the
      texts to which none of this applies, these rules fix every result. */
  lemma SanitizeRules(a: string, u: string, b: string)
    ensures AllSpace(a) && AllSpace(b) ==> Sanitize(a + u + b) == Sanitize(u)
    ensures Trimmed(a + u + b) && u != [] && AllUnsafe(u)
      && (a == [] || IsNameChar(a[|a| - 1])) && (b == [] || IsNameChar(b[0]))
      ==> Sanitize(a + u + b) == Sanitize(a + "-" + b)
    ensures Trimmed(a + u + b) && u == "  " ==> Sanitize(a + u + b) == Sanitize(a + " " + b)
  {
    if AllSpace(a) && AllSpace(b) {
      TrimPadded(a, u, b);
    }
    if Trimmed(a + u + b) && u != [] && AllUnsafe(u)
       && (a == [] || IsNameChar(a[|a| - 1])) && (b == [] || IsNameChar(b[0])) {
      TrimmedEnds(a, u, b, "-");
      ReplacedRun(a, u, b);
    }
    if Trimmed(a + u + b) && u == "  " {
      TrimmedEnds(a, u, b, " ");
      BlanksReplaced(a, b);
    }
    hide Words, ReplaceUnsafe, Trim, IsNameChar, Trimmed, AllUnsafe;
  }

  lemma TrimmedEnds(a: string, u: string, b: string, v: string)
    requires Trimmed(a + u + b) && (v == "-" || (v == " " && u == "  "))
    ensures Trim(a + u + b) == a + u + b && Trim(a + v + b) == a + v + b
  {
    TrimOfTrimmed(a + u + b);
    var s, t := a + u + b, a + v + b;
    assert a != [] ==> t[0] == a[0] == s[0];
    assert b != [] ==> t[|t| - 1] == b[|b| - 1] == s[|s| - 1];
    TrimOfTrimmed(t);
  }

  lemma BlanksReplaced(a: string, b: string)
    ensures Words(ReplaceUnsafe(a + "  " + b, false)) == Words(ReplaceUnsafe(a + " " + b, false))
  {
    assert IsNameChar(' ');
    var x := ReplaceUnsafe(a, false);
    assert a + "  " + b == a + ("  " + b) && a + " " + b == a + (" " + b);
    ReplaceAppend(a, "  " + b, false);
    ReplaceAppend(a, " " + b, false);
    BlanksKept(b);
    WordsBlanks(x, ReplaceUnsafe(b, false));
    hide Words, ReplaceUnsafe, IsNameChar;
  }

  lemma BlanksKept(b: string)
    ensures forall r :: ReplaceUnsafe("  " + b, r) == "  " + ReplaceUnsafe(b, false)
    ensures forall r :: ReplaceUnsafe(" " + b, r) == " " + ReplaceUnsafe(b, false)
  {
    assert ("  " + b)[1..] == " " + b && (" " + b)[1..] == b;
  }

  /** sanitizeName: the name is reassigned by each of its three steps. */
  method SanitizeName(raw: string) returns (name: string)
    ensures name == Sanitize(raw)
  {
    name := Trim(raw);
    name := ReplaceUnsafe(name, false);
    name := Join(Words(name), " ");
  }

  // ---------- names of proxy lines ----------

  predicate IsComment(line: string) {
    var t := Trim(line);
    t == [] || t[0] == '#' || t[0] == ';'
  }

  /** proxyLineName; the empty string stands for "no name". */
  function LineName(line: string): string {
    var t := Trim(line);
    if IsComment(line) || Index(t, '=') == |t| then [] else Sanitize(t[..Index(t, '=')])
  }

  /** The names of the proxy lines, in order. */
  function NamesOf(lines: seq<string>): seq<string> {
    if lines == [] then []
    else (if LineName(lines[0]) == [] then [] else [LineName(lines[0])]) + NamesOf(lines[1..])
  }

  lemma {:induction false} NamesAppend(a: seq<string>, b: seq<string>)
    ensures NamesOf(a + b) == NamesOf(a) + NamesOf(b)
  {
    if a == [] {
      assert a + b == b;
    } else {
      assert (a + b)[1..] == a[1..] + b;
      NamesAppend(a[1..], b);
    }
  }

  lemma NamesSnoc(lines: seq<string>, i: nat)
    requires i < |lines|
    ensures NamesOf(lines[..i + 1]) ==
      NamesOf(lines[..i]) + if LineName(lines[i]) == [] then [] else [LineName(lines[i])]
  {
    hide LineName;
    var last := [lines[i]];
    assert lines[..i + 1] == lines[..i] + last && last[1..] == [];
    NamesAppend(lines[..i], last);
    assert [LineName(lines[i])] + [] == [LineName(lines[i])];
  }

  /** proxyNames */
  method ProxyNames(lines: seq<string>) returns (names: seq<string>)
    ensures names == NamesOf(lines)
  {
    hide NamesOf, Sanitize, Trim, Index;
    names := [];
    NoNames();
    assert lines[..0] == [];
    for i := 0 to |lines|
      invariant names == NamesOf(lines[..i])
    {
      NamesSnoc(lines, i);
      var t := Trim(lines[i]);
      if t == [] || t[0] == '#' || t[0] == ';' {
        continue;
      }
      var eq := Index(t, '=');
      if eq == |t| {
        continue;
      }
      var name := SanitizeName(t[..eq]);
      if name != [] {
        names := names + [name];
      }
    }
    assert lines[..|lines|] == lines;
  }

  lemma NoNames()
    ensures NamesOf([]) == []
  {
  }

  // ---------- unique names ----------

  /** The i-th name that uniqueName tries. */
  function Candidate(base: string, i: nat): string {
    if i <= 1 then base else base + " " + Itoa(i)
  }

  function BaseName(raw: string): (base: string)
    ensures base != [] && Clean(base)
  {
    SanitizeIsClean(raw);
    if Sanitize(raw) == [] then DEFAULT_NAME else Sanitize(raw)
  }

  lemma CandidateInjective(base: string, i: nat, j: nat)
    requires 1 <= i && 1 <= j && Candidate(base, i) == Candidate(base, j)
    ensures i == j
  {
    if i > 1 && j > 1 {
      assert Itoa(i) == Candidate(base, i)[|base| + 1..];
      assert Itoa(j) == Candidate(base, j)[|base| + 1..];
      ItoaInjective(i, j);
    }
  }

  lemma {:induction false} CandidatesDistinct(base: string, n: nat)
    ensures |set i | 1 <= i <= n :: Candidate(base, i)| == n
  {
    var s := set i | 1 <= i <= n :: Candidate(base, i);
    if n == 0 {
      assert s == {};
    } else {
      CandidatesDistinct(base, n - 1);
      var s' := set i | 1 <= i <= n - 1 :: Candidate(base, i);
      assert Candidate(base, n) !in s' by {
        forall i | 1 <= i <= n - 1 ensures Candidate(base, i) != Candidate(base, n) {
          if Candidate(base, i) == Candidate(base, n) { CandidateInjective(base, i, n); }
        }
      }
      assert s == s' + {Candidate(base, n)};
    }
  }

  /** Pigeonhole: at most |existing| candidates can be taken. */
  lemma TakenBound(existing: seq<string>, base: string, n: nat)
    requires forall i | 1 <= i <= n :: Candidate(base, i) in existing
    ensures n <= |existing|
  {
    CandidatesDistinct(base, n);
    var s := set i | 1 <= i <= n :: Candidate(base, i);
    SetOfSeqBound(existing);
    SubsetSize(s, set x | x in existing);
  }

  /** The number of the first free candidate. */
  function FirstFree(existing: seq<string>, base: string, i: nat): (k: nat)
    requires 1 <= i && forall j | 1 <= j < i :: Candidate(base, j) in existing
    ensures i <= k <= |existing| + 1 && Candidate(base, k) !in existing
    ensures forall j | 1 <= j < k :: Candidate(base, j) in existing
    decreases |existing| + 1 - i
  {
    TakenBound(existing, base, i - 1);
    if Candidate(base, i) in existing then
      (TakenBound(existing, base, i); FirstFree(existing, base, i + 1))
    else i
  }

  /** uniqueName as a function */
  function Unique(existing: seq<string>, raw: string): string {
    Candidate(BaseName(raw), FirstFree(existing, BaseName(raw), 1))
  }

  lemma AppendNumberClean(base: string, i: nat)
    requires Clean(base) && base != []
    ensures Clean(base + " " + Itoa(i))
  {
    var n := base + " " + Itoa(i);
    forall k | 0 <= k < |n| ensures IsNameChar(n[k]) {
      if k > |base| { assert IsDigit(Itoa(i)[k - |base| - 1]); }
    }
    assert IsDigit(n[|base| + 1]) && IsDigit(n[|n| - 1]);
  }

  /** The name that uniqueName should give: what was asked for, sanitized, or the default name when
      nothing of it is left; if that is taken, with the least number from 2 on that is free. */
  ghost predicate NamedAfter(name: string, raw: string, taken: seq<string>) {
    var want := if Sanitize(raw) == [] then "xcore-bridge" else Sanitize(raw);
    if want !in taken then name == want
    else
      exists k: nat | 2 <= k <= |taken| + 1 ::
        && name == want + " " + Itoa(k) && name !in taken
        && forall j: nat | 2 <= j < k :: want + " " + Itoa(j) in taken
  }

  /** The unique name is that one; it is free and clean. */
  lemma UniqueIsFree(existing: seq<string>, raw: string)
    ensures var u := Unique(existing, raw);
      u !in existing && u != [] && Clean(u) && Sanitize(u) == u
    ensures NamedAfter(Unique(existing, raw), raw, existing)
  {
    hide Itoa, Sanitize, Clean;
    var base := BaseName(raw);
    var k := FirstFree(existing, base, 1);
    if k > 1 {
      AppendNumberClean(base, k);
      assert Candidate(base, 1) in existing;
      forall j: nat | 2 <= j < k ensures base + " " + Itoa(j) in existing {
        assert Candidate(base, j) in existing;
      }
    }
    CleanIsFixed(Unique(existing, raw));
    BaseIs(raw);
  }

  lemma BaseIs(raw: string)
    ensures BaseName(raw) == if Sanitize(raw) == [] then "xcore-bridge" else Sanitize(raw)
  {
  }

  /** contains */
  method Contains(values: seq<string>, target: string) returns (found: bool)
    ensures found <==> target in values
  {
    for i := 0 to |values|
      invariant target !in values[..i]
    {
      if values[i] == target {
        return true;
      }
    }
    assert values[..|values|] == values;
    return false;
  }

  /** uniqueName: the loop ends because only |existing| numbers can be taken. */
  method UniqueName(existing: seq<string>, raw: string) returns (name: string)
    ensures name == Unique(existing, raw)
  {
    var base := SanitizeName(raw);
    if base == [] {
      base := DEFAULT_NAME;
    }
    name := base;
    var i := 2;
    var taken := Contains(existing, name);
    while taken
      invariant 2 <= i && name == Candidate(base, i - 1) && (taken <==> name in existing)
      invariant forall j | 1 <= j < i - 1 :: Candidate(base, j) in existing
      decreases |existing| + 2 - i, taken
    {
      TakenBound(existing, base, i - 1);
      name := base + " " + Itoa(i);
      i := i + 1;
      taken := Contains(existing, name);
    }
    var k := FirstFree(existing, base, 1);
    assert k == i - 1;
  }
}

/** Precedence as in section 11 of Semantic Versioning 2.0.0, written down on its own, and how
    far the comparison of release tags agrees with it. */
module SemVer {
  import opened Text
  import opened Versions

  // ---------- the standard ----------

  /** A version: identifiers of the prerelease, and the build metadata as one text. */
  datatype Semantic = Semantic(major: nat, minor: nat, patch: nat, pre: seq<string>, build: string)

  predicate IsIdChar(c: char) {
    IsDigit(c) || 'a' <= c <= 'z' || 'A' <= c <= 'Z' || c == '-'
  }

  predicate IsNumeric(id: string) {
    id != [] && AllDigits(id)
  }

  /** Sections 2 and 9: no empty identifiers, no leading zeros in numeric ones. */
  predicate ValidId(id: string) {
    && id != [] && (forall i | 0 <= i < |id| :: IsIdChar(id[i]))
    && (IsNumeric(id) && |id| > 1 ==> id[0] != '0')
  }

  predicate Valid(v: Semantic) {
    && (forall i | 0 <= i < |v.pre| :: ValidId(v.pre[i]))
    && (forall i | 0 <= i < |v.build| :: IsIdChar(v.build[i]) || v.build[i] == '.')
  }

  function CoreText(v: Semantic): string {
    Join([Itoa(v.major), Itoa(v.minor), Itoa(v.patch)], ".")
  }

  function PreText(v: Semantic): string {
    if v.pre == [] then [] else "-" + Join(v.pre, ".")
  }

  /** The version as text. */
  function Print(v: Semantic): string {
    CoreText(v) + PreText(v) + if v.build == [] then [] else "+" + v.build
  }

  /** The first difference of two texts is at k, and the first text is lower there. */
  predicate DiffersAt(a: string, b: string, k: int) {
    && 0 <= k <= |a| && k <= |b| && a[..k] == b[..k]
    && (if k == |a| then k < |b| else k < |b| && a[k] < b[k])
  }

  /** 11.4.2: ASCII order. */
  ghost predicate AsciiLess(a: string, b: string) {
    exists k :: DiffersAt(a, b, k)
  }

  /** 11.4.1 to 11.4.3 */
  ghost predicate IdLess(a: string, b: string) {
    if IsNumeric(a) && IsNumeric(b) then DecimalValue(a) < DecimalValue(b)
    else if IsNumeric(a) || IsNumeric(b) then IsNumeric(a)
    else AsciiLess(a, b)
  }

  ghost predicate SameId(a: string, b: string) {
    !IdLess(a, b) && !IdLess(b, a)
  }

  /** 11.4: the first difference decides; 11.4.4: if there is none, the longer list is higher. */
  ghost predicate FirstDifference(a: seq<string>, b: seq<string>, k: int) {
    && 0 <= k <= |a| && k <= |b| && (forall i | 0 <= i < k :: SameId(a[i], b[i]))
    && (if k == |a| then k < |b| else k < |b| && IdLess(a[k], b[k]))
  }

  ghost predicate PreLess(a: seq<string>, b: seq<string>) {
    exists k :: FirstDifference(a, b, k)
  }

  /** 11.2 and 11.3: lower precedence.  Build metadata plays no part (section 10). */
  ghost predicate Less(v: Semantic, w: Semantic) {
    if v.major != w.major then v.major < w.major
    else if v.minor != w.minor then v.minor < w.minor
    else if v.patch != w.patch then v.patch < w.patch
    else if v.pre == [] || w.pre == [] then v.pre != [] && w.pre == []
    else PreLess(v.pre, w.pre)
  }

  // ---------- the range of int ----------

  predicate IdFits(id: string) {
    IsNumeric(id) ==> DecimalValue(id) <= MAX_INT64
  }

  predicate CoreFits(v: Semantic) {
    v.major <= MAX_INT64 && v.minor <= MAX_INT64 && v.patch <= MAX_INT64
  }

  /** Every number in it fits an int; the program could check this before it compares. */
  predicate Fits(v: Semantic) {
    CoreFits(v) && forall i | 0 <= i < |v.pre| :: IdFits(v.pre[i])
  }

  // ---------- parsing ----------

  predicate TagChar(c: char) {
    IsIdChar(c) || c == '.' || c == '+'
  }

  lemma {:induction false} JoinChars(parts: seq<string>)
    requires forall i | 0 <= i < |parts| :: forall k | 0 <= k < |parts[i]| :: IsIdChar(parts[i][k])
    ensures forall k | 0 <= k < |Join(parts, ".")| :: IsIdChar(Join(parts, ".")[k]) || Join(parts, ".")[k] == '.'
  {
    if |parts| > 1 {
      JoinChars(parts[1..]);
    }
  }

  lemma CoreChars(v: Semantic)
    ensures forall k | 0 <= k < |CoreText(v)| :: IsDigit(CoreText(v)[k]) || CoreText(v)[k] == '.'
    ensures CoreText(v) != [] && IsDigit(CoreText(v)[0])
  {
    var x, y, z := Itoa(v.major), Itoa(v.minor), Itoa(v.patch);
    ThreeParts(x, y, z);
    assert IsDigit(x[0]);
    hide Itoa;
  }

  lemma PreChars(v: Semantic)
    requires Valid(v)
    ensures forall k | 0 <= k < |PreText(v)| :: IsIdChar(PreText(v)[k]) || PreText(v)[k] == '.'
  {
    JoinChars(v.pre);
  }

  lemma PrintChars(v: Semantic)
    requires Valid(v)
    ensures forall k | 0 <= k < |Print(v)| :: TagChar(Print(v)[k])
    ensures Print(v) != [] && IsDigit(Print(v)[0])
  {
    CoreChars(v);
    PreChars(v);
    hide CoreText, PreText;
  }

  lemma TagTrimmed(t: string)
    requires forall k | 0 <= k < |t| :: TagChar(t[k])
    ensures Trimmed(t)
  {
    assert forall c | TagChar(c) :: !IsSpace(c);
    assert t != [] ==> TagChar(t[0]) && TagChar(t[|t| - 1]);
  }

  /** White space around a tag and a leading "v" do not matter. */
  lemma StrippedPrint(v: Semantic, lead: string, mark: string, trail: string)
    requires Valid(v) && AllSpace(lead) && AllSpace(trail) && (mark == [] || mark == "v")
    ensures Stripped(lead + (mark + Print(v)) + trail) == Print(v)
    ensures !EqualFold(Print(v), "dev")
  {
    PrintChars(v);
    var t := mark + Print(v);
    hide Print, EqualFold, TagChar, AllSpace, Trim;
    MarkIsTag();
    NotDev(Print(v));
    TagTrimmed(t);
    TrimPad(lead, t, trail);
    assert t[|mark|..] == Print(v);
  }

  lemma MarkIsTag()
    ensures TagChar('v')
  {
  }

  lemma CutPrint(v: Semantic)
    requires Valid(v)
    ensures var base := Before(Print(v), '+');
      Before(base, '-') == CoreText(v) && Behind(base, '-') == Join(v.pre, ".")
  {
    CoreChars(v);
    PreChars(v);
    var core, pre, list := CoreText(v), PreText(v), Join(v.pre, ".");
    BeforeAt(core + pre, '+', v.build);
    BeforeAt(core, '-', list);
    hide CoreText, Before, Behind, Join;
    assert Print(v) == if v.build == [] then core + pre else core + pre + ['+'] + v.build;
    assert core + pre == if v.pre == [] then core else core + ['-'] + list;
    assert v.pre == [] ==> list == [] by { JoinNone(); }
  }

  lemma JoinNone()
    ensures Join([], ".") == []
  {
  }

  lemma SplitPrint(v: Semantic)
    requires Valid(v)
    ensures Split(CoreText(v), '.') == [Itoa(v.major), Itoa(v.minor), Itoa(v.patch)]
    ensures v.pre != [] ==> Join(v.pre, ".") != [] && Split(Join(v.pre, "."), '.') == v.pre
  {
    var parts := [Itoa(v.major), Itoa(v.minor), Itoa(v.patch)];
    forall p | p in parts ensures '.' !in p {
      assert AllDigits(p);
    }
    SplitOfJoin(parts, '.');
    if v.pre != [] {
      forall p | p in v.pre ensures '.' !in p {
        var i :| 0 <= i < |v.pre| && v.pre[i] == p;
        assert ValidId(v.pre[i]);
      }
      assert ValidId(v.pre[0]);
      SplitOfJoin(v.pre, '.');
    }
  }

  lemma NumberOfItoa(n: nat)
    ensures Number(Itoa(n)) == if n <= MAX_INT64 then Some(n) else None
  {
    assert IsDigit(Itoa(n)[0]);
  }

  /** A version text parses to its parts if the numbers of its core fit, and else not at all. */
  lemma ParsePrint(v: Semantic, lead: string, mark: string, trail: string)
    requires Valid(v) && AllSpace(lead) && AllSpace(trail) && (mark == [] || mark == "v")
    ensures Parse(lead + (mark + Print(v)) + trail)
         == if CoreFits(v) then Some(Version(v.major, v.minor, v.patch, v.pre)) else None
  {
    hide Print, CoreText, Itoa, Number, Stripped, Split, Before, Behind, EqualFold, AllSpace;
    StrippedPrint(v, lead, mark, trail);
    PrintChars(v);
    CutPrint(v);
    SplitPrint(v);
    NumberOfItoa(v.major);
    NumberOfItoa(v.minor);
    NumberOfItoa(v.patch);
  }

  // ---------- agreement ----------

  lemma AsciiHead(a: string, b: string)
    requires a != [] && b != [] && a[0] != b[0]
    ensures AsciiLess(a, b) <==> a[0] < b[0]
  {
    assert a[..0] == b[..0] && (DiffersAt(a, b, 0) <==> a[0] < b[0]);
    forall k | 0 < k <= |a| && k <= |b| ensures a[..k] != b[..k] {
      assert a[..k][0] != b[..k][0];
    }
  }

  lemma AsciiEmpty(a: string, b: string)
    requires a == [] || b == []
    ensures AsciiLess(a, b) <==> a == [] && b != []
  {
    assert a[..0] == b[..0] && (DiffersAt(a, b, 0) <==> a == [] && b != []);
  }

  lemma {:induction false} StringsAgree(a: string, b: string)
    ensures CompareStrings(a, b) < 0 <==> AsciiLess(a, b)
    decreases |a|
  {
    hide AsciiLess;
    if a == [] || b == [] {
      AsciiEmpty(a, b);
    } else if a[0] == b[0] {
      StringsAgree(a[1..], b[1..]);
      AsciiTail(a, b);
    } else {
      AsciiHead(a, b);
    }
  }

  lemma DiffersTail(a: string, b: string, k: nat)
    requires a != [] && b != [] && a[0] == b[0]
    ensures DiffersAt(a, b, k + 1) <==> DiffersAt(a[1..], b[1..], k)
  {
    if k + 1 <= |a| && k + 1 <= |b| {
      assert a[..k + 1] == [a[0]] + a[1..][..k] && b[..k + 1] == [b[0]] + b[1..][..k];
      assert a[1..][..k] == a[..k + 1][1..] && b[1..][..k] == b[..k + 1][1..];
    }
  }

  lemma AsciiTail(a: string, b: string)
    requires a != [] && b != [] && a[0] == b[0]
    ensures AsciiLess(a, b) <==> AsciiLess(a[1..], b[1..])
  {
    assert !DiffersAt(a, b, 0);
    hide DiffersAt;
    if k :| DiffersAt(a, b, k) {
      DiffersIsNat(a, b, k);
      DiffersTail(a, b, k - 1);
    }
    if k :| DiffersAt(a[1..], b[1..], k) {
      DiffersIsNat(a[1..], b[1..], k);
      DiffersTail(a, b, k);
    }
  }

  lemma DiffersIsNat(a: string, b: string, k: int)
    requires DiffersAt(a, b, k)
    ensures k >= 0
  {
  }

  lemma NumberOfId(a: string)
    requires IdFits(a)
    ensures Number(a) == if IsNumeric(a) then Some(DecimalValue(a)) else None
  {
    if IsNumeric(a) {
      assert IsDigit(a[0]);
    }
  }

  lemma IdsAgree(a: string, b: string)
    requires IdFits(a) && IdFits(b)
    ensures CompareIds(a, b) < 0 <==> IdLess(a, b)
    ensures CompareIds(a, b) == 0 <==> SameId(a, b)
  {
    NumberOfId(a);
    NumberOfId(b);
    StringsAgree(a, b);
    StringsAgree(b, a);
    StringsOrder(a, b, b);
    hide Number, CompareStrings, AsciiLess, DecimalValue;
  }

  lemma {:induction false} ListsAgree(a: seq<string>, b: seq<string>)
    requires forall i | 0 <= i < |a| :: IdFits(a[i])
    requires forall i | 0 <= i < |b| :: IdFits(b[i])
    ensures CompareLists(a, b) < 0 <==> PreLess(a, b)
    decreases |a|
  {
    hide CompareIds, IdLess, IdFits;
    if a == [] {
      assert b != [] ==> FirstDifference(a, b, 0);
    } else if b != [] {
      IdsAgree(a[0], b[0]);
      IdsAgree(b[0], a[0]);
      ListsAgree(a[1..], b[1..]);
      DifferenceHead(a, b);
    }
  }

  lemma DifferenceHead(a: seq<string>, b: seq<string>)
    requires a != [] && b != []
    ensures PreLess(a, b) <==> IdLess(a[0], b[0]) || (SameId(a[0], b[0]) && PreLess(a[1..], b[1..]))
  {
    hide IdLess;
    if PreLess(a, b) {
      var k :| FirstDifference(a, b, k);
      if k > 0 {
        assert SameId(a[0], b[0]) && FirstDifference(a[1..], b[1..], k - 1);
      }
    }
    if IdLess(a[0], b[0]) {
      assert FirstDifference(a, b, 0);
    }
    if SameId(a[0], b[0]) && PreLess(a[1..], b[1..]) {
      var k :| FirstDifference(a[1..], b[1..], k);
      forall i | 0 <= i < k + 1 ensures SameId(a[i], b[i]) {
        if i > 0 { assert SameId(a[1..][i - 1], b[1..][i - 1]); }
      }
      assert FirstDifference(a, b, k + 1);
    }
  }

  /** The comparison of the two texts decides as the standard does. */
  ghost predicate Agrees(v: Semantic, w: Semantic) {
    && (Compare(Print(v), Print(w)) < 0 <==> Less(v, w))
    && (Compare(Print(v), Print(w)) > 0 <==> Less(w, v))
  }

  function Parsed(v: Semantic): Version {
    Version(v.major, v.minor, v.patch, v.pre)
  }

  lemma VersionsAgree(v: Semantic, w: Semantic)
    requires Fits(v) && Fits(w)
    ensures CompareVersions(Parsed(v), Parsed(w)) < 0 <==> Less(v, w)
  {
    ListsAgree(v.pre, w.pre);
    hide CompareLists, PreLess;
  }

  lemma PrintParses(v: Semantic)
    requires Valid(v)
    ensures Parse(Print(v)) == if CoreFits(v) then Some(Parsed(v)) else None
  {
    ParsePrint(v, [], [], []);
    assert [] + ([] + Print(v)) + [] == Print(v);
  }

  /** Versions whose numbers fit an int are ordered exactly as in section 11. */
  lemma FittingAgree(v: Semantic, w: Semantic)
    requires Valid(v) && Valid(w) && Fits(v) && Fits(w)
    ensures Agrees(v, w)
  {
    PrintParses(v);
    PrintParses(w);
    VersionsAgree(v, w);
    VersionsAgree(w, v);
    VersionsOrder(Parsed(v), Parsed(w), Parsed(w));
    hide Print, Parse, CompareVersions, Less;
  }

  /** The same holds for all spellings of their tags: with white space around, with or without
      a leading "v". */
  lemma FittingTagsAgree(v: Semantic, lead: string, mark: string, trail: string,
                         w: Semantic, lead': string, mark': string, trail': string)
    requires Valid(v) && Fits(v) && AllSpace(lead) && AllSpace(trail) && (mark == [] || mark == "v")
    requires Valid(w) && Fits(w) && AllSpace(lead') && AllSpace(trail') && (mark' == [] || mark' == "v")
    ensures var a, b := lead + (mark + Print(v)) + trail, lead' + (mark' + Print(w)) + trail';
      (Compare(a, b) < 0 <==> Less(v, w)) && (Compare(a, b) > 0 <==> Less(w, v))
  {
    ParsePrint(v, lead, mark, trail);
    ParsePrint(w, lead', mark', trail');
    VersionsAgree(v, w);
    VersionsAgree(w, v);
    VersionsOrder(Parsed(v), Parsed(w), Parsed(w));
    hide Print, Parse, CompareVersions, Less;
  }

  // ---------- where it ends ----------

  /** The first number of the prerelease that does not fit. */
  function FirstBig(pre: seq<string>): (i: nat)
    ensures i <= |pre| && forall j | 0 <= j < i :: IdFits(pre[j])
    ensures i < |pre| ==> !IdFits(pre[i])
  {
    if pre == [] || !IdFits(pre[0]) then 0 else 1 + FirstBig(pre[1..])
  }

  /** A number that does not fit is compared as text, and so is above the identifier "-". */
  lemma BigAboveHyphen(id: string)
    requires !IdFits(id)
    ensures CompareIds(id, "-") > 0 && IdLess(id, "-")
  {
    assert IsDigit(id[0]);
    assert Number(id).None? && !IsDigit("-"[0]);
    assert Number("-").None? && !IsNumeric("-");
  }

  lemma {:induction false} SameHead(head: seq<string>, a: string, rest: seq<string>, b: string)
    requires CompareIds(a, b) > 0
    ensures CompareLists(head + [a] + rest, head + [b]) > 0
  {
    hide CompareIds;
    var x, y := head + [a] + rest, head + [b];
    if head == [] {
      assert x[0] == a && y[0] == b;
    } else {
      IdsOrder(head[0], head[0], head[0]);
      assert x[0] == head[0] && y[0] == head[0];
      assert x[1..] == head[1..] + [a] + rest && y[1..] == head[1..] + [b];
      SameHead(head[1..], a, rest, b);
    }
  }

  /** The version that a prerelease with an overflowing number is compared with wrongly. */
  function Witness(v: Semantic): Semantic {
    if !CoreFits(v) then Semantic(0, 0, 0, [], [])
    else v.(pre := v.pre[..FirstBig(v.pre)] + ["-"], build := [])
  }

  lemma WitnessFits(v: Semantic)
    requires Valid(v)
    ensures Valid(Witness(v)) && Fits(Witness(v))
  {
    assert !IsDigit("-"[0]) && ValidId("-") && IdFits("-");
    hide ValidId, IdFits;
  }

  lemma BigCoreDisagrees(v: Semantic)
    requires Valid(v) && !CoreFits(v)
    ensures !Agrees(v, Witness(v))
  {
    WitnessFits(v);
    PrintParses(v);
    PrintParses(Witness(v));
    hide Print, Parse;
  }

  lemma WitnessPre(v: Semantic)
    requires CoreFits(v) && !Fits(v)
    ensures v.pre != [] && Witness(v).pre != []
    ensures CompareLists(v.pre, Witness(v).pre) > 0 && PreLess(v.pre, Witness(v).pre)
  {
    hide CompareLists, IdLess, CompareIds, ValidId, IdFits;
    var i := FirstBig(v.pre);
    var head, big, rest := v.pre[..i], v.pre[i], v.pre[i + 1..];
    assert v.pre == head + [big] + rest;
    BigAboveHyphen(big);
    SameHead(head, big, rest, "-");
    SameIds(head);
    assert FirstDifference(v.pre, head + ["-"], i);
  }

  lemma BigPreDisagrees(v: Semantic)
    requires Valid(v) && CoreFits(v) && !Fits(v)
    ensures !Agrees(v, Witness(v))
  {
    WitnessPre(v);
    WitnessFits(v);
    hide Print, Parse, CompareLists, PreLess, Valid;
    PrintParses(v);
    PrintParses(Witness(v));
  }

  lemma WitnessDisagrees(v: Semantic)
    requires Valid(v) && !Fits(v)
    ensures !Agrees(v, Witness(v))
  {
    hide Agrees;
    if CoreFits(v) {
      BigPreDisagrees(v);
    } else {
      BigCoreDisagrees(v);
    }
  }

  lemma SameIds(head: seq<string>)
    ensures forall i | 0 <= i < |head| :: SameId(head[i], head[i])
  {
    forall i | 0 <= i < |head| ensures SameId(head[i], head[i]) {
      StringsAgree(head[i], head[i]);
      StringsOrder(head[i], head[i], head[i]);
    }
  }

  /** A version is ordered as in the standard against all versions whose numbers fit an int
      exactly when its own numbers do. */
  lemma AgreesExactlyIfFits(v: Semantic)
    requires Valid(v)
    ensures (forall w | Valid(w) && Fits(w) :: Agrees(v, w)) <==> Fits(v)
  {
    hide Agrees, Fits, Valid;
    if Fits(v) {
      forall w | Valid(w) && Fits(w) ensures Agrees(v, w) {
        FittingAgree(v, w);
      }
    } else {
      WitnessFits(v);
      WitnessDisagrees(v);
    }
  }
}

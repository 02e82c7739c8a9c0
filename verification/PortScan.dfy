/** The `localPortPattern` scanner of internal/surge/proxy_parse.go. */
module PortScan {
  import opened Text
  import opened Ports
  import Names

  const KEY := "local-port"

  // ---------- the pattern ----------
  // (?i)(?:^|,\s*)local-port\s*=\s*([0-9]+)\s*(?:,|[#;]|$)

  /** `\s` of the regular expression */
  predicate RegexSpace(c: char) {
    c == '\t' || c == '\n' || c == '\U{000C}' || c == '\r' || c == ' '
  }

  /** The first position from `i` on that is not `\s`. */
  function SkipSpace(s: string, i: nat): (k: nat)
    requires i <= |s|
    ensures i <= k <= |s| && (forall j | i <= j < k :: RegexSpace(s[j])) && (k < |s| ==> !RegexSpace(s[k]))
    decreases |s| - i
  {
    if i < |s| && RegexSpace(s[i]) then SkipSpace(s, i + 1) else i
  }

  /** The first position from `i` on that is not a digit. */
  function SkipDigits(s: string, i: nat): (k: nat)
    requires i <= |s|
    ensures i <= k <= |s| && (forall j | i <= j < k :: IsDigit(s[j])) && (k < |s| ==> !IsDigit(s[k]))
    decreases |s| - i
  {
    if i < |s| && IsDigit(s[i]) then SkipDigits(s, i + 1) else i
  }

  /** A match of the pattern: the digits it captures and the position after it. */
  datatype Match = Match(digits: string, end: nat)

  /** The pattern from `local-port` on, at position `j`. */
  function MatchBody(s: string, j: nat): (m: Option<Match>)
    requires j <= |s|
    ensures m.Some? ==> AllDigits(m.value.digits) && m.value.digits != [] && j + 10 < m.value.end <= |s|
  {
    if j + 10 > |s| || ToLower(s[j..j + 10]) != KEY then None
    else
      var e := SkipSpace(s, j + 10);
      if e == |s| || s[e] != '=' then None
      else
        var d := SkipSpace(s, e + 1);
        var t := SkipDigits(s, d);
        var u := SkipSpace(s, t);
        if t == d then None
        else if u == |s| then Some(Match(s[d..t], u))
        else if s[u] == ',' || s[u] == '#' || s[u] == ';' then Some(Match(s[d..t], u + 1))
        else None
  }

  /** The whole pattern at position `i`: `^` is tried before the comma. */
  function MatchAt(s: string, i: nat): (m: Option<Match>)
    requires i <= |s|
    ensures m.Some? ==> AllDigits(m.value.digits) && i < m.value.end <= |s|
  {
    if i == 0 && MatchBody(s, 0).Some? then MatchBody(s, 0)
    else if i < |s| && s[i] == ',' then MatchBody(s, SkipSpace(s, i + 1))
    else None
  }

  /** FindAllStringSubmatch: leftmost matches that do not overlap, from position `i` on. */
  function Captures(s: string, i: nat): seq<string>
    requires i <= |s|
    decreases |s| - i
  {
    match MatchAt(s, i)
    case Some(m) => [m.digits] + Captures(s, m.end)
    case None => if i == |s| then [] else Captures(s, i + 1)
  }

  /** The ports that the captured digits stand for. */
  function PortsIn(captures: seq<string>): set<int> {
    set c | c in captures && Atoi(c).Some? && IsPort(Atoi(c).value) :: Atoi(c).value
  }

  function LinePorts(line: string): set<int> {
    if Names.IsComment(line) then {} else PortsIn(Captures(line, 0))
  }

  /** localPorts as a function */
  function PortsOf(lines: seq<string>): set<int> {
    if lines == [] then {} else LinePorts(lines[0]) + PortsOf(lines[1..])
  }

  lemma {:induction false} PortsAppend(a: seq<string>, b: seq<string>)
    ensures PortsOf(a + b) == PortsOf(a) + PortsOf(b)
  {
    if a == [] {
      assert a + b == b;
    } else {
      assert (a + b)[1..] == a[1..] + b;
      PortsAppend(a[1..], b);
    }
  }

  /** localPorts: a map filled line by line and match by match. */
  method LocalPorts(lines: seq<string>) returns (ports: set<int>)
    ensures ports == PortsOf(lines)
  {
    ports := {};
    assert lines[..0] == [];
    for i := 0 to |lines|
      invariant ports == PortsOf(lines[..i])
    {
      PortsSnoc(lines, i);
      var t := Trim(lines[i]);
      if t == [] || t[0] == '#' || t[0] == ';' {
        continue;
      }
      ports := AddCaptures(ports, Captures(lines[i], 0));
    }
    assert lines[..|lines|] == lines;
  }

  lemma PortsSnoc(lines: seq<string>, i: nat)
    requires i < |lines|
    ensures PortsOf(lines[..i + 1]) == PortsOf(lines[..i]) + LinePorts(lines[i])
  {
    assert lines[..i + 1] == lines[..i] + [lines[i]] && [lines[i]][1..] == [];
    PortsAppend(lines[..i], [lines[i]]);
  }

  /** The inner loop of localPorts. */
  method AddCaptures(before: set<int>, found: seq<string>) returns (ports: set<int>)
    ensures ports == before + PortsIn(found)
  {
    ports := before;
    for k := 0 to |found|
      invariant ports == before + PortsIn(found[..k])
    {
      assert found[..k + 1] == found[..k] + [found[k]];
      var port := Atoi(found[k]);
      if port.Some? && port.value > 0 && port.value <= MAX_PORT {
        ports := ports + {port.value};
      }
    }
    assert found[..|found|] == found;
  }

  // ---------- soundness of a scan that ignores quotes ----------

  lemma KeyHasNoComma(s: string)
    requires ToLower(s) == KEY
    ensures ',' !in s
  {
    forall i | 0 <= i < |s| ensures s[i] != ',' {
      assert ToLower(s)[i] == Lower(s[i]) && KEY[i] != ',';
    }
  }

  /** Inside a match the only comma after its start is the one that ends it, and that one
      follows a digit or `\s`. */
  lemma MatchBodyCommas(s: string, j: nat, p: nat)
    requires j <= p < |s| && s[p] == ',' && MatchBody(s, j).Some? && p < MatchBody(s, j).value.end
    ensures 0 < p && (IsDigit(s[p - 1]) || RegexSpace(s[p - 1]))
  {
    var e := SkipSpace(s, j + 10);
    var d := SkipSpace(s, e + 1);
    var t := SkipDigits(s, d);
    var u := SkipSpace(s, t);
    KeyHasNoComma(s[j..j + 10]);
    assert forall q | j <= q < j + 10 :: s[q] == s[j..j + 10][q - j];
    assert p >= u;
  }

  /** A match that starts before a comma following neither a digit nor `\s` ends before it. */
  lemma MatchStops(s: string, i: nat, p: nat)
    requires i < p < |s| && s[p] == ',' && !IsDigit(s[p - 1]) && !RegexSpace(s[p - 1])
    requires MatchAt(s, i).Some?
    ensures MatchAt(s, i).value.end <= p
  {
    var m := MatchAt(s, i).value;
    var j := if i == 0 && MatchBody(s, 0).Some? then 0 else SkipSpace(s, i + 1);
    assert forall q | i < q < j :: RegexSpace(s[q]);
    if p < m.end {
      MatchBodyCommas(s, j, p);
    }
  }

  /** The scan reaches every such comma at which the pattern matches, whatever it met before. */
  lemma {:induction false} CaptureReached(s: string, i: nat, p: nat)
    requires i <= p < |s| && s[p] == ',' && MatchAt(s, p).Some?
    requires 0 < p && !IsDigit(s[p - 1]) && !RegexSpace(s[p - 1])
    ensures MatchAt(s, p).value.digits in Captures(s, i)
    decreases |s| - i
  {
    var m := MatchAt(s, i);
    if i < p && m.Some? {
      MatchStops(s, i, p);
      CaptureReached(s, m.value.end, p);
    } else if i < p {
      CaptureReached(s, i + 1, p);
    }
  }

  /** The digits stop where `rest` starts when that is a comma. */
  lemma {:induction false} SkipDigitsOver(s: string, i: nat, k: nat)
    requires i <= k < |s| && !IsDigit(s[k]) && forall j | i <= j < k :: IsDigit(s[j])
    ensures SkipDigits(s, i) == k
    decreases k - i
  {
    if i < k {
      SkipDigitsOver(s, i + 1, k);
    }
  }

  /** `local-port = N, ` matches with N captured. */
  lemma OwnPortBody(s: string, j: nat, digits: string)
    requires AllDigits(digits) && digits != [] && j + 15 + |digits| <= |s|
    requires s[j..j + 10] == KEY && s[j + 10..j + 13] == " = "
    requires s[j + 13..j + 13 + |digits|] == digits && s[j + 13 + |digits|] == ','
    ensures MatchBody(s, j) == Some(Match(digits, j + 14 + |digits|))
  {
    var k := j + 13 + |digits|;
    var t := s[j + 10..j + 13];
    assert t[0] == s[j + 10] && t[1] == s[j + 11] && t[2] == s[j + 12];
    assert SkipSpace(s, j + 10) == j + 11;
    assert forall q | j + 13 <= q < k :: s[q] == digits[q - (j + 13)];
    assert IsDigit(s[j + 13]);
    assert SkipSpace(s, j + 12) == j + 13;
    SkipDigitsOver(s, j + 13, k);
    assert ToLower(KEY) == KEY;
  }

  lemma OwnPortMatch(s: string, p: nat, digits: string)
    requires AllDigits(digits) && digits != [] && 0 < p && p + 17 + |digits| <= |s|
    requires s[p] == ',' && s[p + 1] == ' '
    requires s[p + 2..p + 12] == KEY && s[p + 12..p + 15] == " = "
    requires s[p + 15..p + 15 + |digits|] == digits && s[p + 15 + |digits|] == ','
    ensures MatchAt(s, p) == Some(Match(digits, p + 16 + |digits|))
  {
    assert s[p + 2] == s[p + 2..p + 12][0];
    assert SkipSpace(s, p + 1) == p + 2;
    OwnPortBody(s, p + 2, digits);
  }

  /** Where the parts of the line stand. */
  lemma FieldShape(a: string, key: string, digits: string, b: string)
    requires |key| == 10
    ensures var s, p := a + ", " + key + " = " + digits + ", " + b, |a|;
      && p + 17 + |digits| <= |s| && s[..p] == a && s[p] == ',' && s[p + 1] == ' '
      && s[p + 2..p + 12] == key && s[p + 12..p + 15] == " = "
      && s[p + 15..p + 15 + |digits|] == digits && s[p + 15 + |digits|] == ','
  {
  }

  lemma CapturedPort(captures: seq<string>, n: nat)
    requires IsPort(n) && Itoa(n) in captures
    ensures n in PortsIn(captures)
  {
    AtoiOfItoa(n);
  }

  /** A line `a, local-port = N, b` reports port N when `a` ends with a quotation mark,
      even if `a` holds text that looks like a port field. */
  lemma OwnPortReported(a: string, n: nat, b: string)
    requires a != [] && a[|a| - 1] == '"' && IsPort(n)
    ensures n in PortsIn(Captures(a + ", " + KEY + " = " + Itoa(n) + ", " + b, 0))
  {
    var s, p := a + ", " + KEY + " = " + Itoa(n) + ", " + b, |a|;
    FieldShape(a, KEY, Itoa(n), b);
    assert s[p - 1] == s[..p][p - 1];
    OwnPortMatch(s, p, Itoa(n));
    CaptureReached(s, 0, p);
    CapturedPort(Captures(s, 0), n);
  }
}

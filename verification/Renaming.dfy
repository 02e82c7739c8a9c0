/** renameProxyLine of internal/surge/rename.go, on generated lines and on any accepted line. */
module Renaming {
  import opened Text
  import opened Fields
  import opened Names
  import opened Lines
  import opened RoundTrip

  /** Length of the leading run of blanks and tabs. */
  function Indent(s: string): (n: nat)
    ensures n <= |s| && forall i | 0 <= i < n :: s[i] == ' ' || s[i] == '\t'
  {
    if s != [] && (s[0] == ' ' || s[0] == '\t') then 1 + Indent(s[1..]) else 0
  }

  /** renameProxyLine */
  function RenameLine(line: string, name: string): string {
    var i := Index(line, '=');
    if i == |line| then line
    else line[..Indent(line[..i])] + name + " =" + line[i + 1..]
  }

  lemma NameStart(name: string)
    requires name != [] && Clean(name)
    ensures IsNameChar(name[0]) && !IsSpace(name[0])
  {
  }

  lemma SameRest(profile: string, e: Entry, name: string)
    ensures LineRest(profile, e.(name := name)) == LineRest(profile, e)
  {
    assert LineFields(profile, e)[1..] == LineFields(profile, e.(name := name))[1..];
  }

  /** On a generated line it gives the line generated for the new name. */
  lemma RenameOfLine(profile: string, e: Entry, name: string)
    requires e.name != [] && Clean(e.name)
    ensures RenameLine(LineOf(profile, e), name) == LineOf(profile, e.(name := name))
  {
    var e', rest := e.(name := name), LineRest(profile, e);
    LineSplits(profile, e);
    LineSplits(profile, e');
    SameRest(profile, e, name);
    hide LineOf, LineRest, Clean;
    NameIsKey(e.name);
    assert e.name + " =" + rest == (e.name + " ") + ['='] + rest;
    IndexAt(e.name + " ", '=', rest);
    var line := LineOf(profile, e);
    assert line[..|e.name| + 1] == e.name + " " && line[|e.name| + 2..] == rest;
    NameStart(e.name);
    assert line[..0] + name == name;
  }

  // ---------- lines written by hand ----------

  /** A second piece means that the first one ended outside quotes, at a comma. */
  lemma {:induction false} FirstPiece(m: Mode, s: string) returns (rest: string)
    ensures var ps := Pieces(m, s);
      if |ps| == 1 then s == ps[0]
      else NoSplit(m, ps[0]) && s == ps[0] + "," + rest && ps[1..] == Pieces(Outside, rest) && Run(m, ps[0]) == Outside
    decreases |s|
  {
    rest := [];
    if s != [] {
      if m == Outside && s[0] == ',' {
        rest := s[1..];
        assert s == [] + "," + rest;
      } else {
        rest := FirstPiece(Next(m, s[0]), s[1..]);
        var r := Pieces(Next(m, s[0]), s[1..]);
        assert Pieces(m, s)[1..] == r[1..] && Pieces(m, s)[0] == [s[0]] + r[0];
        assert Pieces(m, s)[0][1..] == r[0];
        assert s == [s[0]] + s[1..];
      }
    }
  }

  lemma {:induction false} StaysInside(m: Mode, s: string)
    requires '"' !in s && m != Outside
    ensures Run(m, s) != Outside
    decreases |s|
  {
    if s != [] {
      StaysInside(Next(m, s[0]), s[1..]);
    }
  }

  lemma IndexAppend(a: string, b: string, c: char)
    requires c !in a
    ensures Index(a + b, c) == |a| + Index(b, c)
    decreases |a|
  {
    if a == [] {
      assert a + b == b;
    } else {
      assert (a + b)[1..] == a[1..] + b;
      IndexAppend(a[1..], b, c);
    }
  }

  lemma {:induction false} TidyShort(ps: seq<string>)
    ensures |Tidy(ps)| <= |ps|
  {
    if ps != [] {
      TidyShort(ps[1..]);
    }
  }

  /** The `=` of a piece with no quotation mark after it is passed outside quotes. */
  lemma EqualsOutside(p: string, rest: string)
    requires Index(p, '=') < |p| && '"' !in p[Index(p, '=') + 1..]
    requires NoSplit(Outside, p) && Run(Outside, p) == Outside
    ensures Index(p + "," + rest, '=') == Index(p, '=')
    ensures Pieces(Outside, (p + "," + rest)[Index(p, '=') + 1..])
         == [p[Index(p, '=') + 1..]] + Pieces(Outside, rest)
  {
    var i := Index(p, '=');
    var x, y := p[..i + 1], p[i + 1..];
    assert p == x + y && x == p[..i] + ['='] && p + "," + rest == p[..i] + ['='] + (y + "," + rest);
    IndexAt(p[..i], '=', y + "," + rest);
    assert (p + "," + rest)[i + 1..] == y + "," + rest;
    RunAppend(Outside, x, y);
    NoSplitAppend(Outside, x, y);
    if Run(Outside, x) != Outside {
      StaysInside(Run(Outside, x), y);
    }
    PiecesComma(y, rest);
  }

  lemma PaddedCut(a: string, t: string, b: string)
    requires '=' !in a && Index(t, '=') < |t|
    ensures Index(a + (t + b), '=') == |a| + Index(t, '=')
    ensures (a + (t + b))[|a| + Index(t, '=') + 1..] == t[Index(t, '=') + 1..] + b
  {
    var j := Index(t, '=');
    assert t + b == t[..j] + ['='] + (t[j + 1..] + b);
    IndexAt(t[..j], '=', t[j + 1..] + b);
    IndexAppend(a, t + b, '=');
  }

  lemma SpaceHasNo(a: string, c: char)
    requires AllSpace(a) && !IsSpace(c)
    ensures c !in a
  {
  }

  lemma SpaceIsNoEquals(a: string)
    requires AllSpace(a)
    ensures '=' !in a
  {
    SpaceHasNo(a, '=');
  }

  lemma PaddedTail(tail: string, b: string)
    requires AllSpace(b)
    ensures Trim(tail + b) == Trim(tail) && ('"' !in tail ==> '"' !in tail + b)
  {
    SpaceHasNo(b, '"');
    assert tail + b == [] + tail + b;
    TrimPadded([], tail, b);
  }

  /** Spaces around a field do not matter for its value. */
  lemma PaddedField(p: string, a: string, t: string, b: string)
    requires p == a + (t + b) && AllSpace(a) && AllSpace(b) && HasKey(t) && '"' !in t[Index(t, '=') + 1..]
    ensures Index(p, '=') < |p| && '"' !in p[Index(p, '=') + 1..]
    ensures Trim(p[Index(p, '=') + 1..]) == Value(t)
  {
    hide Trim, Index, AllSpace;
    SpaceIsNoEquals(a);
    PaddedCut(a, t, b);
    PaddedTail(t[Index(t, '=') + 1..], b);
  }

  /** An accepted first field reads `key = external`, in any case and spacing. */
  lemma AcceptedHead(t: string, name: string)
    requires Trimmed(t) && '=' !in name && HeadAccepted(t, name)
    ensures HasKey(t) && EqualFold(Value(t), "external")
  {
    TrimOfTrimmed(t);
    if EqualFold(t, name + " = external") {
      FoldedHead(t, name + " ", "external");
    }
  }

  /** Folding moves no `=` and no blank. */
  lemma FoldedCut(t: string, key: string, word: string)
    requires '=' !in key && EqualFold(t, key + "= " + word)
    ensures var k := |key|; k + 2 + |word| == |t| && '=' !in t[..k] && t[k] == '=' && t[k + 1] == ' '
    ensures EqualFold(t[|key| + 2..], word)
  {
    var want, k := key + "= " + word, |key|;
    forall q | 0 <= q < k ensures t[q] != '=' {
      assert Fold(t[q]) == Fold(want[q]) && want[q] == key[q];
    }
    assert Fold(t[k]) == Fold(want[k]) && Fold(t[k + 1]) == Fold(want[k + 1]);
    forall q | 0 <= q < |word| ensures Fold(t[k + 2..][q]) == Fold(word[q]) {
      assert t[k + 2..][q] == t[k + 2 + q] && word[q] == want[k + 2 + q];
    }
  }

  lemma FoldedHead(t: string, key: string, word: string)
    requires '=' !in key && word != [] && forall q | 0 <= q < |word| :: 'a' <= word[q] <= 'z'
    requires EqualFold(t, key + "= " + word)
    ensures HasKey(t) && EqualFold(Value(t), word)
  {
    hide EqualFold, Trim, Trimmed;
    FoldedCut(t, key, word);
    var k, v := |key|, t[|key| + 2..];
    assert t == t[..k] + ['='] + t[k + 1..] && t[k + 1..] == " " + v;
    IndexAt(t[..k], '=', t[k + 1..]);
    NoSpaceInWord(v, word);
    TrimTail(v);
  }

  /** What folds to a word of lower-case letters has no space and no quotation mark. */
  lemma NoSpaceInWord(v: string, word: string)
    requires EqualFold(v, word) && word != [] && forall q | 0 <= q < |word| :: 'a' <= word[q] <= 'z'
    ensures Trimmed(v) && '"' !in v && v != []
  {
    forall q | 0 <= q < |v| ensures !IsSpace(v[q]) && v[q] != '"' {
      assert Fold(v[q]) == Fold(word[q]) == word[q];
    }
  }

  lemma QuietValue(t: string)
    requires HasKey(t) && EqualFold(Value(t), "external")
    ensures '"' !in t[Index(t, '=') + 1..]
  {
    var a, b := TrimSplit(t[Index(t, '=') + 1..]);
    NoSpaceInWord(Value(t), "external");
    forall c | c in a + b ensures c != '"' {}
  }

  /** What there is to know about the first `=` of a line: its position, and the pieces `r`
      of the text after it, which hold the value of the first field and the other fields. */
  predicate HeadAt(line: string, fields: seq<string>, i: nat, r: seq<string>) {
    && i == Index(line, '=') && i < |line| && r != [] && r == Pieces(Outside, line[i + 1..])
    && fields != [] && HasKey(fields[0]) && EqualFold(Value(fields[0]), "external")
    && Trim(r[0]) == Value(fields[0]) && Tidy(r[1..]) == fields[1..]
  }

  /** The first `=` of an accepted line is passed outside quotes: what follows it splits into
      pieces as before, whatever stands in front. */
  lemma {:induction false} HeadOutside(line: string, fields: seq<string>, name: string)
    returns (i: nat, r: seq<string>)
    requires fields == SplitFields(line) && |fields| >= 2 && '=' !in name && HeadAccepted(fields[0], name)
    ensures HeadAt(line, fields, i, r)
    decreases |line|
  {
    hide HeadAt, HeadAccepted, Trim, Pieces, Run, NoSplit;
    var ps := Pieces(Outside, line);
    var rest := FirstPiece(Outside, line);
    TidyShort(ps);
    if Trim(ps[0]) == [] {
      i, r := HeadOutside(rest, fields, name);
      BlankPiece(ps[0], rest, fields, i, r);
      i := |ps[0]| + 1 + i;
    } else {
      assert fields[1..] == Tidy(ps[1..]);
      i, r := HeadInPiece(ps[0], rest, fields, name);
    }
  }

  lemma IndexAfter(a: string, b: string, c: char)
    requires c !in a && Index(b, c) < |b|
    ensures Index(a + b, c) == |a| + Index(b, c) && (a + b)[|a| + Index(b, c) + 1..] == b[Index(b, c) + 1..]
  {
    IndexAppend(a, b, c);
  }

  lemma BlankPiece(p: string, rest: string, fields: seq<string>, i: nat, r: seq<string>)
    requires Trim(p) == [] && HeadAt(rest, fields, i, r)
    ensures HeadAt(p + "," + rest, fields, |p| + 1 + i, r)
  {
    hide Trim, Index, Pieces, Tidy, EqualFold, Value, HasKey;
    BlankIsAllSpace(p);
    SpaceIsNoEquals(p);
    IndexAfter(p + ",", rest, '=');
  }

  lemma HeadInPiece(p: string, rest: string, fields: seq<string>, name: string) returns (i: nat, r: seq<string>)
    requires NoSplit(Outside, p) && Run(Outside, p) == Outside
    requires fields != [] && fields[0] == Trim(p) && fields[1..] == Tidy(Pieces(Outside, rest))
    requires '=' !in name && HeadAccepted(Trim(p), name)
    ensures HeadAt(p + "," + rest, fields, i, r)
  {
    PieceValue(p, name);
    EqualsOutside(p, rest);
    i, r := Index(p, '='), [p[Index(p, '=') + 1..]] + Pieces(Outside, rest);
    assert r[1..] == Pieces(Outside, rest);
  }

  lemma PieceValue(p: string, name: string)
    requires '=' !in name && HeadAccepted(Trim(p), name)
    ensures HasKey(Trim(p)) && EqualFold(Value(Trim(p)), "external")
    ensures Index(p, '=') < |p| && '"' !in p[Index(p, '=') + 1..]
    ensures Trim(p[Index(p, '=') + 1..]) == Value(Trim(p))
  {
    var a, t, b := TrimParts(p);
    AcceptedHead(t, name);
    QuietValue(t);
    PaddedField(p, a, t, b);
  }

  lemma TrimParts(p: string) returns (a: string, t: string, b: string)
    ensures t == Trim(p) && p == a + (t + b) && AllSpace(a) && AllSpace(b) && Trimmed(t)
  {
    a, b := TrimSplit(p);
    t := Trim(p);
    assert a + t + b == a + (t + b);
  }

  // ---------- the renamed line ----------

  lemma IndentIsSpace(s: string)
    ensures AllSpace(s[..Indent(s)])
  {
  }

  lemma HeadText(a: string, name: string)
    requires AllSpace(a) && name != [] && Clean(name)
    ensures NoSplit(Outside, a + name + " =") && Run(Outside, a + name + " =") == Outside
  {
    var head := a + name + " =";
    NameIsKey(name);
    forall c | c in a ensures c != '"' && c != ',' {}
    UnquotedText(head);
  }

  /** Fields of a line that starts with text in which nothing separates. */
  lemma FieldsAfter(head: string, rest: string, first: string)
    requires NoSplit(Outside, head) && Run(Outside, head) == Outside
    requires first != [] && Trim(head + Pieces(Outside, rest)[0]) == first
    ensures SplitFields(head + rest) == [first] + Tidy(Pieces(Outside, rest)[1..])
  {
    var r := Pieces(Outside, rest);
    PiecesPrefix(Outside, head, rest);
    assert ([head + r[0]] + r[1..])[1..] == r[1..];
  }

  lemma TrimIndented(a: string, name: string, rest: string)
    requires AllSpace(a) && name != [] && Clean(name)
    ensures Trim(a + name + " =" + rest) == name + " =" + TrimRight(rest)
    ensures Trim(a + name + " =" + rest) == Trim(name + " =" + rest)
  {
    var line := name + " =" + rest;
    assert a + name + " =" + rest == a + line + [];
    TrimPadded(a, line, []);
    TrimHead(name + " =", rest);
  }

  lemma RenamedCut(name: string, v: string)
    requires name != [] && Clean(name)
    ensures var f := name + " =" + v; HasKey(f) && f[..Index(f, '=')] == name + " " && Value(f) == Trim(v)
  {
    var f := name + " =" + v;
    NameIsKey(name);
    assert f == (name + " ") + ['='] + v;
    IndexAt(name + " ", '=', v);
  }

  lemma TrimRightTrim(s: string)
    ensures Trim(TrimRight(s)) == Trim(s)
  {
    hide Trim, TrimRight, AllSpace;
    var b := TrimRightSplit(s);
    assert s == [] + TrimRight(s) + b && TrimRight(s) == [] + TrimRight(s) + [];
    TrimPadded([], TrimRight(s), b);
  }

  lemma SanitizeTail(name: string)
    requires Clean(name)
    ensures Sanitize(name + " ") == name
  {
    assert [] + name + " " == name + " ";
    SanitizePadded([], name, " ");
  }

  /** The first field of a renamed line. */
  lemma RenamedHead(name: string, r0: string)
    requires name != [] && Clean(name)
    ensures var f := name + " =" + TrimRight(r0); HasKey(f) && Key(f) == name && Value(f) == Trim(r0)
    ensures EqualFold(Trim(r0), "external") ==> HeadAccepted(name + " =" + TrimRight(r0), name)
  {
    RenamedCut(name, TrimRight(r0));
    TrimRightTrim(r0);
    TrimTail(name);
    SanitizeTail(name);
  }

  lemma RenamedName(a: string, name: string, rest: string)
    requires AllSpace(a) && name != [] && Clean(name)
    ensures LineName(a + name + " =" + rest) == name
  {
    TrimIndented(a, name, rest);
    NameOfLine(name, rest);
  }

  /** Splitting a renamed line. */
  lemma RenamedFields(a: string, name: string, rest: string)
    requires AllSpace(a) && name != [] && Clean(name)
    ensures var r := Pieces(Outside, rest);
      SplitFields(a + name + " =" + rest) == [name + " =" + TrimRight(r[0])] + Tidy(r[1..])
  {
    var r := Pieces(Outside, rest);
    HeadText(a, name);
    TrimIndented(a, name, r[0]);
    FieldsAfter(a + name + " =", rest, name + " =" + TrimRight(r[0]));
  }

  /** A line with the same fields after the first and another name reads as the same policy
      under that name, if an exec path can still be read. */
  lemma OtherName(line: string, line': string, name: string)
    requires Parse(line).Some? && name != [] && LineName(line') == name
    requires SplitFields(line') != [] && SplitFields(line')[1..] == SplitFields(line)[1..]
    requires HeadAccepted(SplitFields(line')[0], name)
    ensures Parse(line') == if ExecPath(SplitFields(line')) == [] then None
                            else Some(Parse(line).value.(name := name))
  {
  }

  /** Renaming any accepted line to a clean name keeps the policy and changes its name,
      exactly when an exec path is left to read: a line whose only exec path was its own
      name "exec" loses it. */
  lemma RenameAnyLine(line: string, name: string)
    requires Parse(line).Some? && name != [] && Clean(name)
    ensures Parse(RenameLine(line, name)) ==
      if EqualFold(name, "exec") || ExecPath(SplitFields(line)[1..]) != []
      then Some(Parse(line).value.(name := name)) else None
  {
    var fields := SplitFields(line);
    NameNoEquals(line);
    var i, r := HeadOutside(line, fields, LineName(line));
    RenamedAt(line, fields, i, r, name);
    ExternalUnquoted(Value(fields[0]));
    RenamedParse(line, RenameLine(line, name), fields, name + " =" + TrimRight(r[0]), name);
  }

  lemma RenamedParse(line: string, line': string, fields: seq<string>, head: string, name: string)
    requires Parse(line).Some? && fields == SplitFields(line) && fields != [] && name != []
    requires LineName(line') == name && SplitFields(line') == [head] + fields[1..] && HeadAccepted(head, name)
    requires HasKey(head) && Key(head) == name && Trim(UnquoteOr(Value(head))) != []
    ensures Parse(line') ==
      if EqualFold(name, "exec") || ExecPath(fields[1..]) != [] then Some(Parse(line).value.(name := name)) else None
  {
    ExecFirst(head, fields[1..]);
    OtherName(line, line', name);
  }

  lemma RenamedAt(line: string, fields: seq<string>, i: nat, r: seq<string>, name: string)
    requires HeadAt(line, fields, i, r) && name != [] && Clean(name)
    ensures var line', head := RenameLine(line, name), name + " =" + TrimRight(r[0]);
      && LineName(line') == name && SplitFields(line') == [head] + fields[1..] && HeadAccepted(head, name)
      && HasKey(head) && Key(head) == name && Value(head) == Value(fields[0])
  {
    var a, rest := line[..Indent(line[..i])], line[i + 1..];
    IndentIsSpace(line[..i]);
    assert a == line[..i][..Indent(line[..i])];
    RenamedName(a, name, rest);
    RenamedFields(a, name, rest);
    RenamedHead(name, r[0]);
  }

  lemma ExternalUnquoted(v: string)
    requires EqualFold(v, "external")
    ensures Trim(UnquoteOr(v)) != []
  {
    NoSpaceInWord(v, "external");
    TrimOfTrimmed(v);
    assert Fold(v[0]) == 'e';
  }

  /** An accepted line has a clean name and at least two fields. */
  lemma NameNoEquals(line: string)
    requires Parse(line).Some?
    ensures '=' !in LineName(line) && |SplitFields(line)| >= 2
  {
    var t := Trim(line);
    SanitizeIsClean(t[..Index(t, '=')]);
    NameIsKey(LineName(line));
  }
}

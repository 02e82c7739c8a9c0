/** The quote-aware field splitter of internal/surge/proxy_parse.go. */
module Fields {
  import opened Text
  import opened Quoting

  /** Where the scan stands: outside quotes, inside them, or just after a backslash inside
      them.  A backslash outside quotes has no effect. */
  datatype Mode = Outside | Inside | Escaped

  function Next(m: Mode, c: char): Mode {
    match m
    case Escaped => Inside
    case Inside => if c == '\\' then Escaped else if c == '"' then Outside else Inside
    case Outside => if c == '"' then Inside else Outside
  }

  function Run(m: Mode, s: string): Mode
    decreases |s|
  {
    if s == [] then m else Run(Next(m, s[0]), s[1..])
  }

  /** The text between separating commas, before trimming. */
  function Pieces(m: Mode, s: string): (ps: seq<string>)
    ensures ps != []
    decreases |s|
  {
    if s == [] then [[]]
    else if m == Outside && s[0] == ',' then [[]] + Pieces(Outside, s[1..])
    else var r := Pieces(Next(m, s[0]), s[1..]); [[s[0]] + r[0]] + r[1..]
  }

  /** Trim every piece and drop the empty ones. */
  function Tidy(ps: seq<string>): seq<string> {
    if ps == [] then []
    else if Trim(ps[0]) == [] then Tidy(ps[1..])
    else [Trim(ps[0])] + Tidy(ps[1..])
  }

  /** splitProxyFields as a function */
  function SplitFields(line: string): seq<string> {
    Tidy(Pieces(Outside, line))
  }

  // ---------- the scan ----------

  /** No separating comma in `s` when the scan enters it in mode `m`. */
  predicate NoSplit(m: Mode, s: string)
    decreases |s|
  {
    s == [] || (!(m == Outside && s[0] == ',') && NoSplit(Next(m, s[0]), s[1..]))
  }

  lemma {:induction false} RunAppend(m: Mode, a: string, b: string)
    ensures Run(m, a + b) == Run(Run(m, a), b)
    decreases |a|
  {
    if a == [] {
      assert a + b == b;
    } else {
      assert (a + b)[1..] == a[1..] + b;
      RunAppend(Next(m, a[0]), a[1..], b);
    }
  }

  lemma {:induction false} NoSplitAppend(m: Mode, a: string, b: string)
    ensures NoSplit(m, a + b) <==> NoSplit(m, a) && NoSplit(Run(m, a), b)
    decreases |a|
  {
    if a == [] {
      assert a + b == b;
    } else {
      assert (a + b)[1..] == a[1..] + b;
      NoSplitAppend(Next(m, a[0]), a[1..], b);
    }
  }

  /** The first piece of `a` followed by `s` starts with `a` when no comma of `a` separates. */
  lemma {:induction false} PiecesPrefix(m: Mode, a: string, s: string)
    requires NoSplit(m, a)
    ensures var r := Pieces(Run(m, a), s); Pieces(m, a + s) == [a + r[0]] + r[1..]
    decreases |a|
  {
    var r := Pieces(Run(m, a), s);
    if a == [] {
      assert a + s == s && a + r[0] == r[0];
    } else {
      assert (a + s)[1..] == a[1..] + s;
      PiecesPrefix(Next(m, a[0]), a[1..], s);
      assert a + r[0] == [a[0]] + (a[1..] + r[0]);
    }
  }

  lemma PiecesComma(a: string, s: string)
    requires NoSplit(Outside, a) && Run(Outside, a) == Outside
    ensures Pieces(Outside, a + "," + s) == [a] + Pieces(Outside, s)
  {
    PiecesPrefix(Outside, a, "," + s);
    assert a + "," + s == a + ("," + s);
    var r := Pieces(Outside, s);
    assert ("," + s)[1..] == s && a + [] == a;
  }

  lemma PiecesWhole(m: Mode, a: string)
    requires NoSplit(m, a)
    ensures Pieces(m, a) == [a]
  {
    PiecesPrefix(m, a, []);
    assert a + [] == a;
  }

  lemma {:induction false} TidyAppend(a: seq<string>, b: seq<string>)
    ensures Tidy(a + b) == Tidy(a) + Tidy(b)
  {
    if a == [] {
      assert a + b == b;
    } else {
      assert (a + b)[1..] == a[1..] + b;
      TidyAppend(a[1..], b);
    }
  }

  /** A blank in front of the line, or of what follows a comma, changes nothing. */
  lemma LeadingSpace(s: string)
    ensures SplitFields(" " + s) == SplitFields(s)
  {
    var r := Pieces(Outside, s);
    PiecesPrefix(Outside, " ", s);
    assert [r[0]] + r[1..] == r;
    TrimPadded(" ", r[0], []);
    assert " " + r[0] + [] == " " + r[0];
  }

  // ---------- fields that survive ----------

  /** A field that the splitter hands back unchanged. */
  predicate Plain(f: string) {
    f != [] && Trimmed(f) && NoSplit(Outside, f) && Run(Outside, f) == Outside
  }

  /** The splitter undoes joining with a comma and a blank. */
  lemma {:induction false} SplitOfJoinedFields(fs: seq<string>)
    requires fs != [] && forall f | f in fs :: Plain(f)
    ensures SplitFields(Join(fs, ", ")) == fs
  {
    var f := fs[0];
    assert f in fs;
    TrimOfTrimmed(f);
    if |fs| == 1 {
      PiecesWhole(Outside, f);
      assert Tidy([f]) == [f] + Tidy([]);
    } else {
      var rest := Join(fs[1..], ", ");
      assert f + ", " + rest == f + "," + (" " + rest);
      PiecesComma(f, " " + rest);
      assert ([f] + Pieces(Outside, " " + rest))[1..] == Pieces(Outside, " " + rest);
      LeadingSpace(rest);
      SplitOfJoinedFields(fs[1..]);
    }
  }

  /** Texts in a row, each behind a comma. */
  function RawTail(raws: seq<string>): string {
    if raws == [] then [] else "," + raws[0] + RawTail(raws[1..])
  }

  /** Text without quotation marks and commas. */
  predicate Bare(s: string) {
    '"' !in s && ',' !in s
  }

  lemma {:induction false} PiecesTail(f: string, raws: seq<string>)
    requires NoSplit(Outside, f) && Run(Outside, f) == Outside && forall r | r in raws :: Bare(r)
    ensures Pieces(Outside, f + RawTail(raws)) == [f] + raws
    decreases |raws|
  {
    hide NoSplit, Run, Pieces, Bare;
    if raws == [] {
      PiecesWhole(Outside, f);
      assert f + [] == f && [f] + [] == [f];
    } else {
      var raw, rest := raws[0], RawTail(raws[1..]);
      BarePlain(raw);
      PiecesTail(raw, raws[1..]);
      assert f + RawTail(raws) == f + "," + (raw + rest);
      PiecesComma(f, raw + rest);
      assert [raw] + raws[1..] == raws;
    }
  }

  lemma BarePlain(s: string)
    requires Bare(s)
    ensures NoSplit(Outside, s) && Run(Outside, s) == Outside
  {
    UnquotedText(s);
  }

  lemma TidyCons(f: string, ps: seq<string>)
    requires f != [] && Trim(f) == f
    ensures Tidy([f] + ps) == [f] + Tidy(ps)
  {
    assert ([f] + ps)[1..] == ps;
  }

  lemma SplitCons(f: string, rest: string)
    requires Plain(f)
    ensures SplitFields(f + "," + (" " + rest)) == [f] + SplitFields(rest)
  {
    PiecesComma(f, " " + rest);
    TrimOfTrimmed(f);
    TidyCons(f, Pieces(Outside, " " + rest));
    LeadingSpace(rest);
  }

  lemma SplitLast(f: string, raws: seq<string>)
    requires Plain(f) && forall r | r in raws :: Bare(r)
    ensures SplitFields(f + RawTail(raws)) == [f] + Tidy(raws)
  {
    PiecesTail(f, raws);
    TrimOfTrimmed(f);
    TidyCons(f, raws);
  }

  /** Fields that were joined, then others typed behind commas with any white space. */
  lemma {:induction false} SplitOfTail(fs: seq<string>, raws: seq<string>)
    requires fs != [] && (forall f | f in fs :: Plain(f)) && forall r | r in raws :: Bare(r)
    ensures SplitFields(Join(fs, ", ") + RawTail(raws)) == fs + Tidy(raws)
    decreases |fs|
  {
    hide Plain, Bare, SplitFields, Tidy, RawTail;
    var f, tail := fs[0], RawTail(raws);
    assert f in fs;
    if |fs| == 1 {
      SplitLast(f, raws);
      assert Join(fs, ", ") == f && fs == [f];
    } else {
      var rest := Join(fs[1..], ", ") + tail;
      assert Join(fs, ", ") + tail == f + "," + (" " + rest);
      SplitCons(f, rest);
      SplitOfTail(fs[1..], raws);
      assert fs == [f] + fs[1..];
      assert [f] + (fs[1..] + Tidy(raws)) == [f] + fs[1..] + Tidy(raws);
    }
  }

  lemma {:induction false} UnquotedText(f: string)
    requires '"' !in f && ',' !in f
    ensures NoSplit(Outside, f) && Run(Outside, f) == Outside
  {
    if f != [] {
      UnquotedText(f[1..]);
    }
  }

  lemma {:induction false} HexText(s: string)
    requires forall c | c in s :: HexOf(c).Some?
    ensures NoSplit(Inside, s) && Run(Inside, s) == Inside
  {
    if s != [] {
      assert s[0] in s;
      HexText(s[1..]);
    }
  }

  lemma EscapeCharText(c: char)
    ensures NoSplit(Inside, EscapeChar(c)) && Run(Inside, EscapeChar(c)) == Inside
  {
    var e := EscapeChar(c);
    HexPlain(c as int, 2);
    HexPlain(c as int, 4);
    HexPlain(c as int, 8);
    if e[0] == '\\' && |e| > 2 {
      HexText(e[2..]);
      NoSplitAppend(Inside, e[..2], e[2..]);
      RunAppend(Inside, e[..2], e[2..]);
      assert e == e[..2] + e[2..];
      assert e[..2][1..] == [e[1]];
    } else if |e| == 2 {
      assert e[1..] == [e[1]];
      assert Run(Inside, e) == Run(Next(Next(Inside, e[0]), e[1]), []);
    }
  }

  lemma {:induction false} EscapeText(v: string)
    ensures NoSplit(Inside, Escape(v)) && Run(Inside, Escape(v)) == Inside
  {
    if v != [] {
      EscapeCharText(v[0]);
      EscapeText(v[1..]);
      NoSplitAppend(Inside, EscapeChar(v[0]), Escape(v[1..]));
      RunAppend(Inside, EscapeChar(v[0]), Escape(v[1..]));
    }
  }

  /** A quoted string is a plain field whatever it holds. */
  lemma QuotePlain(v: string)
    ensures Plain(Quote(v))
  {
    var q := Quote(v);
    EscapeText(v);
    assert q[1..] == Escape(v) + "\"";
    NoSplitAppend(Inside, Escape(v), "\"");
    RunAppend(Inside, Escape(v), "\"");
  }

  /** Text without quotation marks or commas in front of a plain field. */
  lemma PrefixedPlain(a: string, b: string)
    requires a != [] && !IsSpace(a[0]) && '"' !in a && ',' !in a && Plain(b)
    ensures Plain(a + b)
  {
    UnquotedText(a);
    NoSplitAppend(Outside, a, b);
    RunAppend(Outside, a, b);
  }

  // ---------- any text ----------

  /** Inside quotation marks no comma separates. */
  lemma {:induction false} InsideKeeps(s: string)
    requires '"' !in s
    ensures NoSplit(Inside, s) && NoSplit(Escaped, s)
    decreases |s|
  {
    if s != [] {
      InsideKeeps(s[1..]);
    }
  }

  lemma OpenQuote(b: string)
    requires '"' !in b
    ensures Pieces(Outside, "\"" + b) == ["\"" + b]
  {
    InsideKeeps(b);
    assert ("\"" + b)[1..] == b;
    PiecesWhole(Outside, "\"" + b);
  }

  /** Pieces without quotation marks and commas, and then what the last of them begins. */
  lemma {:induction false} PiecesOfJoin(parts: seq<string>, b: string)
    requires parts != [] && forall p | p in parts :: Bare(p)
    ensures var n, back := |parts| - 1, Pieces(Outside, b);
      Pieces(Outside, Join(parts, ",") + b) == parts[..n] + [parts[n] + back[0]] + back[1..]
  {
    hide *;
    var n, back, p := |parts| - 1, Pieces(Outside, b), parts[0];
    assert p in parts;
    BarePlain(p);
    JoinFirst(parts, b);
    if n == 0 {
      PiecesPrefix(Outside, p, b);
    } else {
      PiecesOfJoin(parts[1..], b);
      PiecesComma(p, Join(parts[1..], ",") + b);
      FrontFirst(parts, [parts[n] + back[0]], back[1..]);
    }
  }

  lemma JoinFirst(parts: seq<string>, b: string)
    requires parts != []
    ensures Join(parts, ",") + b ==
      if |parts| == 1 then parts[0] + b else parts[0] + "," + (Join(parts[1..], ",") + b)
  {
  }

  lemma FrontFirst(parts: seq<string>, last: seq<string>, tail: seq<string>)
    requires |parts| > 1
    ensures var n := |parts| - 1;
      [parts[0]] + (parts[1..][..n - 1] + last + tail) == parts[..n] + last + tail
  {
  }

  lemma {:induction false} SplitBare(a: string)
    requires '"' !in a
    ensures forall p | p in Split(a, ',') :: Bare(p)
  {
    if a != [] {
      var r := Split(a[1..], ',');
      SplitBare(a[1..]);
      assert Bare(r[0]) && forall p | p in r[1..] :: p in r;
    }
  }

  lemma PiecesUnquoted(a: string, b: string)
    requires '"' !in a
    ensures var parts, back := Split(a, ','), Pieces(Outside, b);
      Pieces(Outside, a + b) == parts[..|parts| - 1] + [parts[|parts| - 1] + back[0]] + back[1..]
  {
    hide Split, Bare, Pieces, Join;
    SplitBare(a);
    JoinOfSplit(a, ',');
    PiecesOfJoin(Split(a, ','), b);
  }

  lemma OnePiece(front: seq<string>, x: string, q: string)
    ensures front + [x + [q][0]] + [q][1..] == front + [x + q]
  {
  }

  /** What splitProxyFields does to text without quotation marks is to cut it at every comma, trim the
      pieces and drop the empty ones; backslashes have no effect there.  A quotation mark that is
      never closed keeps all that follows in its field. */
  lemma SplitUnquoted(a: string, b: string)
    requires '"' !in a && '"' !in b
    ensures SplitFields(a) == Tidy(Split(a, ','))
    ensures var parts := Split(a, ',');
      SplitFields(a + ("\"" + b)) == Tidy(parts[..|parts| - 1] + [parts[|parts| - 1] + ("\"" + b)])
  {
    hide Split, Tidy, Pieces;
    var parts := Split(a, ',');
    var n, quoted := |parts| - 1, "\"" + b;
    PiecesUnquoted(a, []);
    PiecesUnquoted(a, quoted);
    OpenQuote(b);
    NoPieces();
    OnePiece(parts[..n], parts[n], []);
    OnePiece(parts[..n], parts[n], quoted);
    assert a + [] == a && parts[n] + [] == parts[n] && parts[..n] + [parts[n]] == parts;
  }

  lemma NoPieces()
    ensures Pieces(Outside, []) == [[]]
  {
  }

  // ---------- the loop ----------

  method AppendProxyField(fields: seq<string>, field: string) returns (out: seq<string>)
    ensures out == fields + Tidy([field])
  {
    var f := Trim(field);
    if f == [] {
      return fields;
    }
    out := fields + [f];
  }

  /** What the loop below still has to produce at position `i`, in mode `m`, when the field
      being read began at `start`. */
  function Rest(line: string, start: nat, i: nat, m: Mode): seq<string>
    requires start <= i <= |line|
  {
    var ps := Pieces(m, line[i..]);
    Tidy([line[start..i] + ps[0]] + ps[1..])
  }

  /** One turn of the loop on a character that does not separate. */
  lemma RestOn(line: string, start: nat, i: nat, m: Mode)
    requires start <= i < |line| && !(m == Outside && line[i] == ',')
    ensures Rest(line, start, i, m) == Rest(line, start, i + 1, Next(m, line[i]))
  {
    var ps := Pieces(Next(m, line[i]), line[i + 1..]);
    assert line[i..][1..] == line[i + 1..];
    assert line[start..i] + ([line[i]] + ps[0]) == line[start..i + 1] + ps[0];
  }

  /** One turn on a separating comma. */
  lemma RestCut(done: seq<string>, line: string, start: nat, i: nat)
    requires start <= i < |line| && line[i] == ','
    ensures done + Rest(line, start, i, Outside)
         == done + Tidy([line[start..i]]) + Rest(line, i + 1, i + 1, Outside)
  {
    var cur, ps := line[start..i], Pieces(Outside, line[i + 1..]);
    assert line[i..][1..] == line[i + 1..];
    assert cur + [] == cur && line[i + 1..i + 1] + ps[0] == ps[0];
    assert [cur] + ([[]] + ps)[1..] == [cur] + ps && [ps[0]] + ps[1..] == ps;
    TidyAppend([cur], ps);
  }

  /** The first and the last position. */
  lemma RestEnds(line: string, start: nat, m: Mode)
    requires start <= |line|
    ensures Rest(line, 0, 0, Outside) == SplitFields(line)
    ensures Rest(line, start, |line|, m) == Tidy([line[start..]])
  {
    var ps := Pieces(Outside, line);
    assert line[0..] == line && line[0..0] + ps[0] == ps[0] && [ps[0]] + ps[1..] == ps;
    assert line[start..|line|] + [] == line[start..] && [line[start..]] + [[]][1..] == [line[start..]];
  }

  /** splitProxyFields: one pass with a field start and two flags. */
  method SplitProxyFields(line: string) returns (fields: seq<string>)
    ensures fields == SplitFields(line)
  {
    fields := [];
    var start, inQuote, escaped := 0, false, false;
    ghost var m := Outside;
    RestEnds(line, 0, m);
    for i := 0 to |line|
      invariant 0 <= start <= i
      invariant escaped ==> inQuote
      invariant m == if escaped then Escaped else if inQuote then Inside else Outside
      invariant SplitFields(line) == fields + Rest(line, start, i, m)
    {
      var r := line[i];
      if r == ',' && !inQuote {
        RestCut(fields, line, start, i);
        fields := AppendProxyField(fields, line[start..i]);
        start := i + 1;
      } else {
        RestOn(line, start, i, m);
        m := Next(m, r);
        if escaped {
          escaped := false;
        } else if r == '\\' {
          if inQuote {
            escaped := true;
          }
        } else if r == '"' {
          inQuote := !inQuote;
        }
      }
    }
    RestEnds(line, start, m);
    fields := AppendProxyField(fields, line[start..]);
  }
}

/** Go string literals: `strconv.Quote` writes them, `strconv.Unquote` reads them back. */
module Quoting {
  import opened Text

  /** The code points above U+007F that strconv.IsPrint accepts; left unspecified. */
  const WIDE_PRINTABLE: set<char>

  predicate IsPrint(c: char) {
    ' ' <= c <= '~' || (c > '\U{007F}' && c in WIDE_PRINTABLE)
  }

  // ---------- hexadecimal ----------

  function HexDigit(d: int): (c: char)
    requires 0 <= d < 16
  {
    if d < 10 then ('0' as int + d) as char else ('a' as int + d - 10) as char
  }

  function HexOf(c: char): Option<nat> {
    if '0' <= c <= '9' then Some(c as int - '0' as int)
    else if 'a' <= c <= 'f' then Some(c as int - 'a' as int + 10)
    else if 'A' <= c <= 'F' then Some(c as int - 'A' as int + 10)
    else None
  }

  function Pow16(k: nat): nat {
    if k == 0 then 1 else 16 * Pow16(k - 1)
  }

  /** The low `k` hexadecimal digits of `n`. */
  function Hex(n: nat, k: nat): (s: string)
    ensures |s| == k
  {
    if k == 0 then [] else Hex(n / 16, k - 1) + [HexDigit(n % 16)]
  }

  function HexValue(s: string): Option<nat> {
    if s == [] then Some(0)
    else
      match (HexValue(s[..|s| - 1]), HexOf(s[|s| - 1]))
      case (Some(v), Some(d)) => Some(16 * v + d)
      case _ => None
  }

  lemma {:induction false} HexValueOfHex(n: nat, k: nat)
    requires n < Pow16(k)
    ensures HexValue(Hex(n, k)) == Some(n)
  {
    if k > 0 {
      HexValueOfHex(n / 16, k - 1);
      var s := Hex(n, k);
      assert s[..|s| - 1] == Hex(n / 16, k - 1);
      assert HexOf(HexDigit(n % 16)) == Some(n % 16);
    }
  }

  lemma {:induction false} HexPlain(n: nat, k: nat)
    ensures forall c | c in Hex(n, k) :: HexOf(c).Some?
  {
    if k > 0 {
      HexPlain(n / 16, k - 1);
    }
  }

  // ---------- writing ----------

  /** What strconv.Quote writes for one code point. */
  function EscapeChar(c: char): (s: string)
    ensures s != []
  {
    if c == '"' || c == '\\' then ['\\', c]
    else if IsPrint(c) then [c]
    else if c == '\U{0007}' then ['\\', 'a']
    else if c == '\U{0008}' then ['\\', 'b']
    else if c == '\U{000C}' then ['\\', 'f']
    else if c == '\n' then ['\\', 'n']
    else if c == '\r' then ['\\', 'r']
    else if c == '\t' then ['\\', 't']
    else if c == '\U{000B}' then ['\\', 'v']
    else if c < ' ' || c == '\U{007F}' then ['\\', 'x'] + Hex(c as int, 2)
    else if c as int < 0x1_0000 then ['\\', 'u'] + Hex(c as int, 4)
    else ['\\', 'U'] + Hex(c as int, 8)
  }

  function Escape(v: string): string {
    if v == [] then [] else EscapeChar(v[0]) + Escape(v[1..])
  }

  /** strconv.Quote */
  function Quote(v: string): string {
    "\"" + Escape(v) + "\""
  }

  // ---------- reading ----------

  function CodePoint(n: nat): Option<char> {
    if n < 0xD800 || 0xE000 <= n < 0x11_0000 then Some(n as char) else None
  }

  /** The escape starting at `s[1]` with `k` hexadecimal digits, and its length. */
  function HexEscape(s: string, k: nat, bound: nat): Option<(char, nat)> {
    if |s| < 2 + k then None
    else
      match HexValue(s[2..2 + k])
      case Some(n) =>
        if n >= bound then None
        else (match CodePoint(n) case Some(c) => Some((c, 2 + k)) case None => None)
      case None => None
  }

  function OctalEscape(s: string): Option<(char, nat)> {
    if |s| < 4 || !('0' <= s[1] <= '1' && '0' <= s[2] <= '7' && '0' <= s[3] <= '7') then None
    else
      Some(((64 * (s[1] as int - 48) + 8 * (s[2] as int - 48) + (s[3] as int - 48)) as char, 4))
  }

  /** strconv.UnquoteChar: the first code point of `s` inside `quote` marks, and how much of
      `s` it takes.  A numeric escape for a single byte above 0x7F has no code point here. */
  function UnquoteChar(s: string, quote: char): (r: Option<(char, nat)>)
    requires s != []
    ensures r.Some? ==> 0 < r.value.1 <= |s|
  {
    if s[0] == quote then None
    else if s[0] != '\\' then Some((s[0], 1))
    else if |s| == 1 then None
    else if s[1] == 'a' then Some(('\U{0007}', 2))
    else if s[1] == 'b' then Some(('\U{0008}', 2))
    else if s[1] == 'f' then Some(('\U{000C}', 2))
    else if s[1] == 'n' then Some(('\n', 2))
    else if s[1] == 'r' then Some(('\r', 2))
    else if s[1] == 't' then Some(('\t', 2))
    else if s[1] == 'v' then Some(('\U{000B}', 2))
    else if s[1] == 'x' then HexEscape(s, 2, 0x80)
    else if s[1] == 'u' then HexEscape(s, 4, 0x11_0000)
    else if s[1] == 'U' then HexEscape(s, 8, 0x11_0000)
    else if s[1] == '\\' then Some(('\\', 2))
    else if s[1] == '\'' || s[1] == '"' then (if s[1] == quote then Some((quote, 2)) else None)
    else OctalEscape(s)
  }

  /** The rest of a literal after its opening mark; the closing mark must be last. */
  function UnquoteTail(s: string, quote: char): Option<string>
    decreases |s|
  {
    if s == [] then None
    else if s[0] == quote then (if |s| == 1 then Some([]) else None)
    else if s[0] == '\n' then None
    else
      match UnquoteChar(s, quote)
      case None => None
      case Some(p) =>
        match UnquoteTail(s[p.1..], quote)
        case None => None
        case Some(t) => Some([p.0] + t)
  }

  function DropReturns(s: string): string {
    if s == [] then []
    else if s[0] == '\r' then DropReturns(s[1..])
    else [s[0]] + DropReturns(s[1..])
  }

  /** strconv.Unquote; None is its error. */
  function Unquote(s: string): Option<string> {
    if |s| < 2 then None
    else if s[0] == '`' then
      if s[|s| - 1] == '`' && '`' !in s[1..|s| - 1] then Some(DropReturns(s[1..|s| - 1])) else None
    else if s[0] == '"' then UnquoteTail(s[1..], '"')
    else if s[0] == '\'' then
      match UnquoteTail(s[1..], '\'')
      case Some(v) => if |v| <= 1 then Some(v) else None
      case None => None
    else None
  }

  // ---------- reading undoes writing ----------

  lemma HexEscapeRead(x: char, c: char, k: nat, bound: nat, rest: string)
    requires c as int < Pow16(k) && c as int < bound
    ensures HexEscape(['\\', x] + Hex(c as int, k) + rest, k, bound) == Some((c, 2 + k))
  {
    var s := ['\\', x] + Hex(c as int, k) + rest;
    assert s[2..2 + k] == Hex(c as int, k);
    HexValueOfHex(c as int, k);
  }

  lemma EscapeCharRead(c: char, rest: string)
    ensures EscapeChar(c)[0] != '"' && EscapeChar(c)[0] != '\n'
    ensures UnquoteChar(EscapeChar(c) + rest, '"') == Some((c, |EscapeChar(c)|))
  {
    assert Pow16(2) == 0x100 && Pow16(4) == 0x1_0000 && Pow16(8) == 0x1_0000_0000;
    var e := EscapeChar(c);
    var s := e + rest;
    if e[0] == '\\' && (e[1] == 'x' || e[1] == 'u' || e[1] == 'U') {
      var k, bound := |e| - 2, if e[1] == 'x' then 0x80 else 0x11_0000;
      HexEscapeRead(e[1], c, k, bound, rest);
    }
  }

  lemma {:induction false} UnquoteTailStep(s: string, quote: char, c: char, n: nat, t: string)
    requires s != [] && s[0] != quote && s[0] != '\n' && n <= |s|
    requires UnquoteChar(s, quote) == Some((c, n)) && UnquoteTail(s[n..], quote) == Some(t)
    ensures UnquoteTail(s, quote) == Some([c] + t)
  {
  }

  lemma {:induction false} UnquoteTailOfEscape(v: string)
    ensures UnquoteTail(Escape(v) + "\"", '"') == Some(v)
  {
    if v != [] {
      var e, rest := EscapeChar(v[0]), Escape(v[1..]) + "\"";
      UnquoteTailOfEscape(v[1..]);
      EscapeCharRead(v[0], rest);
      assert (e + rest)[|e|..] == rest;
      UnquoteTailStep(e + rest, '"', v[0], |e|, v[1..]);
      assert Escape(v) + "\"" == e + rest;
      assert v == [v[0]] + v[1..];
    }
  }

  /** Reading undoes writing, for every string. */
  lemma UnquoteOfQuote(v: string)
    ensures Unquote(Quote(v)) == Some(v)
  {
    assert Quote(v)[1..] == Escape(v) + "\"";
    UnquoteTailOfEscape(v);
  }

  /** Printable ASCII text without quotation marks and backslashes is written as it is. */
  lemma {:induction false} PlainIsKept(v: string)
    requires forall i | 0 <= i < |v| :: ' ' <= v[i] <= '~' && v[i] != '"' && v[i] != '\\'
    ensures Escape(v) == v && Quote(v) == "\"" + v + "\""
  {
    if v != [] {
      PlainIsKept(v[1..]);
    }
  }

  lemma EscapeCharOneLine(c: char)
    ensures '\n' !in EscapeChar(c)
  {
    HexPlain(c as int, 2);
    HexPlain(c as int, 4);
    HexPlain(c as int, 8);
  }

  /** A quoted string stays on one line. */
  lemma {:induction false} EscapeOneLine(v: string)
    ensures '\n' !in Escape(v)
  {
    if v != [] {
      EscapeCharOneLine(v[0]);
      EscapeOneLine(v[1..]);
    }
  }
}

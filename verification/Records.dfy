/** The owner record in a policy lock file (cmd/xcore-bridge/policy_runtime.go): what the
    owner writes and what matchingOwner makes of a file that may be empty or half written. */
module Records {
  import opened Text

  /** managedPolicyRuntimeState */
  datatype Record = Record(pid: int, linkHash: string)

  const OPEN := "{\"pid\":"
  const MID := ",\"linkHash\":\""
  const CLOSE := "\"}"

  predicate IsHex(c: char) {
    IsDigit(c) || 'a' <= c <= 'f'
  }

  predicate AllHex(s: string) {
    forall i | 0 <= i < |s| :: IsHex(s[i])
  }

  /** A process id and the hex digest of a link. */
  predicate Proper(r: Record) {
    0 < r.pid <= MAX_INT64 && AllHex(r.linkHash)
  }

  /** json.Marshal of the record, without the newline that tryAcquire appends. */
  function Json(r: Record): string
    requires Proper(r)
  {
    OPEN + Itoa(r.pid) + MID + r.linkHash + CLOSE
  }

  /** The bytes that the owner writes. */
  function Encode(r: Record): string
    requires Proper(r)
  {
    Json(r) + "\n"
  }

  // ---------- reading ----------

  function LeadingDigits(s: string): (n: nat)
    ensures n <= |s| && AllDigits(s[..n]) && (n < |s| ==> !IsDigit(s[n]))
  {
    if s == [] || !IsDigit(s[0]) then 0 else 1 + LeadingDigits(s[1..])
  }

  predicate JsonSpace(s: string) {
    forall i | 0 <= i < |s| :: s[i] == ' ' || s[i] == '\t' || s[i] == '\r' || s[i] == '\n'
  }

  /** The number of a record: decimal, without leading zeros. */
  function Number(s: string): Option<int> {
    if s == [] || (|s| > 1 && s[0] == '0') then None else Atoi(s)
  }

  function DecodeHash(pid: int, s: string): Option<Record> {
    var q := Index(s, '"');
    if HasPrefix(s[q..], CLOSE) && AllHex(s[..q]) && JsonSpace(s[q..][|CLOSE|..])
    then Some(Record(pid, s[..q]))
    else None
  }

  function DecodeNumber(s: string): Option<Record> {
    var n := LeadingDigits(s);
    match Number(s[..n])
    case None => None
    case Some(pid) => if HasPrefix(s[n..], MID) then DecodeHash(pid, s[n..][|MID|..]) else None
  }

  /** json.Unmarshal on the texts that a lock file can hold. */
  function Decode(text: string): Option<Record> {
    if HasPrefix(text, OPEN) then DecodeNumber(text[|OPEN|..]) else None
  }

  /** matchingOwner, given the content of the lock file. */
  function Matching(text: string, linkHash: string): Option<Record> {
    if linkHash == [] then None
    else
      match Decode(text)
      case Some(r) => if r.pid > 0 && r.linkHash == linkHash then Some(r) else None
      case None => None
  }

  // ---------- round trip ----------

  lemma {:induction false} LeadingDigitsOf(a: string, b: string)
    requires AllDigits(a) && (b == [] || !IsDigit(b[0]))
    ensures LeadingDigits(a + b) == |a|
  {
    if a == [] {
      assert a + b == b;
    } else {
      assert (a + b)[1..] == a[1..] + b;
      LeadingDigitsOf(a[1..], b);
    }
  }

  lemma {:induction false} NoLeadingZero(n: nat)
    requires n > 0
    ensures Itoa(n)[0] != '0'
  {
    if n >= 10 {
      NoLeadingZero(n / 10);
    }
  }

  lemma HashDecodes(pid: int, hash: string, tail: string)
    requires AllHex(hash) && JsonSpace(tail)
    ensures DecodeHash(pid, hash + CLOSE + tail) == Some(Record(pid, hash))
  {
    var s := hash + CLOSE + tail;
    assert '"' !in hash;
    assert s == hash + ['"'] + ("}" + tail);
    IndexAt(hash, '"', "}" + tail);
    assert s[..|hash|] == hash && s[|hash|..] == CLOSE + tail && (CLOSE + tail)[|CLOSE|..] == tail;
  }

  lemma NumberDecodes(r: Record, tail: string)
    requires Proper(r) && JsonSpace(tail)
    ensures DecodeNumber(Itoa(r.pid) + (MID + (r.linkHash + CLOSE + tail))) == Some(r)
  {
    var digits, rest := Itoa(r.pid), r.linkHash + CLOSE + tail;
    LeadingDigitsOf(digits, MID + rest);
    NoLeadingZero(r.pid);
    AtoiOfItoa(r.pid);
    HashDecodes(r.pid, r.linkHash, tail);
    var s := digits + (MID + rest);
    assert s[..|digits|] == digits && s[|digits|..] == MID + rest && (MID + rest)[|MID|..] == rest;
    hide Itoa, Atoi, DecodeHash;
  }

  /** A whole record decodes to itself, with and without the final newline. */
  lemma DecodeWhole(r: Record)
    requires Proper(r)
    ensures Decode(Json(r)) == Some(r) && Decode(Encode(r)) == Some(r)
  {
    NumberDecodes(r, "");
    NumberDecodes(r, "\n");
    hide DecodeNumber, Itoa;
    var digits := Itoa(r.pid);
    WholeSplits(digits, r.linkHash, "");
    WholeSplits(digits, r.linkHash, "\n");
    assert Json(r) + "" == Json(r);
  }

  lemma WholeSplits(digits: string, hash: string, tail: string)
    ensures var s := OPEN + digits + MID + hash + CLOSE + tail;
      HasPrefix(s, OPEN) && s[|OPEN|..] == digits + (MID + (hash + CLOSE + tail))
  {
  }

  lemma DecodedHasBrace(text: string)
    requires Decode(text).Some?
    ensures '}' in text
  {
    hide Number, AllHex, JsonSpace;
    var s := text[|OPEN|..];
    var n := LeadingDigits(s);
    var t := s[n..][|MID|..];
    var q := Index(t, '"');
    assert t[q..][1] == '}';
    assert t[q + 1] == '}' && t[q + 1] == text[|OPEN| + n + |MID| + q + 1];
  }

  /** An empty file and every incomplete record is refused: readers see a record only after its
      last character was written. */
  lemma DecodePrefix(r: Record, k: nat)
    requires Proper(r) && k <= |Encode(r)|
    ensures Decode(Encode(r)[..k]) == if k < |Json(r)| then None else Some(r)
  {
    hide Decode, Json;
    var e := Encode(r);
    if k < |Json(r)| {
      PrefixAvoidsBrace(r, k);
      if Decode(e[..k]).Some? {
        DecodedHasBrace(e[..k]);
      }
    } else {
      DecodeWhole(r);
      assert e[..k] == if k == |Json(r)| then Json(r) else e;
    }
  }

  lemma PrefixAvoidsBrace(r: Record, k: nat)
    requires Proper(r) && k < |Json(r)|
    ensures '}' !in Encode(r)[..k]
  {
    var digits := Itoa(r.pid);
    var head := OPEN + digits + MID + r.linkHash + "\"";
    assert Json(r) == head + "}";
    assert Encode(r)[..k] == head[..k];
    DigitsAvoidBrace(digits);
    assert '}' !in r.linkHash;
    assert '}' !in OPEN && '}' !in MID && '}' !in "\"";
    hide Itoa;
    assert '}' !in head;
  }

  lemma DigitsAvoidBrace(s: string)
    requires AllDigits(s)
    ensures '}' !in s
  {
  }
}

/** Managed lines that somebody typed: which of their ports the scanner `localPorts` of
    internal/surge/proxy_parse.go reports, and what that means for Add. */
module HandWritten {
  import opened Text
  import opened Names
  import opened Ports
  import opened PortScan
  import opened Lines
  import opened RoundTrip
  import Fields
  import Quoting

  // ---------- comments ----------

  lemma CommentSaysNothing(line: string)
    requires Trim(line) == [] || Trim(line)[0] == '#' || Trim(line)[0] == ';'
    ensures NamesOf([line]) == [] && PortsOf([line]) == {} && Parse(line) == None
  {
    assert [line][1..] == [];
    hide Trim, Captures, Sanitize, Fields.SplitFields;
  }

  /** A blank line or a comment has no names and no ports, whatever stands in it, and is no policy. */
  lemma CommentAddsNothing(a: seq<string>, line: string, b: seq<string>)
    requires Trim(line) == [] || Trim(line)[0] == '#' || Trim(line)[0] == ';'
    ensures NamesOf(a + [line] + b) == NamesOf(a + b) && PortsOf(a + [line] + b) == PortsOf(a + b)
    ensures Parse(line) == None
  {
    hide *;
    CommentSaysNothing(line);
    NamesWithout(a, [line], b);
    PortsWithout(a, [line], b);
  }

  lemma NamesWithout(a: seq<string>, c: seq<string>, b: seq<string>)
    requires NamesOf(c) == []
    ensures NamesOf(a + c + b) == NamesOf(a + b)
  {
    hide *;
    NamesAppend(a + c, b);
    NamesAppend(a, c);
    NamesAppend(a, b);
    assert NamesOf(a) + [] == NamesOf(a);
  }

  lemma PortsWithout(a: seq<string>, c: seq<string>, b: seq<string>)
    requires PortsOf(c) == {}
    ensures PortsOf(a + c + b) == PortsOf(a + b)
  {
    hide *;
    PortsAppend(a + c, b);
    PortsAppend(a, c);
    PortsAppend(a, b);
  }

  // ---------- port fields as they may be typed ----------

  /** A port field: key, `=` and number with any white space around them.  The key may be in any
      case, and the number is one for strconv.Atoi, so it may have a sign. */
  datatype Typed = Typed(w0: string, key: string, w1: string, w2: string, num: string, w3: string, port: nat) {
    predicate Ok() {
      && AllSpace(w0) && AllSpace(w1) && AllSpace(w2) && AllSpace(w3)
      && ToLower(key) == KEY && Atoi(num) == Some(port) && IsPort(port)
    }

    /** No sign, and no white space but that of the regular expression. */
    predicate Clean() {
      AllDigits(num) && AllRegexSpace(w0) && AllRegexSpace(w1) && AllRegexSpace(w2) && AllRegexSpace(w3)
    }

    function Core(): string {
      key + w1 + "=" + w2 + num
    }

    function Raw(): string {
      w0 + Core() + w3
    }
  }

  predicate AllRegexSpace(s: string) {
    forall i | 0 <= i < |s| :: RegexSpace(s[i])
  }

  predicate AllOk(ts: seq<Typed>) {
    forall i | 0 <= i < |ts| :: ts[i].Ok()
  }

  function Raws(ts: seq<Typed>): seq<string> {
    if ts == [] then [] else [ts[0].Raw()] + Raws(ts[1..])
  }

  function Cores(ts: seq<Typed>): seq<string> {
    if ts == [] then [] else [ts[0].Core()] + Cores(ts[1..])
  }

  /** The line of an entry with these port fields, instead of the one that the printer writes. */
  function TypedLine(profile: string, e: Entry, ts: seq<Typed>): string {
    Join(FrontFields(profile, e), ", ") + Fields.RawTail(Raws(ts))
  }

  /** What the scanner reports of the fields: every clean one, but after a clean one the next is
      skipped, because the match takes the comma between them. */
  function Reported(ts: seq<Typed>): set<int> {
    if ts == [] then {}
    else if !ts[0].Clean() then Reported(ts[1..])
    else {ts[0].port} + if |ts| == 1 then {} else Reported(ts[2..])
  }

  // ---------- the parser ----------

  lemma LowerKey(s: string)
    requires ToLower(s) == KEY
    ensures |s| == 10 && Trimmed(s) && '=' !in s && Fields.Bare(s) && Lower(s[0]) == 'l'
  {
    assert forall i | 0 <= i < |s| :: ToLower(s)[i] == Lower(s[i]);
    assert KEY[0] == 'l' && KEY[9] == 't';
    forall c | c in s ensures c != '=' && c != '"' && c != ',' {
      var i :| 0 <= i < |s| && s[i] == c;
      assert KEY[i] == Lower(c);
      assert KEY[i] in KEY;
    }
  }

  lemma NumberText(num: string)
    requires Atoi(num).Some?
    ensures num != [] && Trimmed(num) && Fields.Bare(num) && '=' !in num
    ensures AllDigits(num) || ((num[0] == '+' || num[0] == '-') && !IsDigit(num[0]))
  {
    assert IsDigit(num[|num| - 1]);
    forall c | c in num ensures c == '+' || c == '-' || IsDigit(c) {
      var i :| 0 <= i < |num| && num[i] == c;
      assert i > 0 ==> num[1..][i - 1] == c;
    }
  }

  lemma SpaceIsBare(w: string)
    requires AllSpace(w)
    ensures Fields.Bare(w) && '=' !in w
  {
  }

  lemma RawIsBare(t: Typed)
    requires t.Ok()
    ensures Fields.Bare(t.Raw())
  {
    LowerKey(t.key);
    NumberText(t.num);
    SpaceIsBare(t.w0);
    SpaceIsBare(t.w1);
    SpaceIsBare(t.w2);
    SpaceIsBare(t.w3);
    hide Atoi, AllSpace, ToLower;
  }

  lemma CoreTrimmed(t: Typed)
    requires t.Ok()
    ensures t.Core() != [] && Trimmed(t.Core()) && Trim(t.Raw()) == t.Core()
  {
    LowerKey(t.key);
    NumberText(t.num);
    var c := t.Core();
    assert c[0] == t.key[0] && c[|c| - 1] == t.num[|t.num| - 1];
    TrimPad(t.w0, c, t.w3);
  }

  lemma {:induction false} RawsBare(ts: seq<Typed>)
    requires AllOk(ts)
    ensures forall r | r in Raws(ts) :: Fields.Bare(r)
    ensures Fields.Tidy(Raws(ts)) == Cores(ts)
  {
    if ts != [] {
      assert ts[0].Ok();
      RawIsBare(ts[0]);
      CoreTrimmed(ts[0]);
      assert AllOk(ts[1..]);
      RawsBare(ts[1..]);
    }
  }

  lemma CoreField(t: Typed)
    requires t.Ok()
    ensures HasKey(t.Core()) && Key(t.Core()) == t.key && Value(t.Core()) == t.num
  {
    LowerKey(t.key);
    NumberText(t.num);
    SpaceIsBare(t.w1);
    var c, k, v := t.Core(), t.key + t.w1, t.w2 + t.num;
    assert c == k + ['='] + v;
    IndexAt(k, '=', v);
    assert c[..|k|] == [] + t.key + t.w1 && c[|k| + 1..] == t.w2 + t.num + [];
    TrimPad([], t.key, t.w1);
    TrimPad(t.w2, t.num, []);
  }

  /** The last port field counts. */
  lemma {:induction false} StepsCores(seen: Seen, ts: seq<Typed>)
    requires AllOk(ts) && ts != []
    ensures Steps(seen, Cores(ts)) == seen.(port := ts[|ts| - 1].port)
    decreases |ts|
  {
    var t := ts[0];
    assert t.Ok();
    CoreField(t);
    StepIsPort(seen, t.Core(), t.port);
    StepsCons(seen, t.Core(), Cores(ts[1..]));
    hide Step, Atoi, HasKey, Key, Value;
    if |ts| > 1 {
      assert AllOk(ts[1..]);
      StepsCores(seen.(port := t.port), ts[1..]);
    }
  }

  /** The policy of a line that listens on this host and port. */
  function PolicyAt(e: Entry, host: string, port: int): Policy {
    Policy(e.name, e.link, host, port, host, port)
  }

  /** The command line prints this port, or its `--local-port` is lost to the profile path. */
  predicate PortAgrees(profile: string, e: Entry, port: int) {
    port == e.port || profile == "--local-port"
  }

  lemma FrontSeen(profile: string, e: Entry, tail: seq<string>)
    ensures Steps(NOTHING_SEEN, (FrontFields(profile, e) + tail)[1..])
         == Steps(Seen(Args(profile, e), 0, LOCAL_HOST), tail)
  {
    var exec, args, vs := Assign("exec", Quoting.Quote(e.exec)), ArgFields(Args(profile, e)), Args(profile, e);
    assert (FrontFields(profile, e) + tail)[1..] == [exec] + (args + tail);
    StepExec(NOTHING_SEEN, e.exec);
    StepsCons(NOTHING_SEEN, exec, args + tail);
    StepsArgs(NOTHING_SEEN, vs);
    assert [] + vs == vs;
    StepsAppend(NOTHING_SEEN, args, tail);
  }

  lemma FrontExec(profile: string, e: Entry, tail: seq<string>)
    requires GoodEntry(e)
    ensures ExecPath(FrontFields(profile, e) + tail) == if EqualFold(e.name, "exec") then "external" else Trim(e.exec)
  {
    var head, exec := Assign(e.name, "external"), Assign("exec", Quoting.Quote(e.exec));
    var rest := ArgFields(Args(profile, e)) + tail;
    assert FrontFields(profile, e) + tail == [head] + ([exec] + rest);
    ExecHead(e.name, [exec] + rest);
    ExecField(e.exec, rest);
  }

  lemma ConcludeAt(profile: string, e: Entry, exec: string, host: string, port: nat)
    requires GoodEntry(e) && profile != "--link" && profile != "--listen" && exec != [] && host != [] && IsPort(port)
    ensures Conclude(e.name, Seen(Args(profile, e), port, host), exec)
         == if PortAgrees(profile, e, port) then Some(PolicyAt(e, host, port)) else None
  {
    ArgsBack(profile, e, []);
    assert Args(profile, e) + [] == Args(profile, e);
    assert ToLower(e.link)[0] == 'v';
    assert Args(profile, e)[0] == "run";
  }

  /** Parsing looks at the printed front of the line and at what the fields behind it set. */
  lemma FrontConcludes(profile: string, e: Entry, line: string, tail: seq<string>)
    requires GoodEntry(e) && Readable(profile, e) && LineName(line) == e.name
    requires Fields.SplitFields(line) == FrontFields(profile, e) + tail
    ensures var exec := if EqualFold(e.name, "exec") then "external" else Trim(e.exec);
      exec != [] && Parse(line) == Conclude(e.name, Steps(Seen(Args(profile, e), 0, LOCAL_HOST), tail), exec)
  {
    FrontSeen(profile, e, tail);
    FrontExec(profile, e, tail);
    TrimHeadField(e.name);
    assert (FrontFields(profile, e) + tail)[0] == Assign(e.name, "external");
    hide FrontFields, Steps, ExecPath, Conclude, Fields.SplitFields, LineName, Args, Trim, EqualFold;
  }

  /** So the port that they set must be that of the command line. */
  lemma FrontParses(profile: string, e: Entry, line: string, tail: seq<string>, host: string, port: nat)
    requires GoodEntry(e) && Readable(profile, e) && host != [] && IsPort(port) && LineName(line) == e.name
    requires Fields.SplitFields(line) == FrontFields(profile, e) + tail
    requires Steps(Seen(Args(profile, e), 0, LOCAL_HOST), tail) == Seen(Args(profile, e), port, host)
    ensures Parse(line) == if PortAgrees(profile, e, port) then Some(PolicyAt(e, host, port)) else None
  {
    hide FrontFields, Steps, Conclude, Fields.SplitFields, LineName, Args, Trim, EqualFold, Parse, GoodEntry,
      PortAgrees;
    FrontConcludes(profile, e, line, tail);
    ConcludeAt(profile, e, if EqualFold(e.name, "exec") then "external" else Trim(e.exec), host, port);
  }

  lemma FrontName(profile: string, e: Entry, rest: string)
    requires e.name != [] && Clean(e.name)
    ensures LineName(Join(FrontFields(profile, e), ", ") + rest) == e.name
  {
    var fs := FrontFields(profile, e);
    var tail := ", " + Join(fs[1..], ", ");
    assert fs[0] == e.name + " =" + " external" && |fs| > 1;
    assert Join(fs, ", ") + rest == e.name + " =" + (" external" + tail + rest);
    NameOfLine(e.name, " external" + tail + rest);
  }

  /** The typed line is accepted if its last port is the printed one, whatever ports stand before. */
  lemma TypedParses(profile: string, e: Entry, ts: seq<Typed>)
    requires GoodEntry(e) && Readable(profile, e) && AllOk(ts) && ts != []
    ensures var port := ts[|ts| - 1].port;
      Parse(TypedLine(profile, e, ts))
        == if PortAgrees(profile, e, port) then Some(PolicyAt(e, LOCAL_HOST, port)) else None
    ensures LineName(TypedLine(profile, e, ts)) == e.name
  {
    var port := ts[|ts| - 1].port;
    assert ts[|ts| - 1].Ok();
    FrontPlain(profile, e);
    RawsBare(ts);
    Fields.SplitOfTail(FrontFields(profile, e), Raws(ts));
    FrontName(profile, e, Fields.RawTail(Raws(ts)));
    StepsCores(Seen(Args(profile, e), 0, LOCAL_HOST), ts);
    hide GoodEntry, Readable, FrontFields, Parse, Steps, LineName, Fields.SplitFields, Cores, Raws, Args, AllPlain,
      PortAgrees;
    FrontParses(profile, e, TypedLine(profile, e, ts), Cores(ts), LOCAL_HOST, port);
  }

  // ---------- the scanner ----------

  /** Matching from a position on starts with the letter l. */
  lemma NotTheKey(s: string, j: nat)
    requires j < |s| && Lower(s[j]) != 'l'
    ensures MatchBody(s, j).None?
  {
    if j + 10 <= |s| {
      assert ToLower(s[j..j + 10])[0] == Lower(s[j]) && KEY[0] == 'l';
    }
  }

  /** Where nothing but commas could match, the scan just moves on. */
  lemma {:induction false} CapturesSkip(s: string, i: nat, p: nat)
    requires 0 < i <= p <= |s| && ',' !in s[i..p]
    ensures Captures(s, i) == Captures(s, p)
    decreases p - i
  {
    hide MatchBody;
    if i < p {
      assert s[i] in s[i..p] && s[i + 1..p] == s[i..p][1..];
      CapturesSkip(s, i + 1, p);
    }
  }

  /** Skipping white space stops at the first character that is none of the regular expression. */
  lemma {:induction false} SkipOver(s: string, i: nat, w: string)
    requires i + |w| <= |s| && s[i..i + |w|] == w && AllSpace(w)
    requires i + |w| == |s| || !RegexSpace(s[i + |w|])
    ensures if AllRegexSpace(w) then SkipSpace(s, i) == i + |w|
            else SkipSpace(s, i) < i + |w| && IsSpace(s[SkipSpace(s, i)])
    decreases |w|
  {
    if w != [] {
      assert s[i] == s[i..i + |w|][0] == w[0];
      assert s[i + 1..i + |w|] == s[i..i + |w|][1..];
      if RegexSpace(w[0]) {
        SkipOver(s, i + 1, w[1..]);
        assert AllRegexSpace(w) <==> AllRegexSpace(w[1..]) by {
          assert forall k | 0 < k < |w| :: w[1..][k - 1] == w[k];
        }
      }
    }
  }

  lemma {:induction false} DigitsOver(s: string, i: nat, num: string)
    requires i + |num| <= |s| && s[i..i + |num|] == num && AllDigits(num)
    requires i + |num| == |s| || !IsDigit(s[i + |num|])
    ensures SkipDigits(s, i) == i + |num|
    decreases |num|
  {
    if num != [] {
      assert s[i] == s[i..i + |num|][0] == num[0];
      assert s[i + 1..i + |num|] == s[i..i + |num|][1..];
      DigitsOver(s, i + 1, num[1..]);
    }
  }

  /** Where the parts of a field stand in a line. */
  predicate StandsAt(s: string, j: nat, x: string) {
    j + |x| <= |s| && s[j..j + |x|] == x
  }

  /** Where the regular expression lets a field end. */
  predicate EndsAt(s: string, u: nat) {
    u == |s| || (u < |s| && (s[u] == ',' || s[u] == '#' || s[u] == ';'))
  }

  /** White space, `=`, and what follows: the middle of the pattern. */
  lemma MatchMiddle(s: string, j: nat, t: Typed)
    requires t.Ok() && StandsAt(s, j, t.key) && StandsAt(s, j + 10, t.w1) && StandsAt(s, j + 10 + |t.w1|, "=")
    ensures !AllRegexSpace(t.w1) ==> MatchBody(s, j).None?
    ensures AllRegexSpace(t.w1) ==> SkipSpace(s, j + 10) == j + 10 + |t.w1| < |s| && s[j + 10 + |t.w1|] == '='
  {
    LowerKey(t.key);
    assert s[j + 10 + |t.w1|] == s[j + 10 + |t.w1|..j + 11 + |t.w1|][0] == '=';
    SkipOver(s, j + 10, t.w1);
  }

  lemma FirstIs(s: string, j: nat, x: string)
    requires StandsAt(s, j, x) && x != []
    ensures j < |s| && s[j] == x[0]
  {
    assert s[j] == s[j..j + |x|][0];
  }

  lemma SpaceNoDigit(w: string)
    requires AllSpace(w)
    ensures w != [] ==> !IsDigit(w[0])
  {
  }

  /** The digits of an unsigned number. */
  lemma MatchDigits(s: string, d: nat, t: Typed, u: nat)
    requires t.Ok() && AllDigits(t.num) && StandsAt(s, d, t.num) && StandsAt(s, d + |t.num|, t.w3)
    requires u == d + |t.num| + |t.w3| && EndsAt(s, u)
    ensures SkipDigits(s, d) == d + |t.num|
  {
    hide AllSpace, ToLower, Atoi, AllDigits;
    SpaceNoDigit(t.w3);
    if t.w3 != [] {
      FirstIs(s, d + |t.num|, t.w3);
    }
    DigitsOver(s, d, t.num);
  }

  /** From the number on: digits, white space, and the end of the field. */
  lemma MatchNumber(s: string, d: nat, t: Typed, u: nat)
    requires t.Ok() && StandsAt(s, d, t.num) && StandsAt(s, d + |t.num|, t.w3) && u == d + |t.num| + |t.w3|
    requires EndsAt(s, u)
    ensures !AllDigits(t.num) ==> SkipDigits(s, d) == d
    ensures AllDigits(t.num) ==> SkipDigits(s, d) == d + |t.num|
    ensures AllDigits(t.num) ==>
      if AllRegexSpace(t.w3) then SkipSpace(s, d + |t.num|) == u
      else SkipSpace(s, d + |t.num|) < u && IsSpace(s[SkipSpace(s, d + |t.num|)])
  {
    hide AllSpace, ToLower, Atoi, AllDigits, AllRegexSpace, SkipSpace;
    NumberText(t.num);
    FirstIs(s, d, t.num);
    if AllDigits(t.num) {
      MatchDigits(s, d, t, u);
      SkipOver(s, d + |t.num|, t.w3);
    }
  }

  /** The pattern behind the `=`. */
  function MatchValue(s: string, i: nat): Option<Match>
    requires i <= |s|
  {
    var d := SkipSpace(s, i);
    var t := SkipDigits(s, d);
    var u := SkipSpace(s, t);
    if t == d then None
    else if u == |s| then Some(Match(s[d..t], u))
    else if s[u] == ',' || s[u] == '#' || s[u] == ';' then Some(Match(s[d..t], u + 1))
    else None
  }

  lemma MatchIs(s: string, j: nat)
    requires j + 10 <= |s| && ToLower(s[j..j + 10]) == KEY
    requires SkipSpace(s, j + 10) < |s| && s[SkipSpace(s, j + 10)] == '='
    ensures MatchBody(s, j) == MatchValue(s, SkipSpace(s, j + 10) + 1)
  {
    hide SkipSpace, SkipDigits, ToLower;
  }

  /** Where the value of a field stands: white space, number, white space, and then its end. */
  predicate ValueAt(s: string, i: nat, t: Typed, u: nat) {
    && StandsAt(s, i, t.w2) && StandsAt(s, i + |t.w2|, t.num) && StandsAt(s, i + |t.w2| + |t.num|, t.w3)
    && u == i + |t.w2| + |t.num| + |t.w3| && EndsAt(s, u)
  }

  lemma ValueSpace(s: string, i: nat, t: Typed, u: nat)
    requires t.Ok() && ValueAt(s, i, t, u)
    ensures if AllRegexSpace(t.w2) then SkipSpace(s, i) == i + |t.w2|
            else SkipDigits(s, SkipSpace(s, i)) == SkipSpace(s, i)
  {
    NumberText(t.num);
    var d := i + |t.w2|;
    assert s[d] == s[d..d + |t.num|][0] == t.num[0];
    SkipOver(s, i, t.w2);
    hide Atoi, ToLower;
  }

  /** The value of a field can be matched. */
  predicate CleanValue(t: Typed) {
    AllDigits(t.num) && AllRegexSpace(t.w2) && AllRegexSpace(t.w3)
  }

  lemma CleanMatches(s: string, i: nat, t: Typed, u: nat)
    requires t.Ok() && ValueAt(s, i, t, u) && CleanValue(t)
    ensures MatchValue(s, i) == Some(Match(t.num, if u == |s| then u else u + 1))
  {
    hide SkipSpace, SkipDigits, Atoi, AllRegexSpace, ToLower, AllDigits, AllSpace;
    NumberText(t.num);
    ValueSpace(s, i, t, u);
    MatchNumber(s, i + |t.w2|, t, u);
  }

  lemma UncleanFails(s: string, i: nat, t: Typed, u: nat)
    requires t.Ok() && ValueAt(s, i, t, u) && !CleanValue(t)
    ensures MatchValue(s, i).None?
  {
    hide SkipSpace, SkipDigits, Atoi, AllRegexSpace, ToLower, AllDigits, AllSpace;
    ValueSpace(s, i, t, u);
    if AllRegexSpace(t.w2) {
      MatchNumber(s, i + |t.w2|, t, u);
    }
  }

  /** The pattern from the key on matches exactly the clean fields, up to their end. */
  lemma MatchKey(s: string, j: nat, t: Typed, i: nat, u: nat)
    requires t.Ok() && StandsAt(s, j, t.key) && StandsAt(s, j + 10, t.w1) && StandsAt(s, j + 10 + |t.w1|, "=")
    requires i == j + 11 + |t.w1| && ValueAt(s, i, t, u)
    ensures MatchBody(s, j) ==
      if AllRegexSpace(t.w1) && CleanValue(t) then Some(Match(t.num, if u == |s| then u else u + 1)) else None
  {
    hide MatchValue, MatchBody, Atoi, AllRegexSpace, AllSpace, SkipSpace, CleanValue, ValueAt;
    LowerKey(t.key);
    MatchMiddle(s, j, t);
    if AllRegexSpace(t.w1) {
      MatchIs(s, j);
      if CleanValue(t) {
        CleanMatches(s, i, t, u);
      } else {
        UncleanFails(s, i, t, u);
      }
    }
  }

  /** Where a field stands behind a comma. */
  predicate FieldAt(s: string, p: nat, t: Typed, u: nat) {
    && p < |s| && s[p] == ',' && StandsAt(s, p + 1, t.Raw()) && u == p + 1 + |t.Raw()| && EndsAt(s, u)
  }

  lemma StandsCut(s: string, j: nat, a: string, b: string)
    requires StandsAt(s, j, a + b)
    ensures StandsAt(s, j, a) && StandsAt(s, j + |a|, b)
  {
    var x := a + b;
    assert s[j..j + |x|] == x;
    assert s[j..j + |a|] == x[..|a|] && s[j + |a|..j + |x|] == x[|a|..];
  }

  lemma RawNested(t: Typed)
    ensures t.Raw() == t.w0 + (t.key + (t.w1 + ("=" + (t.w2 + (t.num + t.w3)))))
  {
  }

  lemma PartsStand(s: string, q: nat, t: Typed, u: nat, j: nat)
    requires |t.key| == 10 && StandsAt(s, q, t.Raw()) && u == q + |t.Raw()| && EndsAt(s, u) && j == q + |t.w0|
    ensures StandsAt(s, q, t.w0) && StandsAt(s, j, t.key) && StandsAt(s, j + 10, t.w1)
    ensures StandsAt(s, j + 10 + |t.w1|, "=") && ValueAt(s, j + 11 + |t.w1|, t, u)
  {
    hide StandsAt;
    RawNested(t);
    var value := t.w2 + (t.num + t.w3);
    StandsCut(s, q, t.w0, t.key + (t.w1 + ("=" + value)));
    StandsCut(s, j, t.key, t.w1 + ("=" + value));
    StandsCut(s, j + 10, t.w1, "=" + value);
    StandsCut(s, j + 10 + |t.w1|, "=", value);
    StandsCut(s, j + 11 + |t.w1|, t.w2, t.num + t.w3);
    StandsCut(s, j + 11 + |t.w1| + |t.w2|, t.num, t.w3);
  }

  lemma KeyStarts(s: string, j: nat, key: string)
    requires ToLower(key) == KEY && StandsAt(s, j, key)
    ensures j + 10 <= |s| && |key| == 10 && !RegexSpace(s[j])
  {
    LowerKey(key);
    assert s[j] == s[j..j + |key|][0] == key[0];
  }

  /** A match starts at the comma exactly when the field behind it is clean, and it takes the
      character that ends the field with it. */
  lemma MatchField(s: string, p: nat, t: Typed, u: nat)
    requires 0 < p && t.Ok() && FieldAt(s, p, t, u)
    ensures MatchAt(s, p) == if t.Clean() then Some(Match(t.num, if u == |s| then u else u + 1)) else None
  {
    hide SkipSpace, MatchBody, AllRegexSpace, StandsAt, ValueAt, Atoi, ToLower;
    var j := p + 1 + |t.w0|;
    LowerKey(t.key);
    PartsStand(s, p + 1, t, u, j);
    KeyStarts(s, j, t.key);
    SkipOverAt(s, p + 1, t.w0);
    if AllRegexSpace(t.w0) {
      MatchKey(s, j, t, j + 11 + |t.w1|, u);
    } else {
      SpaceIsNotKey(s, SkipSpace(s, p + 1));
    }
  }

  lemma SkipOverAt(s: string, i: nat, w: string)
    requires StandsAt(s, i, w) && AllSpace(w) && i + |w| < |s| && !RegexSpace(s[i + |w|])
    ensures if AllRegexSpace(w) then SkipSpace(s, i) == i + |w|
            else SkipSpace(s, i) < i + |w| && IsSpace(s[SkipSpace(s, i)])
  {
    SkipOver(s, i, w);
  }

  lemma SpaceIsNotKey(s: string, j: nat)
    requires j < |s| && IsSpace(s[j])
    ensures MatchBody(s, j).None?
  {
    NotTheKey(s, j);
  }

  /** The text of the fields stands behind this position, up to the end. */
  predicate TailAt(s: string, p: nat, ts: seq<Typed>) {
    p <= |s| && s[p..] == Fields.RawTail(Raws(ts))
  }

  /** A text in three parts, found again behind a position. */
  lemma CutThree(s: string, p: nat, raw: string, rest: string)
    requires p <= |s| && s[p..] == "," + raw + rest
    ensures var u := p + 1 + |raw|;
      u <= |s| && s[p] == ',' && s[p + 1..u] == raw && s[u..] == rest && (rest != [] ==> s[u] == rest[0])
  {
    var x := "," + raw + rest;
    assert s[p] == s[p..][0] && s[p + 1..p + 1 + |raw|] == s[p..][1..1 + |raw|];
    assert s[p + 1 + |raw|..] == s[p..][1 + |raw|..];
    assert x[1..1 + |raw|] == raw && x[1 + |raw|..] == rest;
  }

  lemma TailHead(ts: seq<Typed>)
    ensures ts != [] ==> Fields.RawTail(Raws(ts)) != [] && Fields.RawTail(Raws(ts))[0] == ','
    ensures ts == [] ==> Fields.RawTail(Raws(ts)) == []
    ensures ts != [] ==> Fields.RawTail(Raws(ts)) == "," + ts[0].Raw() + Fields.RawTail(Raws(ts[1..]))
  {
    if ts != [] {
      assert Raws(ts)[1..] == Raws(ts[1..]);
    }
  }

  lemma TailCut(s: string, p: nat, ts: seq<Typed>)
    requires ts != [] && TailAt(s, p, ts)
    ensures var u := p + 1 + |ts[0].Raw()|;
      u <= |s| && FieldAt(s, p, ts[0], u) && TailAt(s, u, ts[1..]) && (u == |s| <==> |ts| == 1)
  {
    hide Typed.Raw, Fields.RawTail, Raws;
    TailHead(ts);
    TailHead(ts[1..]);
    CutThree(s, p, ts[0].Raw(), Fields.RawTail(Raws(ts[1..])));
  }

  lemma TailEmpty(s: string, p: nat)
    requires TailAt(s, p, [])
    ensures p == |s|
  {
  }

  lemma FieldStarts(s: string, p: nat, t: Typed, u: nat)
    requires FieldAt(s, p, t, u)
    ensures p < u <= |s| && s[p] == ',' && u == p + 1 + |t.Raw()|
    ensures t.Ok() ==> Atoi(t.num) == Some(t.port) && IsPort(t.port)
  {
  }

  lemma FieldHasNoComma(s: string, p: nat, t: Typed, u: nat)
    requires t.Ok() && FieldAt(s, p, t, u)
    ensures ',' !in s[p + 1..u]
  {
    RawIsBare(t);
  }

  lemma ScanEnd(s: string)
    requires s != []
    ensures Captures(s, |s|) == [] && PortsIn([]) == {}
  {
  }

  lemma OneCapture(num: string, port: nat, rest: seq<string>)
    requires Atoi(num) == Some(port) && IsPort(port)
    ensures PortsIn([num] + rest) == {port} + PortsIn(rest)
  {
    assert num in [num] + rest;
    forall c | c in [num] + rest ensures c == num || c in rest {
    }
    hide Atoi;
  }

  lemma CaptureStep(s: string, p: nat)
    requires p < |s|
    ensures Captures(s, p) ==
      match MatchAt(s, p)
      case Some(m) => [m.digits] + Captures(s, m.end)
      case None => Captures(s, p + 1)
  {
    hide MatchAt;
  }

  /** The scan over a tail of port fields reports exactly those of `Reported`. */
  lemma {:induction false} ScanTail(s: string, p: nat, ts: seq<Typed>)
    requires 0 < p && TailAt(s, p, ts) && AllOk(ts)
    ensures PortsIn(Captures(s, p)) == Reported(ts)
    decreases |ts|
  {
    hide MatchAt, TailAt, FieldAt, Typed.Ok, Typed.Clean, Typed.Raw, Captures, PortsIn, Atoi;
    if ts == [] {
      assert p == |s| by { TailEmpty(s, p); }
      ScanEnd(s);
    } else {
      var t, u := ts[0], p + 1 + |ts[0].Raw()|;
      assert t.Ok() && AllOk(ts[1..]);
      TailCut(s, p, ts);
      FieldStarts(s, p, t, u);
      MatchField(s, p, t, u);
      CaptureStep(s, p);
      if !t.Clean() {
        FieldHasNoComma(s, p, t, u);
        CapturesSkip(s, p + 1, u);
        ScanTail(s, u, ts[1..]);
      } else if |ts| == 1 {
        ScanEnd(s);
        OneCapture(t.num, t.port, []);
      } else {
        var v := u + 1 + |ts[1].Raw()|;
        assert ts[1..][0] == ts[1] && ts[1..][1..] == ts[2..] && ts[1].Ok() && AllOk(ts[2..]);
        TailCut(s, u, ts[1..]);
        FieldHasNoComma(s, u, ts[1], v);
        CapturesSkip(s, u + 1, v);
        ScanTail(s, v, ts[2..]);
        OneCapture(t.num, t.port, Captures(s, v));
      }
    }
  }

  // ---------- the printed front of the line ----------

  /** No comma in what the printer quotes. */
  predicate NoCommas(profile: string, e: Entry) {
    ',' !in profile && ',' !in e.exec && ',' !in e.link
  }

  lemma {:induction false} EscapeNoComma(v: string)
    requires ',' !in v
    ensures ',' !in Quoting.Escape(v)
  {
    if v != [] {
      assert v[0] in v;
      Quoting.HexPlain(v[0] as int, 2);
      Quoting.HexPlain(v[0] as int, 4);
      Quoting.HexPlain(v[0] as int, 8);
      EscapeNoComma(v[1..]);
    }
  }

  /** Fields behind the first one, each in its own word and without a comma. */
  function JoinRest(fs: seq<string>): string {
    if fs == [] then [] else ", " + fs[0] + JoinRest(fs[1..])
  }

  lemma {:induction false} JoinIsRest(f: string, fs: seq<string>)
    ensures Join([f] + fs, ", ") == f + JoinRest(fs)
    decreases |fs|
  {
    assert ([f] + fs)[1..] == fs;
    if fs != [] {
      JoinIsRest(fs[0], fs[1..]);
      assert [fs[0]] + fs[1..] == fs;
      assert f + ", " + (fs[0] + JoinRest(fs[1..])) == f + (", " + fs[0] + JoinRest(fs[1..]));
    }
  }

  /** A field that cannot start a match. */
  predicate Quiet(f: string) {
    f != [] && ',' !in f && !RegexSpace(f[0]) && Lower(f[0]) != 'l'
  }

  lemma QuietComma(s: string, p: nat, f: string, rest: string)
    requires 0 < p && StandsAt(s, p, ", " + f + rest) && Quiet(f)
    ensures p < |s| && Captures(s, p) == Captures(s, p + 1)
  {
    var x := ", " + f + rest;
    assert s[p] == s[p..p + |x|][0] == ',' && s[p + 1] == s[p..p + |x|][1] == ' ';
    assert s[p + 2] == s[p..p + |x|][2] == f[0];
    assert SkipSpace(s, p + 1) == p + 2;
    NotTheKey(s, p + 2);
  }

  lemma {:induction false} QuietFields(s: string, i: nat, x: string, fs: seq<string>)
    requires 0 < i && StandsAt(s, i, x + JoinRest(fs)) && ',' !in x && forall k | 0 <= k < |fs| :: Quiet(fs[k])
    ensures Captures(s, i) == Captures(s, i + |x + JoinRest(fs)|)
    decreases |fs|
  {
    hide Captures, Quiet;
    StandsCut(s, i, x, JoinRest(fs));
    var p := i + |x|;
    CapturesSkip(s, i, p);
    if fs == [] {
      assert x + JoinRest(fs) == x;
    } else {
      var rest := JoinRest(fs[1..]);
      assert Quiet(fs[0]);
      QuietComma(s, p, fs[0], rest);
      assert JoinRest(fs) == "," + (" " + fs[0] + rest);
      StandsCut(s, p, ",", " " + fs[0] + rest);
      QuietWord(fs[0]);
      QuietFields(s, p + 1, " " + fs[0], fs[1..]);
    }
  }

  lemma QuietWord(f: string)
    requires Quiet(f)
    ensures ',' !in " " + f
  {
  }

  /** The start of the line is no match, even for a policy named like the key. */
  lemma HeadNoMatch(s: string, name: string, rest: string)
    requires name != [] && Clean(name) && s == name + " = external" + rest
    ensures MatchBody(s, 0).None?
  {
    NameIsKey(name);
    var n := |name| + 1;
    assert s[n] == '=' && s[n + 1] == ' ' && s[n + 2] == 'e';
    assert forall k | 0 <= k < n :: s[k] == (name + " ")[k] && s[k] != '=';
    if |s| >= 10 && ToLower(s[0..10]) == KEY {
      LowerKey(s[0..10]);
      assert forall k | 0 <= k < 10 :: s[k] == s[0..10][k];
      var e := SkipSpace(s, 10);
      if e < |s| && s[e] == '=' {
        assert e == n;
        assert SkipSpace(s, e + 1) == e + 2 && SkipDigits(s, e + 2) == e + 2;
      }
    }
  }

  lemma FirstStep(s: string)
    requires s != [] && s[0] != ',' && MatchBody(s, 0).None?
    ensures Captures(s, 0) == Captures(s, 1)
  {
  }

  lemma QuietAssign(key: string, v: string)
    requires (key == "exec" || key == "args") && ',' !in v
    ensures Quiet(Assign(key, Quoting.Quote(v)))
  {
    EscapeNoComma(v);
  }

  lemma {:induction false} QuietArgs(vs: seq<string>)
    requires forall k | 0 <= k < |vs| :: ',' !in vs[k]
    ensures forall k | 0 <= k < |ArgFields(vs)| :: Quiet(ArgFields(vs)[k])
  {
    hide Quiet;
    if vs != [] {
      QuietAssign("args", vs[0]);
      QuietArgs(vs[1..]);
    }
  }

  /** The fields of the printed front behind the first one. */
  function Behind(profile: string, e: Entry): seq<string> {
    [Assign("exec", Quoting.Quote(e.exec))] + ArgFields(Args(profile, e))
  }

  lemma ArgsNoCommas(profile: string, e: Entry)
    requires NoCommas(profile, e)
    ensures var vs := Args(profile, e); forall k | 0 <= k < |vs| :: ',' !in vs[k]
  {
    assert ',' !in Itoa(e.port);
    hide Itoa;
  }

  lemma QuietBehind(profile: string, e: Entry)
    requires NoCommas(profile, e)
    ensures var fs := Behind(profile, e); forall k | 0 <= k < |fs| :: Quiet(fs[k])
  {
    hide Quiet, ArgFields, Args;
    ArgsNoCommas(profile, e);
    QuietArgs(Args(profile, e));
    QuietAssign("exec", e.exec);
  }

  lemma HeadStands(head: string, rest: string, tail: string)
    requires head != []
    ensures StandsAt(head + rest + tail, 1, head[1..] + rest)
  {
    var s, x := head + rest + tail, head[1..] + rest;
    assert head + rest == [head[0]] + x;
    assert s[1..1 + |x|] == x;
  }

  lemma HeadNoComma(name: string)
    requires name != [] && Clean(name)
    ensures name[0] != ',' && ',' !in (name + " = external")[1..]
  {
    NameIsKey(name);
    assert name[0] in name;
    assert (name + " = external")[1..] == name[1..] + " = external";
  }

  lemma QuietLine(name: string, fs: seq<string>, tail: string)
    requires name != [] && Clean(name) && forall k | 0 <= k < |fs| :: Quiet(fs[k])
    ensures var a := name + " = external" + JoinRest(fs); Captures(a + tail, 0) == Captures(a + tail, |a|)
  {
    hide Captures, Quiet, JoinRest, MatchBody, Clean, StandsAt;
    var head, rest := name + " = external", JoinRest(fs);
    var s := head + rest + tail;
    assert s == name + " = external" + (rest + tail);
    HeadNoMatch(s, name, rest + tail);
    HeadNoComma(name);
    assert s[0] == name[0];
    FirstStep(s);
    HeadStands(head, rest, tail);
    assert |head + rest| == 1 + |head[1..] + rest|;
    QuietFields(s, 1, head[1..], fs);
  }

  lemma FrontIs(profile: string, e: Entry)
    ensures FrontFields(profile, e) == [e.name + " = external"] + Behind(profile, e)
  {
    assert Assign(e.name, "external") == e.name + " = external";
    hide ArgFields, Args;
  }

  /** The printed front holds nothing for the scanner when its values hold no comma. */
  lemma FrontQuiet(profile: string, e: Entry, tail: string)
    requires e.name != [] && Clean(e.name) && NoCommas(profile, e)
    ensures var a := Join(FrontFields(profile, e), ", "); a != [] && Captures(a + tail, 0) == Captures(a + tail, |a|)
  {
    var fs := Behind(profile, e);
    FrontIs(profile, e);
    hide FrontFields, Behind, Captures, Quiet, JoinRest;
    QuietBehind(profile, e);
    JoinIsRest(e.name + " = external", fs);
    QuietLine(e.name, fs, tail);
  }

  // ---------- which ports are reported ----------

  lemma NamedNoComment(line: string)
    requires LineName(line) != []
    ensures LinePorts(line) == PortsIn(Captures(line, 0))
  {
    hide Sanitize, Captures;
  }

  /** A line with a printed front and any port fields behind it is accepted exactly when the last of
      them has the port of the command line, or the command line has none because the profile path
      takes its option away; then with that port.  And the scanner reports exactly the ports of
      `Reported`.  So it misses the port of the policy exactly when that is none of them. */
  lemma TypedPorts(profile: string, e: Entry, ts: seq<Typed>)
    requires GoodEntry(e) && Readable(profile, e) && NoCommas(profile, e) && AllOk(ts) && ts != []
    ensures var line, port := TypedLine(profile, e, ts), ts[|ts| - 1].port;
      && (Parse(line).Some? <==> port == e.port || profile == "--local-port")
      && (Parse(line).Some? ==> Parse(line).value == Policy(e.name, e.link, "127.0.0.1", port, "127.0.0.1", port))
      && LinePorts(line) == Reported(ts)
  {
    var a, tail := Join(FrontFields(profile, e), ", "), Fields.RawTail(Raws(ts));
    TypedParses(profile, e, ts);
    GoodName(e);
    NamedNoComment(TypedLine(profile, e, ts));
    FrontQuiet(profile, e, tail);
    assert (a + tail)[|a|..] == tail;
    hide GoodEntry, Readable, NoCommas, FrontFields, Captures, LinePorts, Parse, Reported, LineName;
    ScanTail(a + tail, |a|, ts);
  }

  lemma GoodName(e: Entry)
    requires GoodEntry(e)
    ensures e.name != []
  {
  }

  /** With one port field: reported exactly when it has no sign and no white space but that of the
      regular expression. */
  lemma OneTypedPort(profile: string, e: Entry, t: Typed)
    requires GoodEntry(e) && Readable(profile, e) && NoCommas(profile, e) && t.Ok() && t.port == e.port
    ensures var line := TypedLine(profile, e, [t]);
      && Parse(line) == Some(PolicyOf(e)) && (e.port in LinePorts(line) <==> t.Clean())
  {
    assert AllOk([t]) && [t][1..] == [];
    hide GoodEntry, Readable, NoCommas, LinePorts, Parse, TypedLine, Typed.Ok, Typed.Clean;
    TypedPorts(profile, e, [t]);
  }

  /** The field as the printer writes it, but for the number. */
  function Plain(num: string, port: nat): Typed {
    Typed(" ", KEY, " ", " ", num, "", port)
  }

  lemma LowerOfKey()
    ensures ToLower(KEY) == KEY
  {
  }

  lemma SignedNumber(n: nat)
    requires IsPort(n)
    ensures Atoi(Itoa(n)) == Some(n) && Atoi("+" + Itoa(n)) == Some(n) && !AllDigits("+" + Itoa(n))
  {
    AtoiOfItoa(n);
    hide Itoa;
    assert ("+" + Itoa(n))[1..] == Itoa(n);
    assert !IsDigit(("+" + Itoa(n))[0]);
  }

  lemma PlainOk(n: nat)
    requires IsPort(n)
    ensures Plain(Itoa(n), n).Ok() && Plain(Itoa(n), n).Clean()
    ensures Plain("+" + Itoa(n), n).Ok() && !Plain("+" + Itoa(n), n).Clean()
  {
    hide Itoa, Atoi, ToLower;
    LowerOfKey();
    SignedNumber(n);
  }

  /** An accepted line whose port has a plus sign: the scanner misses it. */
  lemma SignedPortMissed(profile: string, e: Entry)
    requires GoodEntry(e) && Readable(profile, e) && NoCommas(profile, e)
    ensures var line := TypedLine(profile, e, [Plain("+" + Itoa(e.port), e.port)]);
      Parse(line) == Some(PolicyOf(e)) && e.port !in LinePorts(line)
  {
    PlainOk(e.port);
    OneTypedPort(profile, e, Plain("+" + Itoa(e.port), e.port));
  }

  /** An accepted line with two port fields side by side: the scanner misses the second, which is
      the one that counts. */
  lemma AdjacentPortMissed(profile: string, e: Entry, m: nat)
    requires GoodEntry(e) && Readable(profile, e) && NoCommas(profile, e) && IsPort(m) && m != e.port
    ensures var line := TypedLine(profile, e, [Plain(Itoa(m), m), Plain(Itoa(e.port), e.port)]);
      Parse(line) == Some(PolicyOf(e)) && e.port !in LinePorts(line)
  {
    PlainOk(m);
    PlainOk(e.port);
    var ts := [Plain(Itoa(m), m), Plain(Itoa(e.port), e.port)];
    assert AllOk(ts) && ts[2..] == [] && ts[0].Clean();
    hide GoodEntry, Readable, NoCommas, LinePorts, Parse, TypedLine, Itoa;
    TypedPorts(profile, e, ts);
  }

  /** An entry to which these lemmas apply. */
  lemma Example(port: nat)
    requires IsPort(port)
    ensures var e := Entry("A", "x", "vless://h", port, None);
      GoodEntry(e) && Readable("", e) && NoCommas("", e)
  {
    var link := "vless://h";
    assert ToLower(link)[..8] == "vless://";
    assert IsNameChar('A');
    TrimOfTrimmed("x");
  }

  /** No comment, in the words of the text. */
  predicate Says(line: string) {
    Trim(line) != [] && Trim(line)[0] != '#' && Trim(line)[0] != ';'
  }

  lemma SaysPorts(line: string)
    requires Says(line)
    ensures LinePorts(line) == PortsIn(Captures(line, 0))
  {
    hide Captures, Trim;
  }

  lemma CapturedPort(captures: seq<string>, t: Typed)
    requires t.Ok() && t.num in captures
    ensures t.port in PortsIn(captures)
  {
    hide Atoi, ToLower;
  }

  /** For every line that is no comment: a clean port field behind a comma that follows neither a
      digit nor white space is reported, whatever else the line holds, up to its end or to the
      next comma, `#` or `;`. */
  lemma CleanPortReported(line: string, p: nat, t: Typed, u: nat)
    requires Says(line) && t.Ok() && t.Clean()
    requires 0 < p && FieldAt(line, p, t, u) && !IsDigit(line[p - 1]) && !RegexSpace(line[p - 1])
    ensures t.port in LinePorts(line)
  {
    SaysPorts(line);
    MatchField(line, p, t, u);
    CaptureReached(line, 0, p);
    hide Captures, LinePorts, MatchAt, Atoi, Trim, Says, Typed.Ok;
    CapturedPort(Captures(line, 0), t);
  }

  lemma FirstCapture(s: string)
    requires MatchBody(s, 0).Some?
    ensures MatchBody(s, 0).value.digits in Captures(s, 0)
  {
    hide MatchBody;
  }

  /** And so is a clean port field with which a line starts. */
  lemma StartPortReported(line: string, t: Typed, u: nat)
    requires Says(line) && t.Ok() && t.Clean() && t.w0 == []
    requires StandsAt(line, 0, t.Raw()) && u == |t.Raw()| && EndsAt(line, u)
    ensures t.port in LinePorts(line)
  {
    hide Captures, LinePorts, MatchBody, Atoi, Trim, Says, ToLower, AllRegexSpace, StandsAt, ValueAt;
    SaysPorts(line);
    LowerKey(t.key);
    PartsStand(line, 0, t, u, 0);
    MatchKey(line, 0, t, 11 + |t.w1|, u);
    FirstCapture(line);
    CapturedPort(Captures(line, 0), t);
  }
}

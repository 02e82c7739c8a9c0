/** The printer and the parser of managed lines agree. */
module RoundTrip {
  import opened Text
  import opened Quoting
  import opened Fields
  import opened Names
  import opened Ports
  import opened Lines
  import PortScan

  /** An entry as the editor makes them: a clean name, a legal port, a trimmed VLESS link. */
  predicate GoodEntry(e: Entry) {
    && e.name != [] && Clean(e.name) && IsPort(e.port) && IsLink(e.link)
    && (e.address.Some? ==> IsAddress(e.address.value))
  }

  /** The policy that the line of an entry is meant to be. */
  function PolicyOf(e: Entry): Policy {
    Policy(e.name, e.link, LOCAL_HOST, e.port, LOCAL_HOST, e.port)
  }

  // ---------- the fields come back ----------

  /** A key that may stand before ` = ` in a field. */
  predicate GoodKey(key: string) {
    key != [] && Trimmed(key) && forall c | c in key :: c != '"' && c != ',' && c != '='
  }

  lemma NameIsKey(name: string)
    requires name != [] && Clean(name)
    ensures GoodKey(name) && '\n' !in name
  {
    forall c | c in name ensures c != '"' && c != ',' && c != '=' && c != '\n' {
      assert IsNameChar(c);
    }
  }

  lemma AssignPlain(key: string, value: string)
    requires GoodKey(key) && Plain(value)
    ensures Plain(Assign(key, value))
  {
    PrefixedPlain(key + " = ", value);
  }

  lemma WordPlain(value: string)
    requires value != [] && Trimmed(value) && '"' !in value && ',' !in value
    ensures Plain(value)
  {
    UnquotedText(value);
  }

  predicate AllPlain(fs: seq<string>) {
    forall f | f in fs :: Plain(f)
  }

  lemma AllPlainAppend(a: seq<string>, b: seq<string>)
    requires AllPlain(a) && AllPlain(b)
    ensures AllPlain(a + b)
  {
  }

  lemma AllPlainCons(f: string, fs: seq<string>)
    requires Plain(f) && AllPlain(fs)
    ensures AllPlain([f] + fs)
  {
  }

  lemma {:induction false} ArgFieldsPlain(vs: seq<string>)
    ensures AllPlain(ArgFields(vs))
  {
    if vs != [] {
      QuotePlain(vs[0]);
      AssignPlain("args", Quote(vs[0]));
      ArgFieldsPlain(vs[1..]);
      AllPlainCons(ArgField(vs[0]), ArgFields(vs[1..]));
    }
  }

  lemma NumberPlain(n: nat)
    ensures Plain(Itoa(n)) && Trimmed(Itoa(n)) && '\n' !in Itoa(n)
  {
    var s := Itoa(n);
    assert IsDigit(s[0]) && IsDigit(s[|s| - 1]);
    WordPlain(s);
  }

  lemma AddressPlain(a: string)
    requires IsAddress(a)
    ensures Plain(a) && '\n' !in a
  {
    WordPlain(a);
  }

  lemma UdpPlain()
    ensures AllPlain([Assign("udp-relay", "true")])
  {
    WordPlain("true");
    AssignPlain("udp-relay", "true");
  }

  lemma AddressFieldPlain(a: string)
    requires IsAddress(a)
    ensures AllPlain([Assign("addresses", a)])
  {
    AddressPlain(a);
    AssignPlain("addresses", a);
  }

  lemma BackPlain(e: Entry)
    requires e.address.Some? ==> IsAddress(e.address.value)
    ensures AllPlain(BackFields(e))
  {
    UdpPlain();
    if e.address.Some? {
      AddressFieldPlain(e.address.value);
      AllPlainAppend([Assign("udp-relay", "true")], [Assign("addresses", e.address.value)]);
    }
  }

  lemma ExternalPlain()
    ensures Plain("external")
  {
    WordPlain("external");
  }

  lemma FrontPlain(profile: string, e: Entry)
    requires GoodEntry(e)
    ensures AllPlain(FrontFields(profile, e))
  {
    var head, exec, args := Assign(e.name, "external"), Assign("exec", Quote(e.exec)), ArgFields(Args(profile, e));
    hide Plain, Clean, IsLink, IsAddress, Args, ArgFields;
    NameIsKey(e.name);
    ExternalPlain();
    AssignPlain(e.name, "external");
    QuotePlain(e.exec);
    AssignPlain("exec", Quote(e.exec));
    ArgFieldsPlain(Args(profile, e));
    AllPlainCons(exec, args);
    AllPlainCons(head, [exec] + args);
    assert FrontFields(profile, e) == [head] + ([exec] + args);
  }

  lemma FieldsPlain(profile: string, e: Entry)
    requires GoodEntry(e)
    ensures AllPlain(LineFields(profile, e))
  {
    FrontPlain(profile, e);
    NumberPlain(e.port);
    AssignPlain(PortScan.KEY, Itoa(e.port));
    BackPlain(e);
    AllPlainCons(PortField(e), BackFields(e));
    AllPlainAppend(FrontFields(profile, e), [PortField(e)] + BackFields(e));
    assert LineFields(profile, e) == FrontFields(profile, e) + ([PortField(e)] + BackFields(e));
  }

  /** The splitter returns exactly the fields that were joined, whatever commas, quotation
      marks or backslashes the link, the exec path and the profile path contain. */
  lemma FieldsComeBack(profile: string, e: Entry)
    requires GoodEntry(e)
    ensures SplitFields(LineOf(profile, e)) == LineFields(profile, e)
  {
    FieldsPlain(profile, e);
    SplitOfJoinedFields(LineFields(profile, e));
  }

  // ---------- reading single fields ----------

  lemma TrimTail(a: string)
    requires Trimmed(a)
    ensures Trim(a + " ") == a && Trim(" " + a) == a
  {
    assert [] + a + " " == a + " " && " " + a + [] == " " + a;
    TrimPad([], a, " ");
    TrimPad(" ", a, []);
  }

  lemma AssignCut(key: string, value: string)
    requires '=' !in key
    ensures var f := Assign(key, value);
      Index(f, '=') == |key| + 1 && |key| + 1 < |f| && f[..|key| + 1] == key + " " && f[|key| + 2..] == " " + value
  {
    assert Assign(key, value) == (key + " ") + ['='] + (" " + value);
    IndexAt(key + " ", '=', " " + value);
  }

  lemma KeyValue(key: string, value: string)
    requires '=' !in key && Trimmed(key) && Trimmed(value)
    ensures var f := Assign(key, value); HasKey(f) && Key(f) == key && Value(f) == value
  {
    AssignCut(key, value);
    TrimTail(key);
    TrimTail(value);
  }

  lemma QuoteTrimmed(v: string)
    ensures Trimmed(Quote(v)) && UnquoteOr(Quote(v)) == v
  {
    UnquoteOfQuote(v);
  }

  lemma StepIsArg(seen: Seen, f: string, v: string)
    requires HasKey(f) && ToLower(Key(f)) == "args" && UnquoteOr(Value(f)) == v
    ensures Step(seen, f) == seen.(args := seen.args + [v])
  {
  }

  lemma {:induction false} StepsCons(seen: Seen, f: string, fs: seq<string>)
    ensures Steps(seen, [f] + fs) == Steps(Step(seen, f), fs)
  {
    assert ([f] + fs)[1..] == fs;
  }

  lemma StepArg(seen: Seen, v: string)
    ensures Step(seen, ArgField(v)) == seen.(args := seen.args + [v])
  {
    QuoteTrimmed(v);
    KeyValue("args", Quote(v));
    LowerArgs();
    StepIsArg(seen, ArgField(v), v);
  }

  lemma LowerArgs()
    ensures ToLower("args") == "args"
  {
  }

  lemma StepsArg(seen: Seen, v: string, fs: seq<string>)
    ensures Steps(seen, [ArgField(v)] + fs) == Steps(seen.(args := seen.args + [v]), fs)
  {
    StepArg(seen, v);
    StepsCons(seen, ArgField(v), fs);
  }

  lemma ShiftOne(a: seq<string>, b: seq<string>)
    requires b != []
    ensures a + [b[0]] + b[1..] == a + b
  {
  }

  lemma {:induction false} StepsArgs(seen: Seen, vs: seq<string>)
    ensures Steps(seen, ArgFields(vs)) == seen.(args := seen.args + vs)
    decreases |vs|
  {
    if vs == [] {
      assert seen.args + vs == seen.args;
    } else {
      StepsArg(seen, vs[0], ArgFields(vs[1..]));
      StepsArgs(seen.(args := seen.args + [vs[0]]), vs[1..]);
      ShiftOne(seen.args, vs);
    }
  }

  lemma {:induction false} StepsAppend(seen: Seen, a: seq<string>, b: seq<string>)
    ensures Steps(seen, a + b) == Steps(Steps(seen, a), b)
    decreases |a|
  {
    if a == [] {
      assert a + b == b;
    } else {
      assert (a + b)[1..] == a[1..] + b;
      StepsAppend(Step(seen, a[0]), a[1..], b);
    }
  }

  lemma StepOther(seen: Seen, key: string, value: string)
    requires '=' !in key && Trimmed(key) && Trimmed(value)
    requires ToLower(key) !in ["args", "local-port", "local-host", "listen"]
    ensures Step(seen, Assign(key, value)) == seen
  {
    KeyValue(key, value);
  }

  lemma StepExec(seen: Seen, exec: string)
    ensures Step(seen, Assign("exec", Quote(exec))) == seen
  {
    QuoteTrimmed(exec);
    assert ToLower("exec") == "exec";
    StepOther(seen, "exec", Quote(exec));
  }

  lemma StepUdp(seen: Seen)
    ensures Step(seen, Assign("udp-relay", "true")) == seen
  {
    assert ToLower("udp-relay")[0] == 'u';
    StepOther(seen, "udp-relay", "true");
  }

  lemma StepAddress(seen: Seen, a: string)
    requires IsAddress(a)
    ensures Step(seen, Assign("addresses", a)) == seen
  {
    assert ToLower("addresses")[1] == 'd';
    StepOther(seen, "addresses", a);
  }

  lemma StepPort(seen: Seen, e: Entry)
    requires IsPort(e.port)
    ensures Step(seen, PortField(e)) == seen.(port := e.port)
  {
    NumberPlain(e.port);
    AtoiOfItoa(e.port);
    KeyValue(PortScan.KEY, Itoa(e.port));
    LowerPort();
    StepIsPort(seen, PortField(e), e.port);
  }

  lemma LowerPort()
    ensures ToLower(PortScan.KEY) == PortScan.KEY
  {
  }

  lemma StepIsPort(seen: Seen, f: string, n: nat)
    requires HasKey(f) && ToLower(Key(f)) == "local-port" && Atoi(Value(f)) == Some(n) && IsPort(n)
    ensures Step(seen, f) == seen.(port := n)
  {
  }

  lemma StepsBack(seen: Seen, e: Entry)
    requires e.address.Some? ==> IsAddress(e.address.value)
    ensures Steps(seen, BackFields(e)) == seen
  {
    var udp := Assign("udp-relay", "true");
    StepUdp(seen);
    if e.address.Some? {
      StepAddress(seen, e.address.value);
      StepsCons(seen, udp, [Assign("addresses", e.address.value)]);
      StepsCons(seen, Assign("addresses", e.address.value), []);
    } else {
      assert [udp] + [] == [udp];
      StepsCons(seen, udp, []);
    }
  }

  /** What the loop of managedPolicy has seen after the fields of a generated line. */
  lemma SeenOfLine(profile: string, e: Entry)
    requires GoodEntry(e)
    ensures Steps(NOTHING_SEEN, LineFields(profile, e)[1..]) == Seen(Args(profile, e), e.port, LOCAL_HOST)
  {
    var exec, args, vs := Assign("exec", Quote(e.exec)), ArgFields(Args(profile, e)), Args(profile, e);
    var rest := [PortField(e)] + BackFields(e);
    assert LineFields(profile, e)[1..] == [exec] + (args + rest);
    StepExec(NOTHING_SEEN, e.exec);
    StepsCons(NOTHING_SEEN, exec, args + rest);
    StepsArgs(NOTHING_SEEN, vs);
    assert [] + vs == vs;
    StepsAppend(NOTHING_SEEN, args, rest);
    StepPort(Seen(vs, 0, LOCAL_HOST), e);
    StepsCons(Seen(vs, 0, LOCAL_HOST), PortField(e), BackFields(e));
    StepsBack(Seen(vs, e.port, LOCAL_HOST), e);
  }

  // ---------- name, exec path and arguments ----------

  /** Trimming a line that starts and continues without space only cuts its end. */
  lemma TrimHead(head: string, rest: string)
    requires head != [] && Trimmed(head)
    ensures Trim(head + rest) == head + TrimRight(rest)
  {
    hide Trim, TrimRight, AllSpace;
    var b := TrimRightSplit(rest);
    assert head + rest == [] + (head + TrimRight(rest)) + b;
    TrimPad([], head + TrimRight(rest), b);
  }

  /** The name of a line `name = ...`. */
  lemma NameOfLine(name: string, rest: string)
    requires name != [] && Clean(name)
    ensures LineName(name + " =" + rest) == name
  {
    hide TrimRight, Trim, Sanitize;
    NameIsKey(name);
    var head, tail := name + " =", TrimRight(rest);
    TrimHead(head, rest);
    assert head + tail == (name + " ") + ['='] + tail;
    IndexAt(name + " ", '=', tail);
    assert (head + tail)[..|name| + 1] == [] + name + " ";
    SanitizePadded([], name, " ");
    assert IsNameChar(name[0]) && (head + tail)[0] == name[0];
  }

  lemma LeftOf(a: string) returns (w: string)
    ensures var left := TrimLeft(a);
      && AllSpace(w) && a == w + left && Sanitize(left) == Sanitize(a)
      && (left != [] ==> !IsSpace(left[0]))
      && (Trim(a) == [] <==> left == []) && (left != [] ==> Trim(a)[0] == left[0])
  {
    w := TrimLeftSplit(a);
    var left := TrimLeft(a);
    var v := TrimRightSplit(left);
    TrimPadded(w, left, []);
    assert w + left + [] == a;
    hide TrimLeft, TrimRight, IsSpace, Words, ReplaceUnsafe;
  }

  lemma LeftEquals(left: string, b: string)
    requires '=' !in left && (left != [] ==> !IsSpace(left[0]))
    ensures var t := left + "=" + TrimRight(b);
      Trim(left + "=" + b) == t && Index(t, '=') == |left| < |t| && t[..|left|] == left
  {
    var rest := TrimRight(b);
    assert Trimmed(left + "=");
    hide TrimRight, Trim, Index;
    TrimHead(left + "=", b);
    assert left + "=" + rest == left + ['='] + rest;
    IndexAt(left, '=', rest);
  }

  lemma PaddedLeft(w: string, s: string)
    requires AllSpace(w)
    ensures Trim(w + s) == Trim(s)
  {
    TrimPadded(w, s, []);
    assert w + s + [] == w + s;
  }

  /** The name of any line: the sanitized text before its first `=`, unless the line is a comment;
      a line without `=` has no name. */
  lemma NameOfAnyLine(a: string, b: string)
    requires '=' !in a
    ensures LineName(a + "=" + b) ==
      if Trim(a) != [] && (Trim(a)[0] == '#' || Trim(a)[0] == ';') then [] else Sanitize(a)
    ensures LineName(a) == []
  {
    hide Trim, TrimLeft, TrimRight, Sanitize, Index, AllSpace;
    var left := TrimLeft(a);
    var pad := LeftOf(a);
    LeftEquals(left, b);
    PaddedLeft(pad, left + "=" + b);
    assert a + "=" + b == pad + (left + "=" + b);
    var w, v := TrimSplit(a);
    assert forall c | c in Trim(a) :: c in w + Trim(a) + v;
  }

  /** A generated line is its name, `=`, and a rest that does not depend on the name. */
  function LineRest(profile: string, e: Entry): string {
    " external" + ", " + Join(LineFields(profile, e)[1..], ", ")
  }

  lemma LineSplits(profile: string, e: Entry)
    ensures LineOf(profile, e) == e.name + " =" + LineRest(profile, e)
  {
    var fs := LineFields(profile, e);
    assert |fs| > 1 && fs[0] == Assign(e.name, "external");
    assert Assign(e.name, "external") == e.name + " =" + " external";
  }

  lemma LineNameBack(profile: string, e: Entry)
    requires e.name != [] && Clean(e.name)
    ensures LineName(LineOf(profile, e)) == e.name
  {
    LineSplits(profile, e);
    NameOfLine(e.name, LineRest(profile, e));
  }

  /** proxyLineExecPath returns the trimmed exec path, unless the policy is named "exec":
      then its own first field is taken for the exec field. */
  lemma ExecBack(profile: string, e: Entry)
    requires GoodEntry(e)
    ensures ExecPath(LineFields(profile, e)) == if EqualFold(e.name, "exec") then "external" else Trim(e.exec)
  {
    var head, exec := Assign(e.name, "external"), Assign("exec", Quote(e.exec));
    var rest := ArgFields(Args(profile, e)) + [PortField(e)] + BackFields(e);
    assert LineFields(profile, e) == [head] + ([exec] + rest);
    ExecHead(e.name, [exec] + rest);
    ExecField(e.exec, rest);
  }

  lemma ExecHead(name: string, fs: seq<string>)
    requires name != [] && Clean(name)
    ensures ExecPath([Assign(name, "external")] + fs) == if EqualFold(name, "exec") then "external" else ExecPath(fs)
  {
    NameIsKey(name);
    KeyValue(name, "external");
    ExecFirst(Assign(name, "external"), fs);
    ExternalValue();
  }

  lemma ExternalValue()
    ensures Trim(UnquoteOr("external")) == "external"
  {
    assert Unquote("external") == None;
    TrimOfTrimmed("external");
  }

  lemma ExecField(exec: string, fs: seq<string>)
    ensures ExecPath([Assign("exec", Quote(exec))] + fs) == Trim(exec)
  {
    QuoteTrimmed(exec);
    KeyValue("exec", Quote(exec));
    ExecFirst(Assign("exec", Quote(exec)), fs);
  }

  lemma ExecFirst(f: string, fs: seq<string>)
    requires HasKey(f)
    ensures ExecPath([f] + fs) == if EqualFold(Key(f), "exec") then Trim(UnquoteOr(Value(f))) else ExecPath(fs)
  {
    assert ([f] + fs)[1..] == fs;
  }

  lemma ListenSkip(a: string, args: seq<string>, host: string, port: int)
    requires a != "--listen" && a != "--local-port"
    ensures RunListen([a] + args, host, port) == RunListen(args, host, port)
  {
    assert ([a] + args)[1..] == args;
  }

  lemma ListenPort(n: nat, args: seq<string>, host: string, port: int)
    requires IsPort(n)
    ensures RunListen(["--local-port", Itoa(n)] + args, host, port) == RunListen(args, host, n)
  {
    AtoiOfItoa(n);
    assert (["--local-port", Itoa(n)] + args)[2..] == args;
  }

  lemma ListenHost(h: string, args: seq<string>, host: string, port: int)
    ensures RunListen(["--listen", h] + args, host, port) == RunListen(args, Trim(h), port)
  {
    assert (["--listen", h] + args)[2..] == args;
  }

  /** `--link` and the link, before further arguments. */
  lemma ListenLink(link: string, more: seq<string>, host: string, port: int)
    requires IsLink(link)
    ensures RunListen(["--link", link] + more, host, port) == RunListen(more, host, port)
    ensures LinkFlag(["--link", link] + more) == Some(link)
  {
    TrimOfTrimmed(link);
    assert ToLower(link)[0] == 'v';
    assert ["--link", link] + more == ["--link"] + ([link] + more);
    ListenSkip("--link", [link] + more, host, port);
    ListenSkip(link, more, host, port);
  }

  lemma FlagSkip(a: string, args: seq<string>)
    requires a != "--link" && args != []
    ensures LinkFlag([a] + args) == LinkFlag(args)
  {
    assert ([a] + args)[1..] == args;
  }

  /** The arguments after the profile path. */
  function TailArgs(e: Entry): seq<string> {
    ["--local-port", Itoa(e.port), "--link", e.link]
  }

  lemma TailBack(e: Entry, more: seq<string>, host: string, port: int)
    requires GoodEntry(e)
    ensures LinkFlag(TailArgs(e) + more) == Some(e.link)
    ensures RunListen(TailArgs(e) + more, host, port) == RunListen(more, host, e.port)
    ensures RunListen((TailArgs(e) + more)[1..], host, port) == RunListen(more, host, port)
  {
    var n, last := Itoa(e.port), ["--link", e.link] + more;
    assert IsDigit(n[0]);
    assert TailArgs(e) + more == ["--local-port"] + ([n] + last) && (TailArgs(e) + more)[1..] == [n] + last;
    FlagSkip("--local-port", [n] + last);
    FlagSkip(n, last);
    ListenLink(e.link, more, host, port);
    ListenLink(e.link, more, host, e.port);
    assert TailArgs(e) + more == ["--local-port", n] + last;
    ListenPort(e.port, last, host, port);
    ListenSkip(n, last, host, port);
    hide RunListen, LinkFlag, Itoa, IsLink;
  }

  /** linkArg and runListenArgs on the arguments from `--profile` on, with any others behind them.
      A path that is itself "--link" or "--listen" is taken for that option; a path "--local-port"
      takes the option away. */
  lemma PathBack(profile: string, e: Entry, more: seq<string>)
    requires GoodEntry(e)
    ensures var args := [profile] + (TailArgs(e) + more);
      && LinkFlag(args) == Some(if profile == "--link" then "--local-port" else e.link)
      && RunListen(args, [], 0) ==
           if profile == "--listen" then RunListen(more, "--local-port", 0)
           else RunListen(more, [], if profile == "--local-port" then 0 else e.port)
  {
    var tail := TailArgs(e) + more;
    TailBack(e, more, [], 0);
    assert [profile] + tail == [profile, "--local-port"] + tail[1..];
    TrimOfTrimmed("--local-port");
    if profile == "--listen" {
      TailBack(e, more, "--local-port", 0);
      ListenHost("--local-port", tail[1..], [], 0);
    } else if profile == "--local-port" {
      assert Atoi("--local-port").None? by { assert !IsDigit("--local-port"[1..][0]); }
      assert ([profile] + tail)[2..] == tail[1..];
    } else {
      ListenSkip(profile, tail, [], 0);
    }
    if profile != "--link" {
      FlagSkip(profile, tail);
    }
  }

  lemma ArgsBack(profile: string, e: Entry, more: seq<string>)
    requires GoodEntry(e)
    ensures LinkArg(Args(profile, e) + more) == if profile == "--link" then "--local-port" else e.link
    ensures RunListen(Args(profile, e) + more, [], 0) ==
      if profile == "--listen" then RunListen(more, "--local-port", 0)
      else RunListen(more, [], if profile == "--local-port" then 0 else e.port)
  {
    var tail := TailArgs(e) + more;
    TailBack(e, more, [], 0);
    if profile == [] {
      assert Args(profile, e) + more == ["run"] + tail;
      FlagSkip("run", tail);
      ListenSkip("run", tail, [], 0);
    } else {
      var args := ["--profile"] + ([profile] + tail);
      assert Args(profile, e) + more == ["run"] + args;
      PathBack(profile, e, more);
      FlagSkip("run", args);
      ListenSkip("run", args, [], 0);
      FlagSkip("--profile", [profile] + tail);
      ListenSkip("--profile", [profile] + tail, [], 0);
    }
  }

  lemma HeadBack(profile: string, e: Entry)
    requires e.name != [] && Clean(e.name)
    ensures HeadAccepted(LineFields(profile, e)[0], e.name)
  {
    TrimHeadField(e.name);
    assert LineFields(profile, e)[0] == Assign(e.name, "external");
  }

  lemma TrimHeadField(name: string)
    requires name != [] && Trimmed(name)
    ensures Trim(Assign(name, "external")) == name + " = external"
  {
    assert Assign(name, "external") == name + " = external";
    TrimOfTrimmed(Assign(name, "external"));
  }

  // ---------- the round trip ----------

  /** What a caller can check before writing a line. */
  predicate Readable(profile: string, e: Entry) {
    profile != "--link" && profile != "--listen" && (EqualFold(e.name, "exec") || Trim(e.exec) != [])
  }

  /** Parsing a printed line gives the policy it was printed for exactly when the profile
      path is not one of two options and the exec path is not blank (or goes unread). */
  lemma ParseOfLine(profile: string, e: Entry)
    requires GoodEntry(e)
    ensures Parse(LineOf(profile, e)) == Some(PolicyOf(e)) <==> Readable(profile, e)
    ensures profile == "--listen" ==> Parse(LineOf(profile, e)) == None
    ensures Parse(LineOf(profile, e)).Some? ==> Parse(LineOf(profile, e)).value.name == e.name
  {
    var line, seen := LineOf(profile, e), Seen(Args(profile, e), e.port, LOCAL_HOST);
    LineNameBack(profile, e);
    FieldsComeBack(profile, e);
    HeadBack(profile, e);
    SeenOfLine(profile, e);
    ExecBack(profile, e);
    var exec := ExecPath(LineFields(profile, e));
    assert Parse(line) == Conclude(e.name, seen, exec);
    ConcludeBack(profile, e, exec);
  }

  lemma ConcludeBack(profile: string, e: Entry, exec: string)
    requires GoodEntry(e)
    ensures var r := Conclude(e.name, Seen(Args(profile, e), e.port, LOCAL_HOST), exec);
      && (r == Some(PolicyOf(e)) <==> profile != "--link" && profile != "--listen" && exec != [])
      && (profile == "--listen" ==> r == None)
  {
    ArgsBack(profile, e, []);
    assert Args(profile, e) + [] == Args(profile, e);
    assert ToLower(e.link)[0] == 'v';
    assert ToLower("--local-port")[0] == '-';
    assert Args(profile, e)[0] == "run";
  }

  // ---------- other readers of the line ----------

  lemma {:induction false} ArgFieldsOneLine(vs: seq<string>)
    ensures forall f | f in ArgFields(vs) :: '\n' !in f
  {
    if vs != [] {
      EscapeOneLine(vs[0]);
      ArgFieldsOneLine(vs[1..]);
    }
  }

  lemma FrontOneLine(profile: string, e: Entry)
    requires GoodEntry(e)
    ensures forall f | f in FrontFields(profile, e) :: '\n' !in f
  {
    NameIsKey(e.name);
    EscapeOneLine(e.exec);
    ArgFieldsOneLine(Args(profile, e));
    hide Clean, IsLink, IsAddress, Args, ArgFields, Escape;
  }

  lemma BackOneLine(e: Entry)
    requires GoodEntry(e)
    ensures '\n' !in PortField(e) && forall f | f in BackFields(e) :: '\n' !in f
  {
    NumberPlain(e.port);
    if e.address.Some? {
      AddressPlain(e.address.value);
    }
    hide Clean, IsLink, IsAddress, Itoa;
  }

  /** A generated line is one line. */
  lemma LineIsOneLine(profile: string, e: Entry)
    requires GoodEntry(e)
    ensures '\n' !in LineOf(profile, e)
  {
    FrontOneLine(profile, e);
    BackOneLine(e);
    hide GoodEntry, FrontFields, BackFields, PortField;
    JoinAvoids(LineFields(profile, e), ", ", '\n');
  }

  lemma LineStart(profile: string, e: Entry)
    requires e.name != [] && Clean(e.name)
    ensures var t := Trim(LineOf(profile, e)); t != [] && t[0] == e.name[0]
    ensures LineOf(profile, e)[0] == e.name[0] && !IsComment(LineOf(profile, e))
  {
    LineSplits(profile, e);
    TrimHead(e.name + " =", LineRest(profile, e));
    assert IsNameChar(e.name[0]);
  }

  lemma JoinEnds(front: seq<string>, last: string, sep: string)
    requires last != []
    ensures var a := Join(front + [last], sep); a != [] && a[|a| - 1] == last[|last| - 1]
  {
    if front == [] {
      assert front + [last] == [last];
    } else {
      JoinAppend(front, [last], sep);
    }
  }

  lemma ArgFieldEnds(v: string)
    ensures var f := ArgField(v); f != [] && f[|f| - 1] == '"'
  {
  }

  /** The front without its last field, which holds the link. */
  lemma FrontLast(profile: string, e: Entry) returns (front: seq<string>)
    ensures FrontFields(profile, e) == front + [ArgField(e.link)]
  {
    var vs := Args(profile, e);
    assert vs[..|vs|] == vs && vs[|vs| - 1] == e.link;
    hide Args, ArgField, ArgFields;
    front := [Assign(e.name, "external"), Assign("exec", Quote(e.exec))] + ArgFields(vs[..|vs| - 1]);
    ArgFieldsSnoc(vs, |vs| - 1);
  }

  lemma FrontEnds(profile: string, e: Entry)
    ensures var a := Join(FrontFields(profile, e), ", "); a != [] && a[|a| - 1] == '"'
  {
    hide FrontFields, ArgField;
    var front := FrontLast(profile, e);
    ArgFieldEnds(e.link);
    JoinEnds(front, ArgField(e.link), ", ");
  }

  /** The scanner that ignores quotes reports the port of every generated line, also when
      the link holds text such as `,local-port=5,`. */
  lemma ScannerSound(profile: string, e: Entry)
    requires GoodEntry(e)
    ensures e.port in PortScan.LinePorts(LineOf(profile, e))
  {
    var front, back := FrontFields(profile, e), BackFields(e);
    var a, b := Join(front, ", "), Join(back, ", ");
    assert LineFields(profile, e) == front + ([PortField(e)] + back);
    JoinAppend(front, [PortField(e)] + back, ", ");
    assert ([PortField(e)] + back)[1..] == back;
    assert LineOf(profile, e) == a + ", " + PortScan.KEY + " = " + Itoa(e.port) + ", " + b;
    FrontEnds(profile, e);
    LineStart(profile, e);
    PortScan.OwnPortReported(a, e.port, b);
  }
}

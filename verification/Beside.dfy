/** Edits beside lines that somebody typed: when Add keeps off the ports of the lines it keeps,
    and which hosts Replace does not carry over. */
module Beside {
  import opened Text
  import opened Names
  import opened Ports
  import opened PortScan
  import opened Lines
  import opened RoundTrip
  import opened Sections
  import opened Blocks
  import opened Profile
  import opened Edits
  import opened Managed
  import opened Refinement
  import opened HandWritten
  import opened Runs
  import Fields
  import Quoting

  // ---------- Add and the ports of kept policies ----------

  /** The policies of the lines that Add keeps. */
  function KeptPolicies(text: string): seq<Policy> {
    match ParseAll(Kept(OpenOrInsert(LinesOf(text)), false))
    case Some(ps) => ps
    case None => []
  }

  /** The ports that Add takes for used: usedPorts before its node loop. */
  function UsedPorts(text: string): set<int> {
    var p := OpenOrInsert(LinesOf(text));
    PortsOf(Strip(p.body)) + PortsOf(Kept(p, false))
  }

  /** If this Add succeeds, no new policy has the port of a kept one. */
  predicate KeepsOff(text: string, profile: string, opts: Options) {
    var r := Install(text, profile, opts, false);
    r.Done? ==> forall q | q in KeptPolicies(text) :: q.localPort !in r.ports
  }

  /** No Add hands out a port that it takes for used. */
  lemma UsedIsAvoided(text: string, profile: string, opts: Options, port: int)
    requires Install(text, profile, opts, false).Done? && port in UsedPorts(text)
    ensures port !in Install(text, profile, opts, false).ports
  {
    var p := OpenOrInsert(LinesOf(text));
    var used, r := UsedPorts(text), Install(text, profile, opts, false);
    DoneMeans(text, profile, opts);
    InstallPorts(text, profile, opts, false);
    UsablePortsExact(BasePort(opts), used, PortsOf(p.body) - used, opts.available);
    hide Install, UsablePorts, PortsOf, Strip, Kept, OptionError, OpenOrInsert, LinesOf;
    forall i | 0 <= i < |r.ports| ensures r.ports[i] != port {
      var usable := UsablePorts(BasePort(opts), used, PortsOf(p.body) - used, opts.available);
      assert usable[i] in usable;
    }
  }

  lemma DoneMeans(text: string, profile: string, opts: Options)
    requires Install(text, profile, opts, false).Done?
    ensures OptionError(opts).None? && ParseAll(Kept(OpenOrInsert(LinesOf(text)), false)).Some?
  {
    hide OptionError, ParseAll, Kept, OpenOrInsert, LinesOf, NewEntries, Edited, LinesFor;
  }

  /** One node, asked for on this port, with every port free. */
  function AtPort(port: int): Options {
    Options([Node("vless://h", "A", None, true)], [], [], port, _ => true)
  }

  lemma AtPortUsual(port: int)
    requires IsPort(port)
    ensures UsualOptions(AtPort(port)) && OptionError(AtPort(port)).None? && BasePort(AtPort(port)) == port
  {
    var link := "vless://h";
    assert ToLower(link)[..8] == "vless://";
  }

  /** A port that Add does not take for used is handed out when it is asked for. */
  lemma UnusedIsTaken(text: string, profile: string, port: int)
    requires ParseAll(Kept(OpenOrInsert(LinesOf(text)), false)).Some? && IsPort(port) && port !in UsedPorts(text)
    ensures var r := Install(text, profile, AtPort(port), false); r.Done? && r.ports == [port]
  {
    var p, used := OpenOrInsert(LinesOf(text)), UsedPorts(text);
    var opts := AtPort(port);
    AtPortUsual(port);
    assert UsablePorts(port, used, PortsOf(p.body) - used, opts.available) != []
        && UsablePorts(port, used, PortsOf(p.body) - used, opts.available)[0] == port;
    hide Install, UsablePorts, PortsOf, Strip, Kept, OptionError, OpenOrInsert, LinesOf, ParseAll;
    InstallPorts(text, profile, opts, false);
  }

  lemma {:induction false} KeptPorts(lines: seq<string>)
    requires ParseAll(lines).Some?
    ensures forall q | q in ParseAll(lines).value :: IsPort(q.localPort)
  {
    hide Parse;
    if lines != [] {
      ParsedPort(lines[0]);
      KeptPorts(lines[1..]);
    }
  }

  /** On any profile whose kept lines are accepted, Add never hands out the port of a kept policy,
      whatever its usual options, exactly when every such port is among those it takes for used:
      the guard of findAvailablePort, filled by the scanner. */
  lemma AddKeepsOffExactly(text: string, profile: string)
    requires ParseAll(Kept(OpenOrInsert(LinesOf(text)), false)).Some?
    ensures (forall opts | UsualOptions(opts) :: KeepsOff(text, profile, opts))
       <==> (forall q | q in KeptPolicies(text) :: q.localPort in UsedPorts(text))
  {
    KeptPorts(Kept(OpenOrInsert(LinesOf(text)), false));
    hide Install, UsedPorts, OpenOrInsert, LinesOf, Kept, ParseAll, UsualOptions, AtPort;
    if q :| q in KeptPolicies(text) && q.localPort !in UsedPorts(text) {
      AtPortUsual(q.localPort);
      UnusedIsTaken(text, profile, q.localPort);
      assert UsualOptions(AtPort(q.localPort)) && !KeepsOff(text, profile, AtPort(q.localPort));
    } else {
      forall opts | UsualOptions(opts) ensures KeepsOff(text, profile, opts) {
        KeepsOffUsed(text, profile, opts);
      }
    }
  }

  lemma KeepsOffUsed(text: string, profile: string, opts: Options)
    requires forall q | q in KeptPolicies(text) :: q.localPort in UsedPorts(text)
    ensures KeepsOff(text, profile, opts)
  {
    hide Install, UsedPorts, KeptPolicies;
    if Install(text, profile, opts, false).Done? {
      forall q | q in KeptPolicies(text) ensures q.localPort !in Install(text, profile, opts, false).ports {
        UsedIsAvoided(text, profile, opts, q.localPort);
      }
    }
  }

  // ---------- a profile on which Add takes a kept port ----------

  lemma FrontOnOneLine(profile: string, e: Entry)
    requires GoodEntry(e)
    ensures '\n' !in Join(FrontFields(profile, e), ", ")
  {
    hide GoodEntry, FrontFields;
    FrontOneLine(profile, e);
    JoinAvoids(FrontFields(profile, e), ", ", '\n');
  }

  lemma FrontStart(profile: string, e: Entry, tail: string)
    requires e.name != [] && Names.Clean(e.name)
    ensures var t := Trim(Join(FrontFields(profile, e), ", ") + tail); t != [] && t[0] == e.name[0]
  {
    var fs := FrontFields(profile, e);
    var rest := " external" + (", " + Join(fs[1..], ", ")) + tail;
    assert fs[0] == e.name + " =" + " external" && |fs| > 1;
    assert Join(fs, ", ") + tail == (e.name + " =") + rest;
    TrimHead(e.name + " =", rest);
  }

  lemma StartsOrdinary(line: string, c: char)
    requires '\n' !in line && IsNameChar(c) && Trim(line) != [] && Trim(line)[0] == c
    ensures Ordinary(line)
  {
    assert MARKER_BEGIN[0] == '#' && MARKER_END[0] == '#';
    hide Trim;
  }

  /** The line with a signed port is one that may stand in the block. */
  lemma SignedOrdinary(profile: string, e: Entry, line: string)
    requires GoodEntry(e) && line == TypedLine(profile, e, [Plain("+" + Itoa(e.port), e.port)])
    ensures Ordinary(line)
  {
    var t := Plain("+" + Itoa(e.port), e.port);
    var tail := Fields.RawTail(Raws([t]));
    FrontOnOneLine(profile, e);
    FrontStart(profile, e, tail);
    SignedTail(e.port, tail);
    assert IsNameChar(e.name[0]);
    hide FrontFields, Trim, Ordinary, IsLink, Itoa;
    StartsOrdinary(line, e.name[0]);
  }

  lemma SignedTail(n: nat, tail: string)
    requires tail == Fields.RawTail(Raws([Plain("+" + Itoa(n), n)]))
    ensures '\n' !in tail
  {
    var t := Plain("+" + Itoa(n), n);
    assert '\n' !in Itoa(n) && '\n' !in KEY;
    assert [t][1..] == [] && Raws([t]) == [t.Raw()] && [t.Raw()][1..] == [];
    hide Itoa;
    assert tail == "," + t.Raw() + [];
  }

  /** The profile whose block holds this line and nothing else. */
  function Holding(line: string): string {
    Edited(Inserted([""]), [line])
  }

  lemma HoldingReads(line: string)
    requires Ordinary(line)
    ensures var p := OpenOrInsert(LinesOf(Holding(line)));
      Kept(p, false) == [line] && PortsOf(Strip(p.body)) == {}
  {
    var p := Inserted([""]);
    EmptyFile();
    OpenOneLiners("");
    UnmarkedFacts(p.body);
    assert p == OpenOrInsert(LinesOf(""));
    hide OpenOrInsert, LinesOf, Strip, PortsOf, Ordinary, Inserted, Edited, OneBlock, BlockOf, ValidParts, OneLiners;
    var q := EditFrames(p, [line]);
    NamesOfSolid(Strip(q.body));
    NamesOfSolid(Strip(p.body));
    OpenIs(Holding(line), q);
  }

  lemma OpenIs(text: string, q: Parts)
    requires Open(LinesOf(text)) == Some(q)
    ensures OpenOrInsert(LinesOf(text)) == q
  {
  }

  lemma OneKept(line: string)
    requires Parse(line).Some?
    ensures ParseAll([line]) == Some([Parse(line).value]) && PortsOf([line]) == LinePorts(line)
  {
    hide Parse, LinePorts;
    assert [line][1..] == [] && [Parse(line).value] + [] == [Parse(line).value];
  }

  /** There are profiles on which Add hands out the port of a policy that it keeps. */
  lemma AddTakesKeptPort(profile: string, e: Entry)
    requires GoodEntry(e) && Readable(profile, e) && NoCommas(profile, e)
    ensures var text := Holding(TypedLine(profile, e, [Plain("+" + Itoa(e.port), e.port)]));
      var r := Install(text, profile, AtPort(e.port), false);
      KeptPolicies(text) == [PolicyOf(e)] && r.Done? && r.ports == [e.port]
  {
    var line := TypedLine(profile, e, [Plain("+" + Itoa(e.port), e.port)]);
    SignedPortMissed(profile, e);
    SignedOrdinary(profile, e, line);
    hide GoodEntry, Readable, NoCommas, TypedLine, LinePorts, Parse, Install, Holding, Ordinary, LinesOf, OpenOrInsert,
      Kept, PortsOf, Strip, ParseAll, AtPort;
    HoldingReads(line);
    OneKept(line);
    GoodPort(e);
    UnusedIsTaken(Holding(line), profile, e.port);
  }

  /** One such profile: an Add with usual options gives a new policy the port of a kept one. */
  lemma SomeAddTakesKeptPort() returns (text: string, kept: Policy, opts: Options)
    ensures KeptPolicies(text) == [kept] && UsualOptions(opts)
    ensures var r := Install(text, "", opts, false); r.Done? && r.ports == [kept.localPort]
  {
    Example(DEFAULT_BASE);
    var e := Entry("A", "x", "vless://h", DEFAULT_BASE, None);
    AtPortUsual(e.port);
    hide GoodEntry, Readable, NoCommas, TypedLine, KeptPolicies, Install, Holding, UsualOptions;
    AddTakesKeptPort("", e);
    text, kept := Holding(TypedLine("", e, [Plain("+" + Itoa(e.port), e.port)])), PolicyOf(e);
    opts := AtPort(e.port);
  }

  lemma GoodPort(e: Entry)
    requires GoodEntry(e)
    ensures IsPort(e.port)
  {
  }

  // ---------- lines that listen elsewhere ----------

  /** The printed line of an entry with a host behind it. */
  function HostLine(profile: string, e: Entry, host: string): string {
    Join(LineFields(profile, e) + [Assign("local-host", Quoting.Quote(host))], ", ")
  }

  lemma StepIsHost(seen: Seen, f: string, host: string)
    requires HasKey(f) && ToLower(Key(f)) == "local-host" && UnquoteOr(Value(f)) == host != []
    ensures Step(seen, f) == seen.(host := host)
  {
    hide HasKey, Key, Value, UnquoteOr, ToLower;
  }

  lemma LowerHost()
    ensures ToLower("local-host") == "local-host"
  {
  }

  lemma HostField(seen: Seen, host: string)
    requires host != []
    ensures Steps(seen, [Assign("local-host", Quoting.Quote(host))]) == seen.(host := host)
  {
    hide Step, HasKey, Key, Value, UnquoteOr, ToLower, Quoting.Quote;
    QuoteTrimmed(host);
    KeyValue("local-host", Quoting.Quote(host));
    LowerHost();
    StepIsHost(seen, Assign("local-host", Quoting.Quote(host)), host);
    StepsCons(seen, Assign("local-host", Quoting.Quote(host)), []);
  }

  lemma HostTail(profile: string, e: Entry, host: string)
    requires GoodEntry(e) && host != []
    ensures var tail := [PortField(e)] + BackFields(e) + [Assign("local-host", Quoting.Quote(host))];
      Steps(Seen(Args(profile, e), 0, LOCAL_HOST), tail) == Seen(Args(profile, e), e.port, host)
  {
    var seen, field := Seen(Args(profile, e), 0, LOCAL_HOST), Assign("local-host", Quoting.Quote(host));
    StepPort(seen, e);
    StepsCons(seen, PortField(e), BackFields(e));
    StepsBack(seen.(port := e.port), e);
    HostField(seen.(port := e.port), host);
    hide Step, Steps, PortField, BackFields, Args;
    StepsAppend(seen, [PortField(e)] + BackFields(e), [field]);
  }

  /** A printed line with another host behind it is accepted with that host: nothing in the
      arguments of the command contradicts it. */
  lemma HostLineParses(profile: string, e: Entry, host: string)
    requires GoodEntry(e) && Readable(profile, e) && host != []
    ensures Parse(HostLine(profile, e, host)) == Some(PolicyAt(e, host, e.port))
  {
    hide *;
    var tail := [PortField(e)] + BackFields(e) + [Assign("local-host", Quoting.Quote(host))];
    HostSplits(profile, e, host);
    HostParts(profile, e, host);
    HostTail(profile, e, host);
    HostName(profile, e, host);
    GoodPort(e);
    SamePort(profile, e);
    FrontParses(profile, e, HostLine(profile, e, host), tail, host, e.port);
  }

  lemma SamePort(profile: string, e: Entry)
    ensures PortAgrees(profile, e, e.port)
  {
  }

  lemma HostParts(profile: string, e: Entry, host: string)
    ensures LineFields(profile, e) + [Assign("local-host", Quoting.Quote(host))]
         == FrontFields(profile, e) + ([PortField(e)] + BackFields(e) + [Assign("local-host", Quoting.Quote(host))])
  {
    hide FrontFields, PortField, BackFields, Assign;
  }

  lemma HostSplits(profile: string, e: Entry, host: string)
    requires GoodEntry(e)
    ensures Fields.SplitFields(HostLine(profile, e, host))
         == LineFields(profile, e) + [Assign("local-host", Quoting.Quote(host))]
  {
    var field := Assign("local-host", Quoting.Quote(host));
    FieldsPlain(profile, e);
    Fields.QuotePlain(host);
    AssignPlain("local-host", Quoting.Quote(host));
    hide Fields.Plain, LineFields, Fields.SplitFields;
    assert AllPlain([field]);
    AllPlainAppend(LineFields(profile, e), [field]);
    Fields.SplitOfJoinedFields(LineFields(profile, e) + [field]);
  }

  lemma HostName(profile: string, e: Entry, host: string)
    requires GoodEntry(e)
    ensures LineName(HostLine(profile, e, host)) == e.name
  {
    var fs := LineFields(profile, e) + [Assign("local-host", Quoting.Quote(host))];
    assert fs[0] == Assign(e.name, "external") && |fs| > 1;
    hide LineFields, LineName, Clean, IsLink;
    HeadName(e.name, fs);
  }

  lemma HeadName(name: string, fs: seq<string>)
    requires name != [] && Names.Clean(name) && |fs| > 1 && fs[0] == Assign(name, "external")
    ensures LineName(Join(fs, ", ")) == name
  {
    hide LineName, Clean;
    var rest := " external" + (", " + Join(fs[1..], ", "));
    assert fs[0] == name + " =" + " external";
    assert Join(fs, ", ") == name + " =" + rest;
    NameOfLine(name, rest);
  }

  /** Replace does not carry over the host of such a line, for any host but the default. */
  lemma HostIsLost(profile: string, e: Entry, host: string, node: Node)
    requires GoodEntry(e) && Readable(profile, e) && host != [] && node.Parsed()
    ensures var line := HostLine(profile, e, host);
      && Parse(line) == Some(PolicyAt(e, host, e.port)) && IsPort(Parse(line).value.localPort)
      && Parse(ReplaceLine(line, profile, node)) == Some(PolicyOf(e).(link := node.raw))
  {
    HostLineParses(profile, e, host);
    ReplaceAnyLine(HostLine(profile, e, host), profile, node);
    hide HostLine, Parse, ReplaceLine, GoodEntry;
  }

  // ---------- a command line that names a host ----------

  /** The printed line with `--listen` at the end of its command line and a host field at its end. */
  function ListenTail(e: Entry, listen: string, host: string): seq<string> {
    ArgFields(["--listen", listen])
    + ([PortField(e)] + BackFields(e) + [Assign("local-host", Quoting.Quote(host))])
  }

  function ListenLine(profile: string, e: Entry, listen: string, host: string): string {
    Join(FrontFields(profile, e) + ListenTail(e, listen, host), ", ")
  }

  /** The host that a host field with this value leaves. */
  function HostOr(host: string): string {
    if host == [] then LOCAL_HOST else host
  }

  lemma AnyHostField(args: seq<string>, port: int, host: string)
    ensures Steps(Seen(args, port, LOCAL_HOST), [Assign("local-host", Quoting.Quote(host))])
         == Seen(args, port, HostOr(host))
  {
    var seen, f := Seen(args, port, LOCAL_HOST), Assign("local-host", Quoting.Quote(host));
    if host == [] {
      QuoteTrimmed(host);
      KeyValue("local-host", Quoting.Quote(host));
      LowerHost();
      StepNoHost(seen, f);
      StepsCons(seen, f, []);
    } else {
      HostField(seen, host);
    }
    hide Step, HasKey, Key, Value, UnquoteOr, ToLower, Quoting.Quote;
  }

  lemma StepNoHost(seen: Seen, f: string)
    requires HasKey(f) && ToLower(Key(f)) == "local-host" && UnquoteOr(Value(f)) == []
    ensures Step(seen, f) == seen
  {
    hide HasKey, Key, Value, UnquoteOr, ToLower;
  }

  lemma ListenSteps(profile: string, e: Entry, listen: string, host: string)
    requires GoodEntry(e)
    ensures Steps(Seen(Args(profile, e), 0, LOCAL_HOST), ListenTail(e, listen, host))
         == Seen(Args(profile, e) + ["--listen", listen], e.port, HostOr(host))
  {
    GoodBack(e);
    hide *;
    var more, field := ["--listen", listen], Assign("local-host", Quoting.Quote(host));
    var args := Args(profile, e) + more;
    StepsArgs(Seen(Args(profile, e), 0, LOCAL_HOST), more);
    StepPort(Seen(args, 0, LOCAL_HOST), e);
    StepsCons(Seen(args, 0, LOCAL_HOST), PortField(e), BackFields(e));
    StepsBack(Seen(args, e.port, LOCAL_HOST), e);
    AnyHostField(args, e.port, host);
    ListenParts(e, listen, host);
    StepsAppend(Seen(Args(profile, e), 0, LOCAL_HOST), ArgFields(more), [PortField(e)] + BackFields(e) + [field]);
    StepsAppend(Seen(args, 0, LOCAL_HOST), [PortField(e)] + BackFields(e), [field]);
  }

  lemma ListenParts(e: Entry, listen: string, host: string)
    ensures ListenTail(e, listen, host) == ArgFields(["--listen", listen])
      + ([PortField(e)] + BackFields(e) + [Assign("local-host", Quoting.Quote(host))])
  {
    hide ArgFields, PortField, BackFields, Assign;
  }

  lemma GoodBack(e: Entry)
    requires GoodEntry(e)
    ensures IsPort(e.port) && (e.address.Some? ==> IsAddress(e.address.value)) && e.name != [] && Names.Clean(e.name)
  {
  }

  lemma ListenConcludes(profile: string, e: Entry, listen: string, host: string, exec: string)
    requires GoodEntry(e) && profile != "--link" && profile != "--listen" && exec != [] && host != []
    ensures Conclude(e.name, Seen(Args(profile, e) + ["--listen", listen], e.port, host), exec)
         == if Trim(listen) == [] || Trim(listen) == host then Some(PolicyAt(e, host, e.port)) else None
  {
    var more := ["--listen", listen];
    ArgsBack(profile, e, more);
    assert more + [] == more;
    ListenHost(listen, [], [], e.port);
    ListenHost(listen, [], [], 0);
    assert ToLower(e.link)[0] == 'v';
    assert (Args(profile, e) + more)[0] == "run";
    hide Trim, RunListen, Itoa, LinkArg;
    assert RunListen([], Trim(listen), 0) == (Trim(listen), 0) by { NoMoreArgs(Trim(listen), 0); }
    assert RunListen([], Trim(listen), e.port) == (Trim(listen), e.port as int) by { NoMoreArgs(Trim(listen), e.port); }
  }

  lemma NoMoreArgs(host: string, port: int)
    ensures RunListen([], host, port) == (host, port)
  {
  }

  lemma HostFieldPlain(host: string)
    ensures AllPlain([Assign("local-host", Quoting.Quote(host))])
  {
    Fields.QuotePlain(host);
    AssignPlain("local-host", Quoting.Quote(host));
    hide Fields.Plain, Quoting.Quote;
  }

  lemma PortFieldPlain(e: Entry)
    ensures AllPlain([PortField(e)])
  {
    NumberPlain(e.port);
    AssignPlain(KEY, Itoa(e.port));
    hide Fields.Plain, Itoa;
  }

  lemma ListenPlain(profile: string, e: Entry, listen: string, host: string)
    requires GoodEntry(e)
    ensures Fields.SplitFields(ListenLine(profile, e, listen, host))
         == FrontFields(profile, e) + ListenTail(e, listen, host)
  {
    GoodBack(e);
    HostFieldPlain(host);
    PortFieldPlain(e);
    FrontPlain(profile, e);
    BackPlain(e);
    ArgFieldsPlain(["--listen", listen]);
    FrontIs(profile, e);
    var fs := FrontFields(profile, e) + ListenTail(e, listen, host);
    assert fs != [];
    hide Fields.Plain, FrontFields, BackFields, PortField, ArgFields, Fields.SplitFields, GoodEntry, Assign, AllPlain;
    var field := Assign("local-host", Quoting.Quote(host));
    AllPlainAppend([PortField(e)], BackFields(e));
    AllPlainAppend([PortField(e)] + BackFields(e), [field]);
    AllPlainAppend(ArgFields(["--listen", listen]), [PortField(e)] + BackFields(e) + [field]);
    AllPlainAppend(FrontFields(profile, e), ListenTail(e, listen, host));
    PlainSplits(fs);
  }

  lemma PlainSplits(fs: seq<string>)
    requires fs != [] && AllPlain(fs)
    ensures Fields.SplitFields(Join(fs, ", ")) == fs
  {
    Fields.SplitOfJoinedFields(fs);
  }

  lemma ListenName(profile: string, e: Entry, listen: string, host: string)
    requires e.name != [] && Names.Clean(e.name)
    ensures LineName(ListenLine(profile, e, listen, host)) == e.name
  {
    hide LineName, Clean, ListenTail;
    FrontIs(profile, e);
    var fs := FrontFields(profile, e) + ListenTail(e, listen, host);
    assert fs[0] == Assign(e.name, "external") && |fs| > 1;
    HeadName(e.name, fs);
  }

  /** A command line that names a host, next to any host field, also an empty one: the line is
      accepted exactly when the two agree or the command names none. */
  lemma ListenAgrees(profile: string, e: Entry, listen: string, host: string)
    requires GoodEntry(e) && Readable(profile, e)
    ensures var line, h := ListenLine(profile, e, listen, host), if host == [] then "127.0.0.1" else host;
      && (Parse(line).Some? <==> Trim(listen) == [] || Trim(listen) == h)
      && (Parse(line).Some? ==> Parse(line).value == Policy(e.name, e.link, h, e.port, h, e.port))
  {
    hide *;
    GoodBack(e);
    ListenName(profile, e, listen, host);
    ListenPlain(profile, e, listen, host);
    ListenSteps(profile, e, listen, host);
    FrontConcludes(profile, e, ListenLine(profile, e, listen, host), ListenTail(e, listen, host));
    GoodProfile(profile, e);
    HostOrIs(host);
    ListenConcludes(profile, e, listen, HostOr(host), if EqualFold(e.name, "exec") then "external" else Trim(e.exec));
    PolicyAtIs(e, HostOr(host));
  }

  lemma GoodProfile(profile: string, e: Entry)
    requires Readable(profile, e)
    ensures profile != "--link" && profile != "--listen"
  {
  }

  lemma HostOrIs(host: string)
    ensures HostOr(host) == (if host == [] then "127.0.0.1" else host) != []
  {
  }

  lemma PolicyAtIs(e: Entry, host: string)
    ensures PolicyAt(e, host, e.port) == Policy(e.name, e.link, host, e.port, host, e.port)
  {
  }
}

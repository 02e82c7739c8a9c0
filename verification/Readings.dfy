/** What the fields of a line say: those that ProxyLine of internal/surge/line.go prints, and those
    for which managedPolicy of internal/surge/proxy_parse.go accepts a line. */
module Readings {
  import opened Text
  import opened Quoting
  import opened Fields
  import opened Names
  import opened Ports
  import opened Lines
  import opened RoundTrip
  import PortScan

  // ---------- fields by their keys ----------

  predicate Keyed(f: string, key: string) {
    HasKey(f) && ToLower(Key(f)) == key
  }

  /** The unquoted values of the `args` fields, in order. */
  function ArgValues(fields: seq<string>): seq<string> {
    if fields == [] then []
    else (if Keyed(fields[0], "args") then [UnquoteOr(Value(fields[0]))] else []) + ArgValues(fields[1..])
  }

  lemma {:induction false} ArgValuesAppend(a: seq<string>, b: seq<string>)
    ensures ArgValues(a + b) == ArgValues(a) + ArgValues(b)
  {
    hide Keyed, UnquoteOr;
    if a == [] {
      assert a + b == b;
    } else {
      assert (a + b)[1..] == a[1..] + b;
      ArgValuesAppend(a[1..], b);
    }
  }

  lemma ArgValueOne(f: string)
    ensures ArgValues([f]) == if Keyed(f, "args") then [UnquoteOr(Value(f))] else []
  {
    assert [f][1..] == [];
  }

  // ---------- what is printed ----------

  lemma AssignIs(key: string, value: string)
    requires '=' !in key && Trimmed(key) && Trimmed(value)
    ensures Keyed(Assign(key, value), ToLower(key)) && Value(Assign(key, value)) == value
    ensures forall k :: Keyed(Assign(key, value), k) <==> k == ToLower(key)
  {
    KeyValue(key, value);
  }

  /** An `args` field counts with its value. */
  lemma ArgCounts(v: string)
    ensures ArgValues([ArgField(v)]) == [v]
  {
    QuoteTrimmed(v);
    LowerArgs();
    ArgValueOne(ArgField(v));
    AssignIs("args", Quote(v));
    hide Keyed, UnquoteOr, ToLower, Quote;
  }

  lemma {:induction false} ArgFieldsAt(vs: seq<string>)
    ensures |ArgFields(vs)| == |vs| && forall i | 0 <= i < |vs| :: ArgFields(vs)[i] == ArgField(vs[i])
    ensures ArgValues(ArgFields(vs)) == vs
  {
    hide Keyed, UnquoteOr, ArgField, Value;
    if vs != [] {
      ArgCounts(vs[0]);
      ArgFieldsAt(vs[1..]);
      ArgValuesAppend([ArgField(vs[0])], ArgFields(vs[1..]));
      assert vs == [vs[0]] + vs[1..];
    }
  }

  lemma NoArg(key: string, value: string)
    requires '=' !in key && Trimmed(key) && Trimmed(value) && ToLower(key) != "args"
    ensures ArgValues([Assign(key, value)]) == []
  {
    AssignIs(key, value);
    ArgValueOne(Assign(key, value));
  }

  lemma NoArgExec(exec: string)
    ensures ArgValues([Assign("exec", Quote(exec))]) == []
  {
    QuoteTrimmed(exec);
    assert ToLower("exec")[0] == 'e';
    NoArg("exec", Quote(exec));
  }

  lemma NoArgPort(n: nat)
    ensures ArgValues([Assign(PortScan.KEY, Itoa(n))]) == []
  {
    NumberPlain(n);
    LowerPort();
    NoArg(PortScan.KEY, Itoa(n));
  }

  lemma NoArgUdp()
    ensures ArgValues([Assign("udp-relay", "true")]) == []
  {
    assert ToLower("udp-relay")[0] == 'u';
    NoArg("udp-relay", "true");
  }

  lemma NoArgAddress(a: string)
    requires IsAddress(a)
    ensures ArgValues([Assign("addresses", a)]) == []
  {
    assert ToLower("addresses")[1] == 'd';
    NoArg("addresses", a);
  }

  lemma FrontIs(profile: string, e: Entry)
    ensures FrontFields(profile, e)
         == [Assign(e.name, "external")] + ([Assign("exec", Quote(e.exec))] + ArgFields(Args(profile, e)))
  {
    hide Args, ArgFields, Assign;
  }

  lemma FrontValues(profile: string, e: Entry)
    ensures var fs := FrontFields(profile, e); |fs| > 1 && ArgValues(fs[1..]) == Args(profile, e)
  {
    hide *;
    var exec, args := Assign("exec", Quote(e.exec)), ArgFields(Args(profile, e));
    FrontIs(profile, e);
    NoArgExec(e.exec);
    ArgFieldsAt(Args(profile, e));
    ArgValuesAppend([exec], args);
    assert FrontFields(profile, e)[1..] == [exec] + args;
  }

  lemma BackIs(e: Entry)
    ensures BackFields(e) == [Assign("udp-relay", "true")]
      + if e.address.Some? then [Assign("addresses", e.address.value)] else []
    ensures PortField(e) == Assign(PortScan.KEY, Itoa(e.port)) && ArgValues([]) == []
  {
  }

  lemma BackValues(e: Entry)
    requires e.address.Some? ==> IsAddress(e.address.value)
    ensures ArgValues([PortField(e)] + BackFields(e)) == []
  {
    hide *;
    BackIs(e);
    NoArgPort(e.port);
    NoArgUdp();
    var udp := Assign("udp-relay", "true");
    var rest := if e.address.Some? then [Assign("addresses", e.address.value)] else [];
    if e.address.Some? {
      NoArgAddress(e.address.value);
    }
    ArgValuesAppend([PortField(e)], BackFields(e));
    ArgValuesAppend([udp], rest);
  }
  /** These fields, one by one: name, exec path, arguments, port, the UDP relay behind it, and the
      address if there is one. */
  predicate FieldsSay(fs: seq<string>, name: string, exec: string, args: seq<string>, port: nat,
                      address: Option<string>) {
    var n := |args|;
    && |fs| == 4 + n + (if address.Some? then 1 else 0)
    && fs[0] == name + " = external" && fs[1] == "exec = " + Quote(exec)
    && (forall i | 2 <= i < 2 + n :: fs[i] == "args = " + Quote(args[i - 2]))
    && fs[2 + n] == "local-port = " + Itoa(port) && fs[3 + n] == "udp-relay = true"
    && (address.Some? ==> fs[4 + n] == "addresses = " + address.value)
  }

  lemma Literals(name: string, value: string)
    ensures Assign(name, "external") == name + " = external"
    ensures Assign("exec", value) == "exec = " + value && Assign("args", value) == "args = " + value
    ensures Assign(PortScan.KEY, value) == "local-port = " + value
    ensures Assign("udp-relay", "true") == "udp-relay = true" && Assign("addresses", value) == "addresses = " + value
  {
  }

  lemma ArgLiteral(v: string)
    ensures ArgField(v) == "args = " + Quote(v)
  {
    Literals("", Quote(v));
    hide Quote;
  }

  lemma FrontSays(profile: string, e: Entry)
    ensures var fs, args := FrontFields(profile, e), Args(profile, e);
      && |fs| == 2 + |args| && fs[0] == e.name + " = external" && fs[1] == "exec = " + Quote(e.exec)
      && forall i | 2 <= i < 2 + |args| :: fs[i] == "args = " + Quote(args[i - 2])
  {
    hide *;
    var fs, args := FrontFields(profile, e), Args(profile, e);
    FrontIs(profile, e);
    Literals(e.name, Quote(e.exec));
    ArgFieldsAt(args);
    forall i | 2 <= i < 2 + |args| ensures fs[i] == "args = " + Quote(args[i - 2]) {
      ArgLiteral(args[i - 2]);
      assert fs[i] == ArgFields(args)[i - 2];
    }
  }

  lemma LineSplit(profile: string, e: Entry)
    ensures LineFields(profile, e) == FrontFields(profile, e) + ([PortField(e)] + BackFields(e))
  {
    hide FrontFields, BackFields, PortField;
  }

  lemma FieldsPrinted(profile: string, e: Entry)
    ensures FieldsSay(LineFields(profile, e), e.name, e.exec, Args(profile, e), e.port, e.address)
  {
    hide LineFields, FrontFields, BackFields, PortField, Args, Assign, Quote, Itoa;
    FrontSays(profile, e);
    LineSplit(profile, e);
    BackIs(e);
    Literals("", Itoa(e.port));
    if e.address.Some? {
      Literals("", e.address.value);
    }
  }

  lemma ArgsPrinted(profile: string, e: Entry)
    requires GoodEntry(e)
    ensures var fs := LineFields(profile, e); |fs| > 1 && ArgValues(fs[1..]) == Args(profile, e)
  {
    hide LineFields, FrontFields, BackFields, PortField, Args, ArgValues, Clean, IsLink, IsAddress;
    FrontValues(profile, e);
    BackValues(e);
    LineSplit(profile, e);
    var front, back := FrontFields(profile, e), [PortField(e)] + BackFields(e);
    ArgValuesAppend(front[1..], back);
    assert (front + back)[1..] == front[1..] + back;
  }

  /** Of the printed fields only the last can be an address. */
  lemma AddressPrinted(fs: seq<string>, name: string, exec: string, args: seq<string>, port: nat,
                       address: Option<string>, a: string)
    requires FieldsSay(fs, name, exec, args, port, address)
    ensures "addresses = " + a in fs[1..] <==> address == Some(a)
  {
    hide Quote, Itoa;
    var text, n := "addresses = " + a, |args|;
    assert text[0] == 'a' && text[1] == 'd';
    assert fs[1][0] == 'e' && fs[2 + n][0] == 'l' && fs[3 + n][0] == 'u';
    forall i | 2 <= i < 2 + n ensures fs[i] != text {
      assert fs[i][1] == 'r';
    }
    if address.Some? {
      assert fs[4 + n][12..] == address.value && text[12..] == a;
      assert fs[1..][3 + n] == fs[4 + n];
    }
    assert forall i | 1 <= i < |fs| :: fs[i] == text ==> i == 4 + n;
  }

  /** The entry for the options of ProxyLine is one that prints well. */
  lemma OptionsGood(node: Node, rawName: string, execPath: string, port: nat)
    requires node.Parsed() && IsPort(port) && (Sanitize(rawName) != [] || Sanitize(node.display) != [])
    ensures GoodEntry(EntryFor(node, rawName, execPath, port))
  {
    SanitizeIsClean(rawName);
    SanitizeIsClean(node.display);
    hide Sanitize, Clean, IsLink, IsAddress;
  }

  /** The command line that ProxyLine should print. */
  function Command(profile: string, port: nat, link: string): seq<string> {
    ["run"] + (if profile == [] then [] else ["--profile", profile]) + ["--local-port", Itoa(port), "--link", link]
  }

  /** What the line of ProxyLine says, field by field, once it is split again: the requested name, or
      the display name when nothing is left of it; the exec path or its default; the command line,
      which is what the `args` fields unquote to; and an address exactly when the node has one. */
  lemma PrintedLine(node: Node, rawName: string, execPath: string, profile: string, port: nat)
    requires node.Parsed() && IsPort(port) && (Sanitize(rawName) != [] || Sanitize(node.display) != [])
    ensures var fs := SplitFields(LineOf(profile, EntryFor(node, rawName, execPath, port)));
      var name := if Sanitize(rawName) != [] then Sanitize(rawName) else Sanitize(node.display);
      var exec := if execPath == [] then "xcore-bridge" else execPath;
      var args := Command(profile, port, node.raw);
      && FieldsSay(fs, name, exec, args, port, node.address)
      && ArgValues(fs[1..]) == args
      && forall a :: "addresses = " + a in fs[1..] <==> node.address == Some(a)
  {
    var e := EntryFor(node, rawName, execPath, port);
    var args := Command(profile, port, node.raw);
    assert args == Args(profile, e);
    hide LineOf, LineFields, SplitFields, ArgValues, FieldsSay, Args, Command, GoodEntry, Sanitize;
    OptionsGood(node, rawName, execPath, port);
    FieldsComeBack(profile, e);
    FieldsPrinted(profile, e);
    ArgsPrinted(profile, e);
    var fs := LineFields(profile, e);
    forall a: string ensures "addresses = " + a in fs[1..] <==> node.address == Some(a) {
      AddressPrinted(fs, e.name, e.exec, args, port, node.address, a);
    }
  }

  // ---------- what is accepted ----------

  function Each<S, T>(f: S -> Option<T>, xs: seq<S>): seq<Option<T>> {
    seq(|xs|, i requires 0 <= i < |xs| => f(xs[i]))
  }

  predicate AllUnset<T>(xs: seq<Option<T>>) {
    forall i | 0 <= i < |xs| :: xs[i].None?
  }

  predicate LastAt<T(==)>(xs: seq<Option<T>>, i: int, v: T) {
    0 <= i < |xs| && xs[i] == Some(v) && forall j | i < j < |xs| :: xs[j].None?
  }

  predicate FirstAt<T(==)>(xs: seq<Option<T>>, i: int, v: T) {
    0 <= i < |xs| && xs[i] == Some(v) && forall j | 0 <= j < i :: xs[j].None?
  }

  /** The last value in the list, or `start` when there is none. */
  ghost predicate IsLast<T>(xs: seq<Option<T>>, start: T, v: T) {
    (AllUnset(xs) && v == start) || exists i :: LastAt(xs, i, v)
  }

  ghost predicate IsFirst<T>(xs: seq<Option<T>>, v: T) {
    exists i :: FirstAt(xs, i, v)
  }

  /** The port, host or exec path that a field sets. */
  function PortIn(f: string): Option<int> {
    if Keyed(f, "local-port") && Atoi(Value(f)).Some? && IsPort(Atoi(Value(f)).value) then Atoi(Value(f)) else None
  }

  function HostIn(f: string): Option<string> {
    if (Keyed(f, "local-host") || Keyed(f, "listen")) && UnquoteOr(Value(f)) != [] then Some(UnquoteOr(Value(f)))
    else None
  }

  function ExecIn(f: string): Option<string> {
    if HasKey(f) && EqualFold(Key(f), "exec") then Some(Trim(UnquoteOr(Value(f)))) else None
  }

  /** The values behind `--link`, and the arguments that are links. */
  function Flagged(args: seq<string>): seq<Option<string>> {
    seq(|args|, i requires 0 <= i < |args| =>
      if args[i] == "--link" && i + 1 < |args| then Some(Trim(args[i + 1])) else None)
  }

  function LinkIn(arg: string): Option<string> {
    if HasPrefix(ToLower(Trim(arg)), "vless://") then Some(Trim(arg)) else None
  }

  /** The first field says that the policy of this name is an external one. */
  predicate SaysExternal(field: string, name: string) {
    || EqualFold(Trim(field), name + " = external")
    || (HasKey(field) && Sanitize(field[..Index(field, '=')]) == name && EqualFold(Value(field), "external"))
  }

  /** For which policy a line should be accepted, by the positions of its fields and arguments: the
      last legal port and the last host count, the first exec path and the first link, and where
      the command names a host or a port, they must be those of the fields. */
  ghost predicate Means(line: string, p: Policy) {
    var fields := SplitFields(line);
    && p.name == LineName(line) != [] && fields != [] && SaysExternal(fields[0], p.name)
    && IsLast(Each(PortIn, fields[1..]), 0, p.localPort) && p.localPort != 0
    && IsLast(Each(HostIn, fields[1..]), "127.0.0.1", p.localHost)
    && (exists exec :: exec != [] && IsFirst(Each(ExecIn, fields), exec))
    && Commands(ArgValues(fields[1..]), p)
  }

  /** What the command line has to say for a policy. */
  ghost predicate Commands(args: seq<string>, p: Policy) {
    && args != [] && args[0] == "run" && p.link != []
    && IsFirst(if AllUnset(Flagged(args)) then Each(LinkIn, args) else Flagged(args), p.link)
    && (var (host, port) := RunListen(args, [], 0);
        (host == [] || host == p.localHost) && (port == 0 || port == p.localPort))
    && p.runHost == p.localHost && p.runPort == p.localPort
  }

  lemma LastCons<T>(x: Option<T>, xs: seq<Option<T>>, start: T, v: T)
    ensures IsLast([x] + xs, start, v) <==> IsLast(xs, if x.Some? then x.value else start, v)
  {
    var all := [x] + xs;
    assert all[0] == x && forall i | 0 <= i < |xs| :: all[i + 1] == xs[i];
    assert forall i | 0 < i < |all| :: xs[i - 1] == all[i];
    forall i | LastAt(all, i, v) ensures i > 0 ==> LastAt(xs, i - 1, v) {
    }
    forall i | LastAt(xs, i, v) ensures LastAt(all, i + 1, v) {
    }
    assert AllUnset(xs) && x == Some(v) ==> LastAt(all, 0, v);
  }

  lemma FirstCons<T>(x: Option<T>, xs: seq<Option<T>>, v: T)
    ensures IsFirst([x] + xs, v) <==> if x.Some? then x.value == v else IsFirst(xs, v)
  {
    var all := [x] + xs;
    assert all[0] == x && forall i | 0 <= i < |xs| :: all[i + 1] == xs[i];
    forall i | FirstAt(all, i, v) ensures i > 0 ==> FirstAt(xs, i - 1, v) {
    }
    forall i | FirstAt(xs, i, v) && x.None? ensures FirstAt(all, i + 1, v) {
    }
    assert x == Some(v) ==> FirstAt(all, 0, v);
  }

  lemma EachCons<S, T>(f: S -> Option<T>, xs: seq<S>)
    requires xs != []
    ensures Each(f, xs) == [f(xs[0])] + Each(f, xs[1..])
  {
  }

  // ---------- the loop over the fields ----------

  /** One field: each of the three variables takes what the field sets, or stays. */
  lemma StepSets(seen: Seen, f: string)
    ensures var next := Step(seen, f);
      && next.args == seen.args + ArgValues([f])
      && next.port == (if PortIn(f).Some? then PortIn(f).value else seen.port)
      && next.host == (if HostIn(f).Some? then HostIn(f).value else seen.host)
  {
    ArgValueOne(f);
    hide UnquoteOr, Atoi, ToLower, Index, Trim, Key, Value;
  }

  lemma {:induction false} StepsSet(seen: Seen, fs: seq<string>, port: int, host: string)
    ensures var last := Steps(seen, fs);
      && last.args == seen.args + ArgValues(fs)
      && (IsLast(Each(PortIn, fs), seen.port, port) <==> last.port == port)
      && (IsLast(Each(HostIn, fs), seen.host, host) <==> last.host == host)
    decreases |fs|
  {
    hide Step, PortIn, HostIn, ArgValues, Each, IsLast;
    if fs == [] {
      NoFields(seen, port, host);
    } else {
      var f, rest := fs[0], fs[1..];
      assert fs == [f] + rest;
      StepSets(seen, f);
      StepsSet(Step(seen, f), rest, port, host);
      ArgValuesAppend([f], rest);
      EachCons(PortIn, fs);
      EachCons(HostIn, fs);
      LastCons(PortIn(f), Each(PortIn, rest), seen.port, port);
      LastCons(HostIn(f), Each(HostIn, rest), seen.host, host);
    }
  }

  lemma NoFields(seen: Seen, port: int, host: string)
    ensures seen.args + ArgValues([]) == seen.args
    ensures IsLast(Each(PortIn, []), seen.port, port) <==> seen.port == port
    ensures IsLast(Each(HostIn, []), seen.host, host) <==> seen.host == host
  {
  }

  lemma {:induction false} FirstExec(fields: seq<string>, exec: string)
    ensures exec != [] ==> (IsFirst(Each(ExecIn, fields), exec) <==> ExecPath(fields) == exec)
  {
    hide IsFirst, Each, Key, Value, UnquoteOr, Trim, EqualFold;
    if fields == [] {
      NoneFirst(exec);
    } else {
      EachCons(ExecIn, fields);
      FirstCons(ExecIn(fields[0]), Each(ExecIn, fields[1..]), exec);
      FirstExec(fields[1..], exec);
    }
  }

  lemma NoneFirst(v: string)
    ensures !IsFirst(Each(ExecIn, []), v) && !IsFirst(Each(LinkIn, []), v)
  {
  }

  lemma {:induction false} FirstFlag(args: seq<string>, link: string)
    ensures IsFirst(Flagged(args), link) <==> LinkFlag(args) == Some(link)
    ensures AllUnset(Flagged(args)) <==> LinkFlag(args).None?
  {
    hide Trim;
    if |args| >= 2 {
      var x, rest := if args[0] == "--link" then Some(Trim(args[1])) else None, Flagged(args[1..]);
      assert Flagged(args) == [x] + rest;
      FirstCons(x, rest, link);
      FirstFlag(args[1..], link);
      hide IsFirst, Flagged;
      assert AllUnset([x] + rest) <==> x.None? && AllUnset(rest) by { UnsetCons(x, rest); }
    }
  }

  lemma UnsetCons(x: Option<string>, xs: seq<Option<string>>)
    ensures AllUnset([x] + xs) <==> x.None? && AllUnset(xs)
  {
    var all := [x] + xs;
    assert all[0] == x && forall i | 0 <= i < |xs| :: all[i + 1] == xs[i];
  }

  lemma {:induction false} FirstVless(args: seq<string>, link: string)
    ensures link != [] ==> (IsFirst(Each(LinkIn, args), link) <==> FirstLink(args) == link)
  {
    hide IsFirst, Each, Trim, HasPrefix, ToLower;
    if args == [] {
      NoneFirst(link);
    } else {
      EachCons(LinkIn, args);
      FirstCons(LinkIn(args[0]), Each(LinkIn, args[1..]), link);
      FirstVless(args[1..], link);
    }
  }

  lemma CommandsAre(args: seq<string>, p: Policy)
    ensures Commands(args, p) <==>
      && args != [] && args[0] == "run" && p.link == LinkArg(args) != []
      && (var (host, port) := RunListen(args, [], 0);
          (host == [] || host == p.localHost) && (port == 0 || port == p.localPort))
      && p.runHost == p.localHost && p.runPort == p.localPort
  {
    FirstFlag(args, p.link);
    FirstVless(args, p.link);
    hide IsFirst, Flagged, Each, RunListen, LinkFlag, FirstLink;
  }

  lemma ConcludeAccepts(seen: Seen, exec: string, p: Policy)
    ensures Conclude(p.name, seen, exec) == Some(p) <==>
      && exec != [] && p.localHost == seen.host && p.localPort == seen.port != 0 && Commands(seen.args, p)
  {
    CommandsAre(seen.args, p);
    hide Commands, RunListen, LinkArg;
  }

  lemma ExecExists(fields: seq<string>)
    ensures (exists exec :: exec != [] && IsFirst(Each(ExecIn, fields), exec)) <==> ExecPath(fields) != []
  {
    hide IsFirst, Each, ExecPath;
    FirstExec(fields, ExecPath(fields));
    if exec :| exec != [] && IsFirst(Each(ExecIn, fields), exec) {
      FirstExec(fields, exec);
    }
  }

  lemma HeadSays(field: string, name: string)
    ensures SaysExternal(field, name) <==> HeadAccepted(field, name)
  {
  }

  lemma ParseIs(line: string, p: Policy)
    ensures var fields := SplitFields(line);
      Parse(line) == Some(p) <==>
        && p.name == LineName(line) != [] && fields != [] && HeadAccepted(fields[0], p.name)
        && Conclude(p.name, Steps(NOTHING_SEEN, fields[1..]), ExecPath(fields)) == Some(p)
  {
    hide LineName, SplitFields, HeadAccepted, Steps, ExecPath, RunListen, LinkArg;
  }

  /** managedPolicy accepts a line, whatever it is, with exactly the policy that its fields mean. */
  lemma AcceptedExactly(line: string, p: Policy)
    ensures Parse(line) == Some(p) <==> Means(line, p)
  {
    hide LineName, SplitFields, HeadAccepted, SaysExternal, Steps, ExecPath, Conclude, Parse, IsLast, IsFirst, Each,
      ArgValues, Commands;
    ParseIs(line, p);
    var fields := SplitFields(line);
    if fields != [] {
      HeadSays(fields[0], p.name);
      StepsSet(NOTHING_SEEN, fields[1..], p.localPort, p.localHost);
      ExecExists(fields);
      assert NOTHING_SEEN.args + ArgValues(fields[1..]) == ArgValues(fields[1..]);
      assert NOTHING_SEEN.host == "127.0.0.1" && NOTHING_SEEN.port == 0;
      ConcludeAccepts(Steps(NOTHING_SEEN, fields[1..]), ExecPath(fields), p);
    }
  }

  // ---------- the loop over the arguments ----------

  /** The argument list in pieces: an option with its value, or a word.  A word is no option, unless
      it is the last argument and so has no value. */
  datatype Piece = Listen(host: string) | LocalPort(number: string) | Word(text: string) {
    function Args(): seq<string> {
      match this
      case Listen(host) => ["--listen", host]
      case LocalPort(number) => ["--local-port", number]
      case Word(text) => [text]
    }

    predicate IsOption() {
      Word? && (text == "--listen" || text == "--local-port")
    }
  }

  function HostOf(piece: Piece): Option<string> {
    if piece.Listen? then Some(Trim(piece.host)) else None
  }

  function PortOf(piece: Piece): Option<int> {
    if piece.LocalPort? && Atoi(Trim(piece.number)).Some? && IsPort(Atoi(Trim(piece.number)).value) then
      Atoi(Trim(piece.number))
    else None
  }

  function AllArgs(pieces: seq<Piece>): seq<string> {
    if pieces == [] then [] else pieces[0].Args() + AllArgs(pieces[1..])
  }

  predicate WellCut(pieces: seq<Piece>) {
    forall i | 0 <= i < |pieces| - 1 :: !pieces[i].IsOption()
  }

  lemma ListenPiece(piece: Piece, rest: seq<string>, host: string, port: int)
    requires piece.IsOption() ==> rest == []
    ensures RunListen(piece.Args() + rest, host, port) ==
      RunListen(rest, if HostOf(piece).Some? then HostOf(piece).value else host,
                if PortOf(piece).Some? then PortOf(piece).value else port)
  {
    var args := piece.Args() + rest;
    assert args[1..] == if piece.Word? then rest else [args[1]] + rest;
    assert !piece.Word? ==> args[2..] == rest;
    hide Trim, Atoi;
  }

  /** Every argument list has such pieces, and the host and the port that runListenArgs reads are
      those of the last `--listen` and of the last `--local-port` with a legal number. */
  lemma {:induction false} PiecesRead(args: seq<string>, host: string, port: int) returns (pieces: seq<Piece>)
    ensures AllArgs(pieces) == args && WellCut(pieces)
    ensures var (h, n) := RunListen(args, host, port);
      IsLast(Each(HostOf, pieces), host, h) && IsLast(Each(PortOf, pieces), port, n)
    decreases |args|
  {
    hide RunListen, HostOf, PortOf, IsLast, Each;
    if args == [] {
      pieces := [];
      NoPieces(host, port);
    } else {
      var piece :=
        if |args| > 1 && args[0] == "--listen" then Listen(args[1])
        else if |args| > 1 && args[0] == "--local-port" then LocalPort(args[1])
        else Word(args[0]);
      var rest := args[|piece.Args()|..];
      assert args == piece.Args() + rest;
      ListenPiece(piece, rest, host, port);
      var host' := if HostOf(piece).Some? then HostOf(piece).value else host;
      var port' := if PortOf(piece).Some? then PortOf(piece).value else port;
      var more := PiecesRead(rest, host', port');
      pieces := [piece] + more;
      EachCons(HostOf, pieces);
      EachCons(PortOf, pieces);
      var (h, n) := RunListen(args, host, port);
      LastCons(HostOf(piece), Each(HostOf, more), host, h);
      LastCons(PortOf(piece), Each(PortOf, more), port, n);
      assert more == [] || !piece.IsOption();
    }
  }

  lemma NoPieces(host: string, port: int)
    ensures RunListen([], host, port) == (host, port)
    ensures IsLast(Each(HostOf, []), host, host) && IsLast(Each(PortOf, []), port, port)
  {
  }
}

/** Managed proxy lines: the printer `ProxyLine` of internal/surge/line.go and the parser
    `managedPolicy` of internal/surge/proxy_parse.go. */
module Lines {
  import opened Text
  import opened Quoting
  import opened Fields
  import opened Names
  import opened Ports
  import PortScan

  const LOCAL_HOST := "127.0.0.1"

  // ---------- data ----------

  /** A VLESS node as the editor sees it: the share link, the display name, the text of
      the server address when that is an IP literal, and whether `Validate` accepts it. */
  datatype Node = Node(raw: string, display: string, address: Option<string>, valid: bool) {
    /** What `vless.Parse` guarantees of its results. */
    predicate Parsed() {
      IsLink(raw) && (address.Some? ==> IsAddress(address.value))
    }
  }

  predicate IsLink(link: string) {
    Trimmed(link) && HasPrefix(ToLower(link), "vless://")
  }

  /** Text of an IP address. */
  predicate IsAddress(a: string) {
    a != [] && forall i | 0 <= i < |a| :: IsDigit(a[i]) || 'a' <= a[i] <= 'f' || a[i] == '.' || a[i] == ':'
  }

  /** What a managed line says. */
  datatype Entry = Entry(name: string, exec: string, link: string, port: nat, address: Option<string>)

  /** What `managedPolicy` reads from a line. */
  datatype Policy = Policy(name: string, link: string, localHost: string, localPort: int,
                           runHost: string, runPort: int)

  datatype LineError = InvalidNode | InvalidPort

  datatype LineResult = Line(text: string) | LineFailed(error: LineError)

  // ---------- the printer ----------

  function Assign(key: string, value: string): string {
    key + " = " + value
  }

  function ArgField(v: string): string {
    Assign("args", Quote(v))
  }

  function ArgFields(vs: seq<string>): seq<string> {
    if vs == [] then [] else [ArgField(vs[0])] + ArgFields(vs[1..])
  }

  /** The command line of the managed process. */
  function Args(profile: string, e: Entry): seq<string> {
    ["run"] + (if profile == [] then [] else ["--profile", profile])
    + ["--local-port", Itoa(e.port), "--link", e.link]
  }

  /** The fields up to the link, and those after the port. */
  function FrontFields(profile: string, e: Entry): seq<string> {
    [Assign(e.name, "external"), Assign("exec", Quote(e.exec))] + ArgFields(Args(profile, e))
  }

  function BackFields(e: Entry): seq<string> {
    [Assign("udp-relay", "true")] + if e.address.Some? then [Assign("addresses", e.address.value)] else []
  }

  function PortField(e: Entry): string {
    Assign(PortScan.KEY, Itoa(e.port))
  }

  function LineFields(profile: string, e: Entry): seq<string> {
    FrontFields(profile, e) + [PortField(e)] + BackFields(e)
  }

  /** The line for an entry. */
  function LineOf(profile: string, e: Entry): string {
    Join(LineFields(profile, e), ", ")
  }

  /** The entry that `ProxyLine` writes for its options. */
  function EntryFor(node: Node, name: string, exec: string, port: nat): Entry {
    Entry(if Sanitize(name) == [] then Sanitize(node.display) else Sanitize(name),
          if exec == [] then DEFAULT_NAME else exec, node.raw, port, node.address)
  }

  /** ProxyLine: arguments and fields are appended step by step. */
  method ProxyLine(node: Node, rawName: string, execPath: string, profile: string, port: int)
    returns (r: LineResult)
    ensures !node.valid ==> r == LineFailed(InvalidNode)
    ensures node.valid && !IsPort(port) ==> r == LineFailed(InvalidPort)
    ensures node.valid && IsPort(port) ==> r == Line(LineOf(profile, EntryFor(node, rawName, execPath, port)))
  {
    if !node.valid {
      return LineFailed(InvalidNode);
    }
    if port <= 0 || port > MAX_PORT {
      return LineFailed(InvalidPort);
    }
    var exec := execPath;
    if exec == [] {
      exec := DEFAULT_NAME;
    }
    var name := SanitizeName(rawName);
    if name == [] {
      name := SanitizeName(node.display);
    }
    var fields := BuildFields(profile, Entry(name, exec, node.raw, port, node.address));
    return Line(Join(fields, ", "));
  }

  /** The fields of ProxyLine, appended one after the other. */
  method BuildFields(profile: string, e: Entry) returns (fields: seq<string>)
    ensures fields == LineFields(profile, e)
  {
    var args := RunArgs(profile, e);
    fields := [Assign(e.name, "external"), Assign("exec", Quote(e.exec))];
    fields := AppendArgs(fields, args);
    fields := fields + [PortField(e)];
    ghost var front := fields;
    fields := fields + [Assign("udp-relay", "true")];
    if e.address.Some? {
      fields := fields + [Assign("addresses", e.address.value)];
    }
    assert fields == front + BackFields(e);
  }

  /** The argument list of ProxyLine */
  method RunArgs(profile: string, e: Entry) returns (args: seq<string>)
    ensures args == Args(profile, e)
  {
    args := ["run"];
    if profile != [] {
      args := args + ["--profile", profile];
    }
    args := args + ["--local-port", Itoa(e.port), "--link", e.link];
  }

  /** The loop of ProxyLine over its arguments */
  method AppendArgs(head: seq<string>, args: seq<string>) returns (fields: seq<string>)
    ensures fields == head + ArgFields(args)
  {
    fields := head;
    assert args[..0] == [];
    for i := 0 to |args|
      invariant fields == head + ArgFields(args[..i])
    {
      ArgFieldsSnoc(args, i);
      fields := fields + [ArgField(args[i])];
    }
    assert args[..|args|] == args;
  }

  lemma {:induction false} ArgFieldsAppend(a: seq<string>, b: seq<string>)
    ensures ArgFields(a + b) == ArgFields(a) + ArgFields(b)
  {
    if a == [] {
      assert a + b == b;
    } else {
      assert (a + b)[1..] == a[1..] + b;
      ArgFieldsAppend(a[1..], b);
    }
  }

  lemma ArgFieldsSnoc(args: seq<string>, i: nat)
    requires i < |args|
    ensures ArgFields(args[..i + 1]) == ArgFields(args[..i]) + [ArgField(args[i])]
  {
    assert args[..i + 1] == args[..i] + [args[i]] && [args[i]][1..] == [];
    ArgFieldsAppend(args[..i], [args[i]]);
  }

  // ---------- the parser ----------

  /** The first `=` cuts a field into key and value. */
  predicate HasKey(field: string) {
    Index(field, '=') < |field|
  }

  function Key(field: string): string
    requires HasKey(field)
  {
    Trim(field[..Index(field, '=')])
  }

  function Value(field: string): string
    requires HasKey(field)
  {
    Trim(field[Index(field, '=') + 1..])
  }

  function UnquoteOr(value: string): string {
    match Unquote(value)
    case Some(v) => v
    case None => value
  }

  /** The variables of the loop in managedPolicy. */
  datatype Seen = Seen(args: seq<string>, port: int, host: string)

  function Step(seen: Seen, field: string): Seen {
    if !HasKey(field) then seen
    else
      var key, value := ToLower(Key(field)), Value(field);
      if key == "args" then seen.(args := seen.args + [UnquoteOr(value)])
      else if key == "local-port" then
        if Atoi(value).Some? && IsPort(Atoi(value).value) then seen.(port := Atoi(value).value) else seen
      else if key == "local-host" || key == "listen" then
        if UnquoteOr(value) != [] then seen.(host := UnquoteOr(value)) else seen
      else seen
  }

  function Steps(seen: Seen, fields: seq<string>): Seen
    decreases |fields|
  {
    if fields == [] then seen else Steps(Step(seen, fields[0]), fields[1..])
  }

  /** The first field must say `name = external`. */
  predicate HeadAccepted(field: string, name: string) {
    || EqualFold(Trim(field), name + " = external")
    || (HasKey(field) && Sanitize(field[..Index(field, '=')]) == name && EqualFold(Value(field), "external"))
  }

  /** proxyLineExecPath on the fields of the line; the empty string stands for "none". */
  function ExecPath(fields: seq<string>): string {
    if fields == [] then []
    else if HasKey(fields[0]) && EqualFold(Key(fields[0]), "exec") then Trim(UnquoteOr(Value(fields[0])))
    else ExecPath(fields[1..])
  }

  function LinkFlag(args: seq<string>): Option<string> {
    if |args| < 2 then None
    else if args[0] == "--link" then Some(Trim(args[1]))
    else LinkFlag(args[1..])
  }

  function FirstLink(args: seq<string>): string {
    if args == [] then []
    else if HasPrefix(ToLower(Trim(args[0])), "vless://") then Trim(args[0])
    else FirstLink(args[1..])
  }

  /** linkArg */
  function LinkArg(args: seq<string>): string {
    match LinkFlag(args)
    case Some(link) => link
    case None => FirstLink(args)
  }

  /** The host and port that the arguments name, on top of those seen before. */
  function RunListen(args: seq<string>, host: string, port: int): (string, int)
    decreases |args|
  {
    if args == [] then (host, port)
    else if args[0] == "--listen" && |args| > 1 then RunListen(args[2..], Trim(args[1]), port)
    else if args[0] == "--local-port" && |args| > 1 then
      var n := Atoi(Trim(args[1]));
      RunListen(args[2..], host, if n.Some? && IsPort(n.value) then n.value else port)
    else RunListen(args[1..], host, port)
  }

  /** The last part of managedPolicy, once the fields have been read. */
  function Conclude(name: string, seen: Seen, exec: string): Option<Policy> {
    var (h, p) := RunListen(seen.args, [], 0);
    var runHost := if h == [] then seen.host else h;
    var runPort := if p == 0 then seen.port else p;
    var link := LinkArg(seen.args);
    if seen.args == [] || seen.args[0] != "run" || exec == [] then None
    else if runHost != seen.host || runPort != seen.port then None
    else if link == [] || seen.port == 0 then None
    else Some(Policy(name, link, seen.host, seen.port, runHost, runPort))
  }

  const NOTHING_SEEN := Seen([], 0, LOCAL_HOST)

  /** managedPolicy as a function */
  function Parse(line: string): Option<Policy> {
    var name, fields := LineName(line), SplitFields(line);
    if name == [] || fields == [] || !HeadAccepted(fields[0], name) then None
    else Conclude(name, Steps(NOTHING_SEEN, fields[1..]), ExecPath(fields))
  }

  /** runListenArgs: an index loop that skips the values it uses. */
  method RunListenArgs(args: seq<string>) returns (host: string, port: int)
    ensures (host, port) == RunListen(args, [], 0)
  {
    host, port := [], 0;
    var i := 0;
    assert args[0..] == args;
    while i < |args|
      invariant 0 <= i <= |args|
      invariant RunListen(args, [], 0) == RunListen(args[i..], host, port)
    {
      assert args[i..][1..] == args[i + 1..];
      assert i + 1 < |args| ==> args[i..][2..] == args[i + 2..];
      if args[i] == "--listen" {
        if i + 1 < |args| {
          host := Trim(args[i + 1]);
          i := i + 1;
        }
      } else if args[i] == "--local-port" {
        if i + 1 < |args| {
          var n := Atoi(Trim(args[i + 1]));
          if n.Some? && n.value > 0 && n.value <= MAX_PORT {
            port := n.value;
          }
          i := i + 1;
        }
      }
      i := i + 1;
    }
  }

  /** managedPolicy: one loop over the fields fills args, port and host. */
  method ManagedPolicy(line: string) returns (r: Option<Policy>)
    ensures r == Parse(line)
  {
    var name := LineName(line);
    if name == [] {
      return None;
    }
    var fields := SplitProxyFields(line);
    if |fields| == 0 || !HeadAccepted(fields[0], name) {
      return None;
    }
    var args, port, host := [], 0, LOCAL_HOST;
    var rest := fields[1..];
    assert rest[0..] == rest;
    for i := 0 to |rest|
      invariant Steps(NOTHING_SEEN, rest) == Steps(Seen(args, port, host), rest[i..])
    {
      assert rest[i..][0] == rest[i] && rest[i..][1..] == rest[i + 1..];
      if !HasKey(rest[i]) {
        continue;
      }
      var key, value := ToLower(Key(rest[i])), Value(rest[i]);
      if key == "args" {
        args := args + [UnquoteOr(value)];
      } else if key == "local-port" {
        var parsed := Atoi(value);
        if parsed.Some? && parsed.value > 0 && parsed.value <= MAX_PORT {
          port := parsed.value;
        }
      } else if key == "local-host" || key == "listen" {
        value := UnquoteOr(value);
        if value != [] {
          host := value;
        }
      }
    }
    if args == [] || args[0] != "run" || ExecPath(fields) == [] {
      return None;
    }
    var link := LinkArg(args);
    var runHost, runPort := RunListenArgs(args);
    if runHost == [] {
      runHost := host;
    }
    if runPort == 0 {
      runPort := port;
    }
    if runHost != host || runPort != port || link == [] || port == 0 {
      return None;
    }
    return Some(Policy(name, link, host, port, runHost, runPort));
  }
}

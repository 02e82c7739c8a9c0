/** The five edits of internal/surge, from profile text to profile text: install.go,
    remove.go, rename.go, replace.go and the reader ManagedPolicies. */
module Edits {
  import opened Text
  import opened Names
  import opened Ports
  import opened PortScan
  import opened Lines
  import opened Renaming
  import opened Sections
  import opened Slices
  import opened Blocks
  import opened Profile

  datatype Error = BadBasePort | NoNodes | NameCount | BadNode | NoProxySection | NoManagedBlock
                 | NotRunPolicy | NoPolicies | NoPort | NoNames | NameRequired | NoMatch

  /** The new text, the names and the ports that an edit reports. */
  datatype Outcome = Done(text: string, names: seq<string>, ports: seq<int>) | Failed(error: Error)

  /** InstallOptions; `available` stands for the probe of a local port. */
  datatype Options = Options(nodes: seq<Node>, names: seq<string>, exec: string, basePort: int,
                             available: int -> bool)

  const DEFAULT_BASE := 61080

  // ---------- reading ----------

  function ParseAll(lines: seq<string>): Option<seq<Policy>> {
    if lines == [] then Some([])
    else
      match (Parse(lines[0]), ParseAll(lines[1..]))
      case (Some(p), Some(ps)) => Some([p] + ps)
      case _ => None
  }

  datatype Reading = Policies(policies: seq<Policy>) | Unreadable(error: Error)

  /** ManagedPolicies as a function */
  function Read(text: string): Reading {
    match Open(LinesOf(text))
    case None => Unreadable(NoProxySection)
    case Some(p) =>
      match BlockOf(p.body)
      case None => Unreadable(NoManagedBlock)
      case Some(m) =>
        match ParseAll(m)
        case None => Unreadable(NotRunPolicy)
        case Some(ps) => if ps == [] then Unreadable(NoPolicies) else Policies(ps)
  }

  // ---------- Install and Add ----------

  /** The display names of the nodes, or the overrides. */
  function Labels(opts: Options): seq<string> {
    if opts.names == [] then seq(|opts.nodes|, i requires 0 <= i < |opts.nodes| => opts.nodes[i].display)
    else opts.names
  }

  /** The node loop of install: names and ports in use grow, and the search for a port goes on
      above the last one.  None is the error "no available local port". */
  function Generate(nodes: seq<Node>, labels: seq<string>, exec: string, existing: seq<string>, next: int,
                    used: set<int>, reusable: set<int>, available: int -> bool): Option<seq<Entry>>
    requires |labels| == |nodes|
  {
    if nodes == [] then Some([])
    else
      match FindPort(next, used, reusable, available)
      case None => None
      case Some(port) =>
        var name := Unique(existing, labels[0]);
        match Generate(nodes[1..], labels[1..], exec, existing + [name], port + 1, used + {port}, reusable, available)
        case None => None
        case Some(es) => Some([EntryFor(nodes[0], name, exec, port)] + es)
  }

  /** The lines of a list of entries. */
  function LinesFor(profile: string, es: seq<Entry>): seq<string> {
    seq(|es|, i requires 0 <= i < |es| => LineOf(profile, es[i]))
  }

  function EntryNames(es: seq<Entry>): seq<string> {
    seq(|es|, i requires 0 <= i < |es| => es[i].name)
  }

  function EntryPorts(es: seq<Entry>): seq<int> {
    seq(|es|, i requires 0 <= i < |es| => es[i].port)
  }

  function BasePort(opts: Options): int {
    if opts.basePort == 0 then DEFAULT_BASE else opts.basePort
  }

  /** The checks of install that come before the profile is read. */
  function OptionError(opts: Options): Option<Error> {
    if !IsPort(BasePort(opts)) then Some(BadBasePort)
    else if opts.nodes == [] then Some(NoNodes)
    else if opts.names != [] && |opts.names| != |opts.nodes| then Some(NameCount)
    else if exists i :: 0 <= i < |opts.nodes| && !opts.nodes[i].valid then Some(BadNode)
    else None
  }

  /** The managed lines that an install keeps. */
  function Kept(p: Parts, replace: bool): seq<string> {
    if replace then [] else match BlockOf(p.body) case Some(m) => m case None => []
  }

  /** The new entries of an install on an opened profile. */
  function NewEntries(p: Parts, opts: Options, replace: bool): Option<seq<Entry>>
    requires OptionError(opts).None?
  {
    var kept, clean := Kept(p, replace), Strip(p.body);
    var used := PortsOf(clean) + PortsOf(kept);
    Generate(opts.nodes, Labels(opts), opts.exec, NamesOf(clean) + NamesOf(kept), BasePort(opts),
             used, PortsOf(p.body) - used, opts.available)
  }

  /** install as a function; Install replaces the managed lines, Add keeps them. */
  function Install(text: string, profile: string, opts: Options, replace: bool): Outcome {
    if OptionError(opts).Some? then Failed(OptionError(opts).value)
    else
      var p := OpenOrInsert(LinesOf(text));
      if ParseAll(Kept(p, replace)).None? then Failed(NotRunPolicy)
      else
        match NewEntries(p, opts, replace)
        case None => Failed(NoPort)
        case Some(es) =>
          Done(Edited(p, Kept(p, replace) + LinesFor(profile, es)), EntryNames(es), EntryPorts(es))
  }

  // ---------- Remove ----------

  /** normalizedRemoveNames as a function */
  function RemoveNames(names: seq<string>): set<string> {
    (set n | n in names :: Sanitize(n)) - {""}
  }

  /** The managed lines whose name is not in `names`. */
  function WithoutNames(lines: seq<string>, names: set<string>): seq<string> {
    if lines == [] then []
    else (if LineName(lines[0]) in names then [] else [lines[0]]) + WithoutNames(lines[1..], names)
  }

  function RemovedNames(lines: seq<string>, names: set<string>): seq<string> {
    if lines == [] then []
    else (if LineName(lines[0]) in names then [LineName(lines[0])] else []) + RemovedNames(lines[1..], names)
  }

  /** Remove as a function; without any named line left the whole block goes. */
  function Remove(text: string, names: seq<string>): Outcome {
    var wanted := RemoveNames(names);
    if wanted == {} then Failed(NoNames)
    else
      match Open(LinesOf(text))
      case None => Failed(NoProxySection)
      case Some(p) =>
        match BlockOf(p.body)
        case None => Failed(NoManagedBlock)
        case Some(m) =>
          var next := WithoutNames(m, wanted);
          if RemovedNames(m, wanted) == [] then Failed(NoMatch)
          else Done(Edited(p, if NamesOf(next) == [] then [] else next), RemovedNames(m, wanted), [])
  }

  // ---------- Rename ----------

  function RenameAll(lines: seq<string>, from: string, to: string): seq<string> {
    if lines == [] then []
    else [if LineName(lines[0]) == from then RenameLine(lines[0], to) else lines[0]] + RenameAll(lines[1..], from, to)
  }

  function OtherNames(lines: seq<string>, from: string): seq<string> {
    if lines == [] then []
    else
      (if LineName(lines[0]) == [] || LineName(lines[0]) == from then [] else [LineName(lines[0])])
      + OtherNames(lines[1..], from)
  }

  /** Rename as a function */
  function Rename(text: string, rawFrom: string, rawTo: string): Outcome {
    var from, to := Sanitize(rawFrom), Sanitize(rawTo);
    if from == [] || to == [] then Failed(NameRequired)
    else
      match Open(LinesOf(text))
      case None => Failed(NoProxySection)
      case Some(p) =>
        match BlockOf(p.body)
        case None => Failed(NoManagedBlock)
        case Some(m) =>
          var name := Unique(NamesOf(Strip(p.body)) + OtherNames(m, from), to);
          if from !in NamesOf(m) then Failed(NoMatch)
          else Done(Edited(p, RenameAll(m, from, name)), [name], [])
  }

  // ---------- Replace ----------

  /** The line that Replace writes for an accepted line of that name. */
  function ReplaceLine(line: string, profile: string, node: Node): string
    requires Parse(line).Some? && IsPort(Parse(line).value.localPort)
  {
    LineOf(profile, EntryFor(node, LineName(line), ExecPath(Fields.SplitFields(line)), Parse(line).value.localPort))
  }

  lemma ParsedPort(line: string)
    requires Parse(line).Some?
    ensures IsPort(Parse(line).value.localPort) && ExecPath(Fields.SplitFields(line)) != [] && LineName(line) != []
  {
    StepsPort(NOTHING_SEEN, Fields.SplitFields(line)[1..]);
  }

  lemma {:induction false} StepsPort(seen: Seen, fields: seq<string>)
    requires seen.port == 0 || IsPort(seen.port)
    ensures Steps(seen, fields).port == 0 || IsPort(Steps(seen, fields).port)
    decreases |fields|
  {
    if fields != [] {
      StepsPort(Step(seen, fields[0]), fields[1..]);
    }
  }

  function ReplaceAll(lines: seq<string>, name: string, profile: string, node: Node): seq<string>
    requires ParseAll(lines).Some?
  {
    if lines == [] then []
    else
      ParsedPort(lines[0]);
      [if LineName(lines[0]) == name then ReplaceLine(lines[0], profile, node) else lines[0]]
      + ReplaceAll(lines[1..], name, profile, node)
  }

  /** The port of the last managed line of that name. */
  function PortNamed(lines: seq<string>, name: string, port: int): int {
    if lines == [] then port
    else
      PortNamed(lines[1..], name,
                if LineName(lines[0]) == name && Parse(lines[0]).Some? then Parse(lines[0]).value.localPort else port)
  }

  /** Replace as a function */
  function Replace(text: string, profile: string, rawName: string, node: Node): Outcome {
    var name := Sanitize(rawName);
    if name == [] then Failed(NameRequired)
    else if !node.valid then Failed(BadNode)
    else
      match Open(LinesOf(text))
      case None => Failed(NoProxySection)
      case Some(p) =>
        match BlockOf(p.body)
        case None => Failed(NoManagedBlock)
        case Some(m) =>
          if ParseAll(m).None? then Failed(NotRunPolicy)
          else if name !in NamesOf(m) then Failed(NoMatch)
          else Done(Edited(p, ReplaceAll(m, name, profile, node)), [name], [PortNamed(m, name, 0)])
  }
}

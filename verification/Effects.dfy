/** What ManagedPolicies answers after each edit, in terms of what it answered before: the file
    behaves as a list of policies. */
module Effects {
  import opened Text
  import opened Names
  import opened Ports
  import opened PortScan
  import opened Lines
  import opened RoundTrip
  import opened Edits
  import opened Managed
  import opened Sections
  import opened Blocks
  import opened Profile
  import opened Renaming
  import opened Refinement

  /** The policies that the profile manages; none if ManagedPolicies fails. */
  function Listed(text: string): seq<Policy> {
    match Read(text)
    case Policies(ps) => ps
    case Unreadable(_) => []
  }

  /** ManagedPolicies answers with this list, or fails if it is empty. */
  predicate Lists(text: string, ps: seq<Policy>) {
    Listed(text) == ps && (ps == [] <==> Read(text).Unreadable?)
  }

  lemma ManagesLists(text: string, profile: string, es: seq<Entry>)
    requires Manages(text, profile, es)
    ensures Lists(text, PoliciesOf(es))
  {
    ReadManaged(text, profile, es);
    hide Manages, Read;
  }

  /** The policies made for these nodes, with the reported names and ports. */
  function Made(nodes: seq<Node>, names: seq<string>, ports: seq<int>): seq<Policy>
    requires |nodes| == |names| == |ports|
  {
    seq(|nodes|, i requires 0 <= i < |nodes| =>
      Policy(names[i], nodes[i].raw, LOCAL_HOST, ports[i], LOCAL_HOST, ports[i]))
  }

  lemma {:induction false} AllParse(lines: seq<string>)
    ensures ParseAll(lines).Some? <==> forall i | 0 <= i < |lines| :: Parse(lines[i]).Some?
    ensures ParseAll(lines).Some? ==>
      |ParseAll(lines).value| == |lines|
      && forall i | 0 <= i < |lines| :: Parse(lines[i]) == Some(ParseAll(lines).value[i])
  {
    hide Parse;
    if lines != [] {
      AllParse(lines[1..]);
      assert forall i | 0 < i < |lines| :: lines[i] == lines[1..][i - 1];
    }
  }

  /** What ManagedPolicies answers on any profile: the policies of the lines of the block, one for
      each, if there are any and all are accepted; else what is missing or wrong. */
  lemma ReadExactly(text: string)
    ensures var found := Open(LinesOf(text));
      match Read(text)
      case Policies(ps) =>
        && found.Some? && BlockOf(found.value.body).Some?
        && var lines := BlockOf(found.value.body).value;
        |ps| == |lines| > 0 && forall i | 0 <= i < |lines| :: Parse(lines[i]) == Some(ps[i])
      case Unreadable(e) =>
        if found.None? then e == NoProxySection
        else if BlockOf(found.value.body).None? then e == NoManagedBlock
        else
          var lines := BlockOf(found.value.body).value;
          if exists i :: 0 <= i < |lines| && Parse(lines[i]).None? then e == NotRunPolicy
          else e == NoPolicies && lines == []
  {
    var found := Open(LinesOf(text));
    hide Open, LinesOf, BlockOf, ParseAll, Parse;
    if found.Some? && BlockOf(found.value.body).Some? {
      AllParse(BlockOf(found.value.body).value);
    }
  }

  /** The names of policies, in order. */
  function PolicyNames(ps: seq<Policy>): seq<string> {
    seq(|ps|, i requires 0 <= i < |ps| => ps[i].name)
  }

  lemma NamesOfPolicies(es: seq<Entry>)
    ensures PolicyNames(PoliciesOf(es)) == EntryNames(es)
  {
  }

  /** The names on lines outside the block. */
  function UnmanagedNames(text: string): seq<string> {
    NamesOf(Strip(OpenOrInsert(LinesOf(text)).body))
  }

  /** Add appends one policy for each node; Install leaves only these.  Each has the name that was
      asked for, made free of the names of all others. */
  lemma InstallLists(text: string, profile: string, es: seq<Entry>, opts: Options, replace: bool)
    requires Manages(text, profile, es) && UsualOptions(opts) && Install(text, profile, opts, replace).Done?
    ensures var r, kept := Install(text, profile, opts, replace), if replace then [] else Listed(text);
      && |r.names| == |r.ports| == |opts.nodes|
      && Lists(r.text, kept + Made(opts.nodes, r.names, r.ports))
      && NamedAsAsked(opts, r.names, UnmanagedNames(text) + PolicyNames(kept))
  {
    var news := InstallRefines(text, profile, es, opts, replace);
    var r, base := Install(text, profile, opts, replace), if replace then [] else es;
    ManagesLists(text, profile, es);
    ManagesLists(r.text, profile, base + news);
    NamesOfPolicies(base);
    hide Manages, Install, Listed, Read, NamedAsAsked, NamesOf, Strip, OpenOrInsert, LinesOf, PolicyNames;
    MadePolicies(news, opts, r.names, r.ports);
    PoliciesAppend(base, news);
  }

  lemma PoliciesAppend(a: seq<Entry>, b: seq<Entry>)
    ensures PoliciesOf(a + b) == PoliciesOf(a) + PoliciesOf(b)
  {
  }

  lemma MadePolicies(news: seq<Entry>, opts: Options, names: seq<string>, ports: seq<int>)
    requires |news| == |opts.nodes| && forall i | 0 <= i < |news| :: MadeFor(news[i], opts.nodes[i], opts.exec)
    requires names == EntryNames(news) && ports == EntryPorts(news)
    ensures PoliciesOf(news) == Made(opts.nodes, names, ports)
  {
    forall i | 0 <= i < |news| ensures PoliciesOf(news)[i] == Made(opts.nodes, names, ports)[i] {
      assert MadeFor(news[i], opts.nodes[i], opts.exec) && names[i] == news[i].name && ports[i] == news[i].port;
    }
  }

  /** The policies with other names, in order. */
  function Others(ps: seq<Policy>, names: set<string>): seq<Policy> {
    if ps == [] then [] else (if ps[0].name in names then [] else [ps[0]]) + Others(ps[1..], names)
  }

  lemma {:induction false} KeepOthers(es: seq<Entry>, names: set<string>)
    ensures PoliciesOf(Keep(es, names)) == Others(PoliciesOf(es), names)
  {
    if es != [] {
      KeepOthers(es[1..], names);
      assert PoliciesOf(es)[1..] == PoliciesOf(es[1..]) && PoliciesOf(es)[0] == PolicyOf(es[0]);
      PoliciesAppend([es[0]], Keep(es[1..], names));
      assert PoliciesOf([es[0]]) == [PolicyOf(es[0])];
      var rest := Keep(es[1..], names);
      assert [] + rest == rest && [] + PoliciesOf(rest) == PoliciesOf(rest);
    }
  }

  lemma {:induction false} OthersSame(ps: seq<Policy>, a: set<string>, b: set<string>)
    requires forall i | 0 <= i < |ps| :: ps[i].name in a <==> ps[i].name in b
    ensures Others(ps, a) == Others(ps, b)
  {
    if ps != [] {
      OthersSame(ps[1..], a, b);
    }
  }

  lemma {:induction false} DroppedMembers(es: seq<Entry>, names: set<string>)
    ensures forall n :: n in EntryNames(Dropped(es, names)) <==> n in names && n in EntryNames(es)
  {
    if es != [] {
      var e, rest := es[0], Dropped(es[1..], names);
      DroppedMembers(es[1..], names);
      LinesAppend("", if e.name in names then [e] else [], rest);
      LinesAppend("", [e], es[1..]);
      assert es == [e] + es[1..] && EntryNames([e]) == [e.name] && EntryNames([]) == [];
    }
  }

  /** The names that Remove is asked for, as normalizedRemoveNames should read them; an empty one
      among them names nothing. */
  function AskedNames(names: seq<string>): set<string> {
    set n | n in names :: Sanitize(n)
  }

  lemma AskedMatch(es: seq<Entry>, names: seq<string>)
    requires AllSound(es)
    ensures forall i | 0 <= i < |es| :: es[i].name in RemoveNames(names) <==> es[i].name in AskedNames(names)
    ensures EntryNames(es) == PolicyNames(PoliciesOf(es))
  {
    forall i | 0 <= i < |es| ensures es[i].name != [] {
      assert Sound(es[i]);
    }
    hide Sanitize;
  }

  /** Remove takes away the policies whose name is one of the requests when that is sanitized, and
      keeps all others in order; it reports their names.  When none is left, reading the profile
      fails. */
  lemma RemoveLists(text: string, profile: string, es: seq<Entry>, names: seq<string>)
    requires Manages(text, profile, es) && Remove(text, names).Done?
    ensures var r := Remove(text, names);
      && Lists(r.text, Others(Listed(text), AskedNames(names)))
      && r.names != []
      && forall n :: n in r.names <==> n in AskedNames(names) && n in PolicyNames(Listed(text))
  {
    var r, wanted := Remove(text, names), RemoveNames(names);
    RemoveRefines(text, profile, es, names);
    ManagesLists(text, profile, es);
    ManagesLists(r.text, profile, Keep(es, wanted));
    KeepOthers(es, wanted);
    OthersAsked(es, names);
    hide Manages, Remove, Listed, Read, RemoveNames, AskedNames, AllSound, NamesOf, PortsOf, Keep, Dropped, Others,
      PolicyNames, PoliciesOf, FileFramed;
  }

  lemma OthersAsked(es: seq<Entry>, names: seq<string>)
    requires AllSound(es)
    ensures Others(PoliciesOf(es), RemoveNames(names)) == Others(PoliciesOf(es), AskedNames(names))
    ensures forall n ::
      n in EntryNames(Dropped(es, RemoveNames(names))) <==> n in AskedNames(names) && n in PolicyNames(PoliciesOf(es))
  {
    hide RemoveNames, AskedNames, AllSound, Dropped, Others;
    AskedMatch(es, names);
    DroppedMembers(es, RemoveNames(names));
    OthersSame(PoliciesOf(es), RemoveNames(names), AskedNames(names));
  }

  /** The same policies, one of them with another name. */
  predicate NameChanged(ps: seq<Policy>, qs: seq<Policy>, from: string, to: string) {
    && |qs| == |ps|
    && forall i | 0 <= i < |ps| :: qs[i] == if ps[i].name == from then ps[i].(name := to) else ps[i]
  }

  /** Rename changes one name, to the one asked for, made free of the names of all other policies
      and of all unmanaged lines; so to just that name when none of them has it. */
  lemma RenameLists(text: string, profile: string, es: seq<Entry>, rawFrom: string, rawTo: string)
    requires Manages(text, profile, es) && Rename(text, rawFrom, rawTo).Done?
    ensures var r, from := Rename(text, rawFrom, rawTo), Sanitize(rawFrom);
      var taken := UnmanagedNames(text) + PolicyNames(Others(Listed(text), {from}));
      && |r.names| == 1 && NameChanged(Listed(text), Listed(r.text), from, r.names[0])
      && (exists i :: 0 <= i < |Listed(text)| && Listed(text)[i].name == from)
      && NamedAfter(r.names[0], rawTo, taken) && r.names[0] !in taken
      && (Sanitize(rawTo) !in taken ==> r.names == [Sanitize(rawTo)])
  {
    var r, from := Rename(text, rawFrom, rawTo), Sanitize(rawFrom);
    RenameRefines(text, profile, es, rawFrom, rawTo);
    ManagesLists(text, profile, es);
    var to := r.names[0];
    ManagesLists(r.text, profile, Renamed(es, from, to));
    KeepOthers(es, {from});
    NamesOfPolicies(Keep(es, {from}));
    NamedIsFree(to, rawTo, UnmanagedNames(text) + EntryNames(Keep(es, {from})));
    hide Manages, Listed, Read, Sanitize, Unique, Renamed, PoliciesOf, EntryNames, NameChanged, PolicyNames, NamedAfter,
      NamesOf, Strip, OpenOrInsert, LinesOf, Keep, Others, Open, BlockOf, RenameAll, OtherNames, Edited;
    RenamedPolicies(es, from, to);
  }

  lemma NamedIsFree(name: string, raw: string, taken: seq<string>)
    requires NamedAfter(name, raw, taken)
    ensures name !in taken
    ensures Sanitize(raw) != [] && Sanitize(raw) !in taken ==> name == Sanitize(raw)
  {
  }

  lemma RenamedPolicies(es: seq<Entry>, from: string, to: string)
    requires from in EntryNames(es)
    ensures var ps, qs := PoliciesOf(es), PoliciesOf(Renamed(es, from, to));
      NameChanged(ps, qs, from, to) && exists i :: 0 <= i < |ps| && ps[i].name == from
  {
    var ps, next := PoliciesOf(es), Renamed(es, from, to);
    assert forall i | 0 <= i < |es| :: next[i] == RenameEntry(es[i], from, to) && ps[i] == PolicyOf(es[i]);
    var k :| 0 <= k < |es| && EntryNames(es)[k] == from;
    assert ps[k].name == from;
  }

  /** The same policies, the named one with another link. */
  predicate LinkChanged(ps: seq<Policy>, qs: seq<Policy>, name: string, link: string) {
    && |qs| == |ps|
    && forall i | 0 <= i < |ps| :: qs[i] == if ps[i].name == name then ps[i].(link := link) else ps[i]
  }

  /** Replace changes one link; name, port and place stay. */
  lemma ReplaceLists(text: string, profile: string, es: seq<Entry>, rawName: string, node: Node)
    requires Manages(text, profile, es) && node.Parsed() && Replace(text, profile, rawName, node).Done?
    ensures var r, name := Replace(text, profile, rawName, node), Sanitize(rawName);
      && LinkChanged(Listed(text), Listed(r.text), name, node.raw)
      && exists i :: 0 <= i < |Listed(text)| && Listed(text)[i].name == name && r.ports == [Listed(text)[i].localPort]
  {
    var r, name := Replace(text, profile, rawName, node), Sanitize(rawName);
    ReplaceRefines(text, profile, es, rawName, node);
    ManagesLists(text, profile, es);
    ManagesLists(r.text, profile, Replaced(es, name, node));
    hide Manages, Replace, Listed, Read, Sanitize, Replaced, PoliciesOf, LinkChanged;
    ReplacedPolicies(es, name, node, r.ports);
  }

  lemma ReplacedPolicies(es: seq<Entry>, name: string, node: Node, ports: seq<int>)
    requires exists i :: 0 <= i < |es| && es[i].name == name && ports == [es[i].port as int]
    ensures var ps := PoliciesOf(es);
      && LinkChanged(ps, PoliciesOf(Replaced(es, name, node)), name, node.raw)
      && exists i :: 0 <= i < |ps| && ps[i].name == name && ports == [ps[i].localPort]
  {
    var ps := PoliciesOf(es);
    assert forall i | 0 <= i < |es| ::
      Replaced(es, name, node)[i] == ReplaceEntry(es[i], name, node) && ps[i] == PolicyOf(es[i]);
    var k :| 0 <= k < |es| && es[k].name == name && ports == [es[k].port as int];
    assert ps[k].name == name && ports == [ps[k].localPort];
  }

  // ---------- when an edit succeeds ----------

  lemma {:induction false} DroppedNone(es: seq<Entry>, names: set<string>)
    ensures Dropped(es, names) == [] <==> forall i | 0 <= i < |es| :: es[i].name !in names
  {
    if es != [] {
      DroppedNone(es[1..], names);
      assert forall i | 0 < i < |es| :: es[1..][i - 1] == es[i];
    }
  }

  /** The ports that an install may hand out, with this base. */
  function PortsToGive(text: string, opts: Options, replace: bool, base: int): seq<int> {
    var p := OpenOrInsert(LinesOf(text));
    var used := PortsOf(Strip(p.body)) + PortsOf(Kept(p, replace));
    UsablePorts(base, used, PortsOf(p.body) - used, opts.available)
  }

  /** With the invariant, install fails for a bad base port, for no nodes, for another number of
      names, for an invalid node, and for too few ports, reported in this order; and for nothing
      else. */
  lemma InstallSucceeds(text: string, profile: string, es: seq<Entry>, opts: Options, replace: bool)
    requires Manages(text, profile, es)
    ensures var r, base := Install(text, profile, opts, replace), if opts.basePort == 0 then 61080 else opts.basePort;
      var valid := forall i | 0 <= i < |opts.nodes| :: opts.nodes[i].valid;
      && (r.Done? <==>
            && 1 <= base <= 65535 && opts.nodes != [] && (opts.names == [] || |opts.names| == |opts.nodes|) && valid
            && |opts.nodes| <= |PortsToGive(text, opts, replace, base)|)
      && (r.Failed? ==>
            r.error == if !(1 <= base <= 65535) then BadBasePort
                       else if opts.nodes == [] then NoNodes
                       else if opts.names != [] && |opts.names| != |opts.nodes| then NameCount
                       else if !valid then BadNode
                       else NoPort)
  {
    KeptParses(text, profile, es, replace);
    hide OpenOrInsert, LinesOf, Strip, Kept, NamesOf, PortsOf, NewEntries, ParseAll, Install, Manages, UsablePorts,
      OptionError, PortsToGive;
    OptionErrors(text, profile, opts, replace);
    if OptionError(opts).None? {
      InstallPorts(text, profile, opts, replace);
      GivenPorts(text, opts, replace);
    }
  }

  lemma OptionErrors(text: string, profile: string, opts: Options, replace: bool)
    ensures var e, base := OptionError(opts), if opts.basePort == 0 then 61080 else opts.basePort;
      var valid := forall i | 0 <= i < |opts.nodes| :: opts.nodes[i].valid;
      && base == BasePort(opts)
      && e == (if !(1 <= base <= 65535) then Some(BadBasePort)
               else if opts.nodes == [] then Some(NoNodes)
               else if opts.names != [] && |opts.names| != |opts.nodes| then Some(NameCount)
               else if !valid then Some(BadNode)
               else None)
      && (e.Some? ==> Install(text, profile, opts, replace) == Failed(e.value))
  {
    hide OpenOrInsert, LinesOf, ParseAll, Kept, NewEntries;
  }

  lemma GivenPorts(text: string, opts: Options, replace: bool)
    ensures var p := OpenOrInsert(LinesOf(text));
      var used := PortsOf(Strip(p.body)) + PortsOf(Kept(p, replace));
      PortsToGive(text, opts, replace, BasePort(opts))
        == UsablePorts(BasePort(opts), used, PortsOf(p.body) - used, opts.available)
  {
    hide OpenOrInsert, LinesOf, Strip, Kept, PortsOf, UsablePorts;
  }

  lemma KeptParses(text: string, profile: string, es: seq<Entry>, replace: bool)
    requires Manages(text, profile, es)
    ensures ParseAll(Kept(OpenOrInsert(LinesOf(text)), replace)).Some?
  {
    OpenedHolds(text, profile, es);
    ParseLines(profile, es);
    assert ParseAll([]).Some?;
    hide OpenOrInsert, LinesOf, Manages, ParseAll, LinesFor, OneBlock, Apart, BlockOf, ValidParts, OneLiners;
  }

  /** With the invariant, Remove succeeds exactly when some request, sanitized, is the name of a
      policy. */
  lemma RemoveSucceeds(text: string, profile: string, es: seq<Entry>, names: seq<string>)
    requires Manages(text, profile, es)
    ensures var r := Remove(text, names);
      && (r.Done? <==> exists i, j :: 0 <= i < |es| && 0 <= j < |names| && es[i].name == Sanitize(names[j]))
      && (r.Failed? ==>
            r.error == if forall j | 0 <= j < |names| :: Sanitize(names[j]) == [] then NoNames
                       else if Open(LinesOf(text)).None? then NoProxySection
                       else if es == [] then NoManagedBlock
                       else NoMatch)
  {
    RemoveLines(profile, es, RemoveNames(names));
    DroppedNone(es, RemoveNames(names));
    ManagesOpens(text, profile, es);
    AskedMatch(es, names);
    AskedNone(names);
    hide RemoveNames, AllSound, Distinct, OneBlock, Apart, NamesOf, Edited, WithoutNames, RemovedNames, Open, BlockOf,
      Sanitize, LinesFor, Strip, PortsOf;
    assert EntryNames(Dropped(es, RemoveNames(names))) == [] <==> Dropped(es, RemoveNames(names)) == [];
  }

  lemma AskedNone(names: seq<string>)
    ensures RemoveNames(names) == {} <==> forall j | 0 <= j < |names| :: Sanitize(names[j]) == []
  {
    hide Sanitize;
    if RemoveNames(names) == {} {
      forall j | 0 <= j < |names| ensures Sanitize(names[j]) == [] {
        assert names[j] in names && Sanitize(names[j]) !in RemoveNames(names);
      }
    }
  }

  /** The block that the edits open. */
  predicate Opens(text: string, profile: string, es: seq<Entry>) {
    match Open(LinesOf(text))
    case None => es == []
    case Some(p) => BlockOf(p.body) == if es == [] then None else Some(LinesFor(profile, es))
  }

  lemma ManagesOpens(text: string, profile: string, es: seq<Entry>)
    requires Manages(text, profile, es)
    ensures Opens(text, profile, es)
    ensures NamesOf(LinesFor(profile, es)) == EntryNames(es) && ParseAll(LinesFor(profile, es)).Some?
  {
    NamesOfLines(profile, es);
    ParseLines(profile, es);
    hide AllSound, Distinct, OneBlock, Apart, NamesOf, ParseAll, LinesFor, BlockOf;
  }

  lemma NameListed(es: seq<Entry>, name: string)
    requires AllSound(es)
    ensures name in EntryNames(es) <==> name != [] && exists i :: 0 <= i < |es| && es[i].name == name
  {
    forall i | 0 <= i < |es| ensures es[i].name != [] {
      assert Sound(es[i]);
    }
    if i :| 0 <= i < |es| && es[i].name == name {
      assert EntryNames(es)[i] == name;
    }
  }

  lemma RenameSucceeds(text: string, profile: string, es: seq<Entry>, rawFrom: string, rawTo: string)
    requires Manages(text, profile, es)
    ensures var r := Rename(text, rawFrom, rawTo);
      && (r.Done? <==> Sanitize(rawTo) != [] && exists i :: 0 <= i < |es| && es[i].name == Sanitize(rawFrom))
      && (r.Failed? ==>
            r.error == if Sanitize(rawFrom) == [] || Sanitize(rawTo) == [] then NameRequired
                       else if Open(LinesOf(text)).None? then NoProxySection
                       else if es == [] then NoManagedBlock
                       else NoMatch)
  {
    var from := Sanitize(rawFrom);
    NameListed(es, from);
    NameListed(es, []);
    ManagesOpens(text, profile, es);
    hide Manages, Sanitize, LinesFor, EntryNames, NamesOf, Edited, RenameAll, OtherNames, Unique, Open, BlockOf, Strip;
    if es == [] { NoNamesListed(); }
  }

  lemma NoNamesListed()
    ensures EntryNames([]) == []
  {
  }

  /** With the invariant, Remove and Rename fail only for unknown or empty names, and Replace
      only for these or an invalid node. */
  lemma ReplaceSucceeds(text: string, profile: string, es: seq<Entry>, rawName: string, node: Node)
    requires Manages(text, profile, es)
    ensures var r := Replace(text, profile, rawName, node);
      && (r.Done? <==> node.valid && exists i :: 0 <= i < |es| && es[i].name == Sanitize(rawName))
      && (r.Failed? ==>
            r.error == if Sanitize(rawName) == [] then NameRequired
                       else if !node.valid then BadNode
                       else if Open(LinesOf(text)).None? then NoProxySection
                       else if es == [] then NoManagedBlock
                       else NoMatch)
  {
    NameListed(es, Sanitize(rawName));
    NameListed(es, []);
    ManagesOpens(text, profile, es);
    hide Manages, Sanitize, LinesFor, EntryNames, NamesOf, Edited, ReplaceAll, PortNamed, ParseAll, Open, BlockOf;
    if es == [] { NoNamesListed(); }
  }
}

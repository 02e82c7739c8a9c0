/** The invariant of managed profiles, and the refinement: each edit of the text is an edit of
    a list of entries. */
module Managed {
  import opened Text
  import opened Names
  import opened Ports
  import opened PortScan
  import opened Lines
  import opened RoundTrip
  import opened Renaming
  import opened Sections
  import opened Blocks
  import opened Profile
  import opened Edits

  // ---------- the invariant ----------

  /** A profile path that does not read as an option of the managed command. */
  predicate GoodPath(profile: string) {
    profile != "--link" && profile != "--listen"
  }

  /** An entry whose line reads back, also after a change of name. */
  predicate Sound(e: Entry) {
    GoodEntry(e) && Trim(e.exec) != []
  }

  predicate AllSound(es: seq<Entry>) {
    forall i | 0 <= i < |es| :: Sound(es[i])
  }

  /** Names pairwise distinct, and ports too. */
  predicate Distinct(es: seq<Entry>) {
    forall i, j | 0 <= i < j < |es| :: es[i].name != es[j].name && es[i].port != es[j].port
  }

  /** No name and no port of the entries is taken outside the block. */
  predicate Apart(es: seq<Entry>, names: seq<string>, ports: set<int>) {
    forall i | 0 <= i < |es| :: es[i].name !in names && es[i].port !in ports
  }

  predicate SectionHolds(body: seq<string>, profile: string, es: seq<Entry>) {
    && OneBlock(body)
    && BlockOf(body) == (if es == [] then None else Some(LinesFor(profile, es)))
    && Apart(es, NamesOf(Strip(body)), PortsOf(Strip(body)))
  }

  /** The profile text manages exactly these entries. */
  predicate Manages(text: string, profile: string, es: seq<Entry>) {
    && GoodPath(profile) && AllSound(es) && Distinct(es)
    && match Open(LinesOf(text))
       case None => es == []
       case Some(p) => SectionHolds(p.body, profile, es)
  }

  /** A profile with no begin marker in [Proxy], or without that section, manages nothing. */
  lemma FreshProfile(text: string, profile: string)
    requires GoodPath(profile)
    requires Open(LinesOf(text)).Some? ==> NoBegin(Open(LinesOf(text)).value.body)
    ensures Manages(text, profile, [])
  {
    if Open(LinesOf(text)).Some? {
      UnmarkedFacts(Open(LinesOf(text)).value.body);
    }
  }

  // ---------- lists of lines ----------

  function PoliciesOf(es: seq<Entry>): seq<Policy> {
    seq(|es|, i requires 0 <= i < |es| => PolicyOf(es[i]))
  }

  lemma LinesCons(profile: string, es: seq<Entry>)
    requires es != []
    ensures LinesFor(profile, es) == [LineOf(profile, es[0])] + LinesFor(profile, es[1..])
    ensures EntryNames(es) == [es[0].name] + EntryNames(es[1..])
    ensures PoliciesOf(es) == [PolicyOf(es[0])] + PoliciesOf(es[1..])
  {
  }

  lemma LinesAppend(profile: string, a: seq<Entry>, b: seq<Entry>)
    ensures LinesFor(profile, a + b) == LinesFor(profile, a) + LinesFor(profile, b)
    ensures EntryNames(a + b) == EntryNames(a) + EntryNames(b)
    ensures PoliciesOf(a + b) == PoliciesOf(a) + PoliciesOf(b)
  {
  }

  lemma {:induction false} ParseLines(profile: string, es: seq<Entry>)
    requires GoodPath(profile) && AllSound(es)
    ensures ParseAll(LinesFor(profile, es)) == Some(PoliciesOf(es))
  {
    hide LineOf, Parse, GoodEntry;
    if es != [] {
      LinesCons(profile, es);
      assert Sound(es[0]) && LinesFor(profile, es)[1..] == LinesFor(profile, es[1..]);
      SoundParses(profile, es[0]);
      ParseLines(profile, es[1..]);
    } else {
      assert LinesFor(profile, es) == [] && PoliciesOf(es) == [];
    }
  }

  lemma SoundParses(profile: string, e: Entry)
    requires GoodPath(profile) && Sound(e)
    ensures Parse(LineOf(profile, e)) == Some(PolicyOf(e))
    ensures LineName(LineOf(profile, e)) == e.name && e.name != []
    ensures e.port in LinePorts(LineOf(profile, e))
  {
    ParseOfLine(profile, e);
    LineNameBack(profile, e);
    ScannerSound(profile, e);
  }

  lemma {:induction false} NamesOfLines(profile: string, es: seq<Entry>)
    requires GoodPath(profile) && AllSound(es)
    ensures NamesOf(LinesFor(profile, es)) == EntryNames(es)
    ensures forall i | 0 <= i < |es| :: es[i].port in PortsOf(LinesFor(profile, es))
  {
    hide LineOf, LineName, LinePorts, GoodEntry;
    if es != [] {
      LinesCons(profile, es);
      assert Sound(es[0]) && LinesFor(profile, es)[1..] == LinesFor(profile, es[1..]);
      SoundParses(profile, es[0]);
      NamesOfLines(profile, es[1..]);
    }
  }

  lemma LineOrdinary(profile: string, e: Entry)
    requires GoodEntry(e)
    ensures Ordinary(LineOf(profile, e))
  {
    LineStart(profile, e);
    LineIsOneLine(profile, e);
    assert IsNameChar(e.name[0]);
    var t := Trim(LineOf(profile, e));
    assert t[0] != '#' && t[0] != '[' && t[0] != BOM;
    assert MARKER_BEGIN[0] == '#' && MARKER_END[0] == '#';
  }

  lemma LinesOrdinary(profile: string, es: seq<Entry>)
    requires AllSound(es)
    ensures AllOrdinary(LinesFor(profile, es))
  {
    hide Ordinary, LineOf;
    forall i | 0 <= i < |es| ensures Ordinary(LinesFor(profile, es)[i]) {
      assert Sound(es[i]);
      LineOrdinary(profile, es[i]);
    }
  }

  // ---------- reading ----------

  /** ManagedPolicies reads exactly the managed entries, in order. */
  lemma ReadManaged(text: string, profile: string, es: seq<Entry>)
    requires Manages(text, profile, es)
    ensures es != [] ==> Read(text) == Policies(PoliciesOf(es))
    ensures es == [] ==> Read(text).Unreadable?
  {
    ParseLines(profile, es);
  }

  // ---------- one edit ----------

  /** The entries of an edit replace those before, if they keep apart from the rest. */
  lemma EditManages(p: Parts, profile: string, es: seq<Entry>) returns (q: Parts)
    requires ValidParts(p) && OneLiners(Flatten(p)) && OneBlock(p.body)
    requires GoodPath(profile) && AllSound(es) && Distinct(es)
    requires Apart(es, NamesOf(Strip(p.body)), PortsOf(Strip(p.body)))
    ensures Manages(Edited(p, LinesFor(profile, es)), profile, es)
    ensures Open(LinesOf(Edited(p, LinesFor(profile, es)))) == Some(q) && Framed(p, q)
  {
    LinesOrdinary(profile, es);
    q := EditFrames(p, LinesFor(profile, es));
    NamesOfSolid(Strip(p.body));
    NamesOfSolid(Strip(q.body));
    assert LinesFor(profile, es) == [] <==> es == [];
    hide Open, LinesOf, Edited, OneBlock, BlockOf, NamesOf, PortsOf, LinesFor, Strip, Solid;
  }

  // ---------- Install and Add ----------

  /** Options as the command line makes them: parsed nodes, and an exec path that is empty or
      not blank. */
  predicate UsualOptions(opts: Options) {
    && (forall i | 0 <= i < |opts.nodes| :: opts.nodes[i].Parsed())
    && (opts.exec == [] || Trim(opts.exec) != [])
  }

  /** The entry for a unique name. */
  lemma NewEntrySound(node: Node, existing: seq<string>, raw: string, exec: string, port: nat)
    requires node.Parsed() && IsPort(port) && (exec == [] || Trim(exec) != [])
    ensures var e := EntryFor(node, Unique(existing, raw), exec, port);
      && Sound(e) && e.name == Unique(existing, raw) && e.name !in existing && e.link == node.raw
      && e.port == port && e.address == node.address && e.exec == if exec == [] then DEFAULT_NAME else exec
  {
    UniqueIsFree(existing, raw);
    TrimOfTrimmed(DEFAULT_NAME);
  }

  /** What the entry for one node must be. */
  predicate MadeFor(e: Entry, node: Node, exec: string) {
    e.link == node.raw && e.address == node.address && e.exec == if exec == [] then DEFAULT_NAME else exec
  }

  /** What the node loop makes: for each node a sound entry, with a name and a port that are
      new, and ports from `next` on. */
  predicate Generated(es: seq<Entry>, nodes: seq<Node>, exec: string, existing: seq<string>, used: set<int>,
                      next: int) {
    && |es| == |nodes| && AllSound(es) && Distinct(es) && Apart(es, existing, used)
    && forall i | 0 <= i < |nodes| :: MadeFor(es[i], nodes[i], exec) && es[i].port >= next
  }

  lemma GeneratedCons(e: Entry, es: seq<Entry>, node: Node, nodes: seq<Node>, exec: string,
                      existing: seq<string>, used: set<int>, next: int)
    requires Sound(e) && e.name !in existing && e.port !in used && MadeFor(e, node, exec) && next <= e.port
    requires Generated(es, nodes, exec, existing + [e.name], used + {e.port}, e.port + 1)
    ensures Generated([e] + es, [node] + nodes, exec, existing, used, next)
  {
    hide Sound, MadeFor;
    var all := [e] + es;
    assert e.name in existing + [e.name];
    assert forall n | n in existing :: n in existing + [e.name];
    forall i | 1 <= i < |all| ensures all[i] == es[i - 1] && ([node] + nodes)[i] == nodes[i - 1] {}
    forall i, j | 0 <= i < j < |all| ensures all[i].name != all[j].name && all[i].port != all[j].port {
      assert all[j] == es[j - 1] && (i > 0 ==> all[i] == es[i - 1]);
    }
  }

  /** The node loop makes such entries. */
  lemma {:induction false} GenerateNew(nodes: seq<Node>, labels: seq<string>, exec: string, existing: seq<string>,
                                       next: int, used: set<int>, reusable: set<int>, available: int -> bool)
    requires |labels| == |nodes| && (forall i | 0 <= i < |nodes| :: nodes[i].Parsed())
    requires exec == [] || Trim(exec) != []
    ensures var r := Generate(nodes, labels, exec, existing, next, used, reusable, available);
      r.Some? ==> Generated(r.value, nodes, exec, existing, used, next)
    decreases |nodes|
  {
    hide Unique, UsablePorts, Generated, EntryFor;
    if nodes == [] {
      assert Generated([], nodes, exec, existing, used, next) by { NothingGenerated(exec, existing, used, next); }
    } else {
      var port := FindPort(next, used, reusable, available);
      if port.Some? {
        var name, used' := Unique(existing, labels[0]), used + {port.value};
        GenerateNew(nodes[1..], labels[1..], exec, existing + [name], port.value + 1, used', reusable, available);
        NewEntrySound(nodes[0], existing, labels[0], exec, port.value);
        var e := EntryFor(nodes[0], name, exec, port.value);
        var rest :=
          Generate(nodes[1..], labels[1..], exec, existing + [name], port.value + 1, used', reusable, available);
        if rest.Some? {
          GeneratedCons(e, rest.value, nodes[0], nodes[1..], exec, existing, used, next);
          assert [nodes[0]] + nodes[1..] == nodes;
        }
      }
    }
  }

  lemma NothingGenerated(exec: string, existing: seq<string>, used: set<int>, next: int)
    ensures Generated([], [], exec, existing, used, next)
  {
  }

  /** Each name comes from its label and is free of `taken` and of the names before it. */
  ghost predicate NamedInTurn(names: seq<string>, labels: seq<string>, taken: seq<string>) {
    |names| == |labels| && forall i | 0 <= i < |names| :: NamedAfter(names[i], labels[i], taken + names[..i])
  }

  lemma NamedCons(name: string, names: seq<string>, labels: seq<string>, taken: seq<string>)
    requires labels != [] && NamedAfter(name, labels[0], taken) && NamedInTurn(names, labels[1..], taken + [name])
    ensures NamedInTurn([name] + names, labels, taken)
  {
    hide NamedAfter;
    var all := [name] + names;
    assert taken + all[..0] == taken;
    forall i | 1 <= i < |all| ensures NamedAfter(all[i], labels[i], taken + all[..i]) {
      assert NamedAfter(names[i - 1], labels[1..][i - 1], taken + [name] + names[..i - 1]);
      assert taken + [name] + names[..i - 1] == taken + all[..i];
    }
  }

  /** Whatever the options, the names of the node loop come from its labels, in turn. */
  lemma {:induction false} GenerateNames(nodes: seq<Node>, labels: seq<string>, exec: string, existing: seq<string>,
                                         next: int, used: set<int>, reusable: set<int>, available: int -> bool)
    requires |labels| == |nodes|
    ensures var r := Generate(nodes, labels, exec, existing, next, used, reusable, available);
      r.Some? ==> NamedInTurn(EntryNames(r.value), labels, existing)
    decreases |nodes|
  {
    hide Unique, UsablePorts, NamedInTurn, EntryFor;
    if nodes == [] {
      NamedNone(existing);
    } else {
      var port := FindPort(next, used, reusable, available);
      if port.Some? {
        var name, used' := Unique(existing, labels[0]), used + {port.value};
        GenerateNames(nodes[1..], labels[1..], exec, existing + [name], port.value + 1, used', reusable, available);
        var rest :=
          Generate(nodes[1..], labels[1..], exec, existing + [name], port.value + 1, used', reusable, available);
        if rest.Some? {
          UniqueIsFree(existing, labels[0]);
          EntryName(nodes[0], name, exec, port.value, rest.value);
          NamedCons(name, EntryNames(rest.value), labels, existing);
        }
      }
    }
  }

  lemma NamedNone(taken: seq<string>)
    ensures NamedInTurn(EntryNames([]), [], taken)
  {
  }

  lemma EntryName(node: Node, name: string, exec: string, port: nat, es: seq<Entry>)
    requires Sanitize(name) == name != []
    ensures EntryNames([EntryFor(node, name, exec, port)] + es) == [name] + EntryNames(es)
  {
  }

  /** Whatever the options, the ports of the node loop are those of the allocator. */
  lemma {:induction false} GenerateAllocates(nodes: seq<Node>, labels: seq<string>, exec: string, existing: seq<string>,
                                             next: int, used: set<int>, reusable: set<int>, available: int -> bool)
    requires |labels| == |nodes|
    ensures var r := Generate(nodes, labels, exec, existing, next, used, reusable, available);
      Allocate(|nodes|, next, used, reusable, available) == if r.Some? then Some(EntryPorts(r.value)) else None
    decreases |nodes|
  {
    hide Unique, UsablePorts, EntryFor;
    if nodes == [] {
      assert EntryPorts([]) == [];
    } else {
      var port := FindPort(next, used, reusable, available);
      if port.Some? {
        var name, used' := Unique(existing, labels[0]), used + {port.value};
        GenerateAllocates(nodes[1..], labels[1..], exec, existing + [name], port.value + 1, used', reusable, available);
        var rest :=
          Generate(nodes[1..], labels[1..], exec, existing + [name], port.value + 1, used', reusable, available);
        if rest.Some? {
          EntryPort(nodes[0], name, exec, port.value, rest.value);
        }
      }
    }
  }

  lemma EntryPort(node: Node, name: string, exec: string, port: nat, es: seq<Entry>)
    ensures EntryPorts([EntryFor(node, name, exec, port)] + es) == [port as int] + EntryPorts(es)
  {
  }
}

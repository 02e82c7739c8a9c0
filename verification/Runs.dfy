/** Whole runs of edits, and what the managed process finds afterwards
    (verifyManagedRunTarget of cmd/xcore-bridge/bridge_commands.go). */
module Runs {
  import opened Text
  import opened Names
  import opened Ports
  import opened PortScan
  import opened Lines
  import opened RoundTrip
  import opened Sections
  import opened Blocks
  import opened Profile
  import opened Edits
  import opened Managed
  import opened Refinement
  import Editor

  // ---------- runs ----------

  datatype Op = InstallOp(opts: Options) | AddOp(opts: Options) | RemoveOp(names: seq<string>)
              | RenameOp(from: string, to: string) | ReplaceOp(name: string, node: Node)

  function Apply(text: string, profile: string, op: Op): Outcome {
    match op
    case InstallOp(opts) => Install(text, profile, opts, true)
    case AddOp(opts) => Install(text, profile, opts, false)
    case RemoveOp(names) => Remove(text, names)
    case RenameOp(from, to) => Rename(text, from, to)
    case ReplaceOp(name, node) => Replace(text, profile, name, node)
  }

  /** An edit that fails leaves the file alone. */
  function After(text: string, profile: string, op: Op): string {
    match Apply(text, profile, op)
    case Done(text', _, _) => text'
    case Failed(_) => text
  }

  function Run(text: string, profile: string, ops: seq<Op>): string
    decreases |ops|
  {
    if ops == [] then text else Run(After(text, profile, ops[0]), profile, ops[1..])
  }

  predicate Usual(op: Op) {
    match op
    case InstallOp(opts) => UsualOptions(opts)
    case AddOp(opts) => UsualOptions(opts)
    case ReplaceOp(_, node) => node.Parsed()
    case _ => true
  }

  lemma StepManages(text: string, profile: string, es: seq<Entry>, op: Op) returns (next: seq<Entry>)
    requires Manages(text, profile, es) && Usual(op)
    ensures Manages(After(text, profile, op), profile, next)
    ensures After(text, profile, op) == text || FileFramed(text, After(text, profile, op))
  {
    next := es;
    if Apply(text, profile, op).Done? {
      match op
      case InstallOp(opts) =>
        var news := InstallRefines(text, profile, es, opts, true);
        next := [] + news;
      case AddOp(opts) =>
        var news := InstallRefines(text, profile, es, opts, false);
        next := es + news;
      case RemoveOp(names) =>
        RemoveRefines(text, profile, es, names);
        next := Keep(es, RemoveNames(names));
      case RenameOp(from, to) =>
        RenameRefines(text, profile, es, from, to);
        var unmanaged := NamesOf(Strip(OpenOrInsert(LinesOf(text)).body));
        next := Renamed(es, Sanitize(from),
                        Unique(unmanaged + EntryNames(Keep(es, {Sanitize(from)})), Sanitize(to)));
      case ReplaceOp(name, node) =>
        ReplaceRefines(text, profile, es, name, node);
        next := Replaced(es, Sanitize(name), node);
    }
    hide Manages, FileFramed, Install, Remove, Rename, Replace;
  }

  /** Over every run of edits the block stays single and closed, every managed line is a
      generated line, and managed names and ports stay distinct from each other and from all
      others in the section. */
  lemma {:induction false} RunManages(text: string, profile: string, es: seq<Entry>, ops: seq<Op>)
    returns (last: seq<Entry>)
    requires Manages(text, profile, es) && forall i | 0 <= i < |ops| :: Usual(ops[i])
    ensures Manages(Run(text, profile, ops), profile, last)
    decreases |ops|
  {
    hide Manages, FileFramed, Usual, After;
    if ops == [] {
      last := es;
    } else {
      var next := StepManages(text, profile, es, ops[0]);
      last := RunManages(After(text, profile, ops[0]), profile, next, ops[1..]);
    }
  }

  /** From a profile without markers, in the words of the section itself. */
  lemma RunFromFresh(text: string, profile: string, ops: seq<Op>) returns (es: seq<Entry>)
    requires GoodPath(profile) && forall i | 0 <= i < |ops| :: Usual(ops[i])
    requires Open(LinesOf(text)).Some? ==> NoBegin(Open(LinesOf(text)).value.body)
    ensures Distinct(es) && forall e | e in es :: Parse(LineOf(profile, e)) == Some(PolicyOf(e))
    ensures match Open(LinesOf(Run(text, profile, ops)))
      case None => es == []
      case Some(p) =>
        && OneBlock(p.body) && BlockOf(p.body) == (if es == [] then None else Some(LinesFor(profile, es)))
        && Apart(es, NamesOf(Strip(p.body)), PortsOf(Strip(p.body)))
    ensures es != [] ==> Read(Run(text, profile, ops)) == Policies(PoliciesOf(es))
  {
    FreshProfile(text, profile);
    es := RunManages(text, profile, [], ops);
    ReadManaged(Run(text, profile, ops), profile, es);
    forall e | e in es ensures Parse(LineOf(profile, e)) == Some(PolicyOf(e)) {
      assert Sound(e);
      SoundParses(profile, e);
    }
    hide Sound, Run, OneBlock, NamesOf, PortsOf, Parse, LineOf;
  }

  // ---------- the first install ----------

  /** Options for one node, with all defaults and every port free. */
  function OneNode(node: Node): Options {
    Options([node], [], [], 0, _ => true)
  }

  lemma EmptyFile()
    ensures LinesOf("") == [""] && Open([""]).None?
    ensures var p := Inserted([""]); p.body == [] && Strip(p.body) == [] && PortsOf(p.body) == {}
  {
    EmptyLine();
  }

  lemma FirstPort(used: set<int>, reusable: set<int>)
    requires used == {}
    ensures var ps := UsablePorts(DEFAULT_BASE, used, reusable, _ => true); ps != [] && ps[0] == DEFAULT_BASE
  {
  }

  lemma FirstDone(node: Node, profile: string)
    requires node.valid
    ensures var r := Install("", profile, OneNode(node), true); r.Done? && r.ports == [DEFAULT_BASE]
  {
    var opts := OneNode(node);
    EmptyFile();
    FirstPort({}, {});
    var p := OpenOrInsert(LinesOf(""));
    assert p == Inserted([""]);
    hide OpenOrInsert, LinesOf, Inserted, Strip, PortsOf, Install, UsablePorts;
    InstallPorts("", profile, opts, true);
    assert PortsOf([]) == {} by { NoPorts(); }
    assert PortsOf(p.body) - ({} + PortsOf([])) == {} && {} + PortsOf([]) == {};
  }

  lemma NoPorts()
    ensures PortsOf([]) == {}
  {
  }

  /** On an empty file, installing one valid node succeeds: it gets the default port and its display
      name, and the profile then manages exactly its entry.  So the invariant of runs holds of real
      profiles. */
  lemma FirstInstall(node: Node, profile: string) returns (e: Entry)
    requires node.valid && node.Parsed() && GoodPath(profile)
    ensures var r := Install("", profile, OneNode(node), true);
      && r.Done? && r.ports == [DEFAULT_BASE] && r.names == [e.name]
      && e.link == node.raw && Manages(r.text, profile, [e])
      && e.name == if Sanitize(node.display) == [] then "xcore-bridge" else Sanitize(node.display)
  {
    FreshEmpty(profile);
    FirstDone(node, profile);
    OneNodeUsual(node);
    FirstName(node, profile);
    hide *;
    var news := InstallRefines("", profile, [], OneNode(node), true);
    assert [] + news == news;
    e := OneEntry(news, node);
  }

  lemma FreshEmpty(profile: string)
    requires GoodPath(profile)
    ensures Manages("", profile, [])
  {
    EmptyFile();
    hide Open, LinesOf;
    FreshProfile("", profile);
  }

  lemma FirstName(node: Node, profile: string)
    requires Install("", profile, OneNode(node), true).Done?
    ensures Install("", profile, OneNode(node), true).names ==
      [if Sanitize(node.display) == [] then "xcore-bridge" else Sanitize(node.display)]
  {
    EmptyFile();
    var p, names := OpenOrInsert(LinesOf("")), Install("", profile, OneNode(node), true).names;
    assert p == Inserted([""]);
    hide OpenOrInsert, LinesOf, Inserted, Strip, Install, Sanitize;
    InstallNames("", profile, OneNode(node), true);
    assert NamesOf(Strip(p.body)) + NamesOf(Kept(p, true)) + names[..0] == [];
    assert NamedAfter(names[0], node.display, []);
  }

  lemma OneNodeUsual(node: Node)
    requires node.Parsed()
    ensures UsualOptions(OneNode(node)) && OneNode(node).nodes == [node]
  {
  }

  lemma OneEntry(news: seq<Entry>, node: Node) returns (e: Entry)
    requires |news| == 1 && MadeFor(news[0], node, OneNode(node).exec)
    ensures news == [e] && e.link == node.raw && EntryNames(news) == [e.name]
  {
    e := news[0];
  }

  // ---------- the frame of a run ----------

  /** The non-blank lines outside the managed block. */
  function Outside(text: string): seq<string> {
    match Open(LinesOf(text))
    case None => Solid(LinesOf(text))
    case Some(p) => AroundBlock(p)
  }

  function AroundBlock(p: Parts): seq<string> {
    Solid(p.pre) + Solid([p.header]) + Solid(Strip(p.body)) + Solid(p.post)
  }

  lemma FramedAround(p: Parts, q: Parts)
    requires Framed(p, q)
    ensures AroundBlock(q) == AroundBlock(p)
  {
    SolidSnocBlank(p.post);
    hide Solid, Strip;
  }

  lemma SolidSnocBlank(lines: seq<string>)
    ensures Solid(lines + [""]) == Solid(lines)
  {
    EmptyLine();
    SolidAppend(lines, [""]);
    SolidBlank([""]);
  }

  lemma OutsideKept(text: string, text': string)
    requires Open(LinesOf(text)).Some? && FileFramed(text, text')
    ensures Open(LinesOf(text')).Some? && Outside(text') == Outside(text)
  {
    hide AroundBlock, Framed, Open, LinesOf;
    FramedAround(Open(LinesOf(text)).value, Open(LinesOf(text')).value);
  }

  lemma {:induction false} OpenRunFrames(text: string, profile: string, es: seq<Entry>, ops: seq<Op>)
    requires Manages(text, profile, es) && forall i | 0 <= i < |ops| :: Usual(ops[i])
    requires Open(LinesOf(text)).Some?
    ensures Open(LinesOf(Run(text, profile, ops))).Some? && Outside(Run(text, profile, ops)) == Outside(text)
    decreases |ops|
  {
    hide Manages, Usual, FileFramed, Outside, After, Open, LinesOf;
    if ops != [] {
      var next := StepManages(text, profile, es, ops[0]);
      var text' := After(text, profile, ops[0]);
      if text' != text {
        OutsideKept(text, text');
      }
      OpenRunFrames(text', profile, next, ops[1..]);
    }
  }

  lemma InsertedPre(lines: seq<string>)
    ensures Solid(Inserted(lines).pre) == Solid(lines[..InsertPoint(lines)])
    ensures Inserted(lines).post == lines[InsertPoint(lines)..] && Inserted(lines).header == PROXY_HEADER
  {
    hide Solid, Blank, InsertPoint;
    var at := InsertPoint(lines);
    SolidSnocBlank(lines[..at]);
    assert lines[..at] + [] == lines[..at];
  }

  lemma InsertedBody(lines: seq<string>)
    requires Open(lines).None?
    ensures Solid(Strip(Inserted(lines).body)) == []
  {
    hide Solid, Strip, Inserted, Open;
    InsertedIsValid(lines);
    BlankBody(Inserted(lines).body);
    UnmarkedFacts(Inserted(lines).body);
    SolidBlank(Inserted(lines).body);
  }

  lemma InsertedOutside(lines: seq<string>)
    requires Open(lines).None?
    ensures var p, at := Inserted(lines), InsertPoint(lines);
      && Solid(p.pre) == Solid(lines[..at]) && Solid(Strip(p.body)) == [] && Solid([p.header]) == [PROXY_HEADER]
      && Solid(p.post) == Solid(lines[at..]) && Solid(lines) == Solid(lines[..at]) + Solid(lines[at..])
  {
    hide Solid, Strip, InsertPoint, Inserted, Open;
    var at := InsertPoint(lines);
    assert lines == lines[..at] + lines[at..];
    SolidAppend(lines[..at], lines[at..]);
    InsertedPre(lines);
    InsertedBody(lines);
    SolidHeader();
  }

  lemma SolidHeader()
    ensures Solid([PROXY_HEADER]) == [PROXY_HEADER]
  {
    ProxyHeader();
    HeaderNotBlank(PROXY_HEADER);
  }

  /** The non-blank lines of a file above and below the place for a missing section. */
  function Above(text: string): seq<string> {
    Solid(LinesOf(text)[..InsertPoint(LinesOf(text))])
  }

  function Below(text: string): seq<string> {
    Solid(LinesOf(text)[InsertPoint(LinesOf(text))..])
  }

  /** A first edit that has to insert the section adds its header to the other lines. */
  lemma InsertFrames(text: string, text': string)
    requires Open(LinesOf(text)).None? && FileFramed(text, text')
    ensures Open(LinesOf(text')).Some?
    ensures Outside(text) == Above(text) + Below(text) && Outside(text') == Above(text) + [PROXY_HEADER] + Below(text)
  {
    hide Solid, Strip, InsertPoint, Inserted, Framed, Open, LinesOf;
    var lines := LinesOf(text);
    InsertedOutside(lines);
    assert Above(text) + [PROXY_HEADER] + [] + Below(text) == Above(text) + [PROXY_HEADER] + Below(text);
    FramedAround(Inserted(lines), Open(LinesOf(text')).value);
  }

  /** What a run may do to the lines outside the block: nothing, or, to a file without the section,
      add its header at the place for it. */
  predicate RunFramed(text: string, text': string) {
    if Open(LinesOf(text)).Some? then Open(LinesOf(text')).Some? && Outside(text') == Outside(text)
    else
      && Outside(text) == Above(text) + Below(text)
      && (text' == text
          || (Open(LinesOf(text')).Some? && Outside(text') == Above(text) + [PROXY_HEADER] + Below(text)))
  }

  lemma SplitsOutside(text: string)
    requires Open(LinesOf(text)).None?
    ensures Outside(text) == Above(text) + Below(text)
  {
    InsertedOutside(LinesOf(text));
    hide Solid, InsertPoint;
  }

  /** No run of edits loses, adds, changes or reorders a non-blank line outside the block; a file
      without the section gets its header once, and no other line. */
  lemma {:induction false} RunFrames(text: string, profile: string, es: seq<Entry>, ops: seq<Op>)
    requires Manages(text, profile, es) && forall i | 0 <= i < |ops| :: Usual(ops[i])
    ensures RunFramed(text, Run(text, profile, ops))
    decreases |ops|
  {
    hide Manages, Usual, FileFramed, Outside, After, Open, LinesOf, Above, Below;
    if Open(LinesOf(text)).Some? {
      OpenRunFrames(text, profile, es, ops);
    } else if ops == [] {
      SplitsOutside(text);
    } else {
      var next := StepManages(text, profile, es, ops[0]);
      var text' := After(text, profile, ops[0]);
      if text' != text {
        InsertFrames(text, text');
        OpenRunFrames(text', profile, next, ops[1..]);
      } else {
        RunFrames(text, profile, next, ops[1..]);
      }
    }
  }

  // ---------- Remove undoes Add ----------

  /** Without a block, the lines outside it are all lines. */
  lemma OutsideIsAll(text: string)
    requires Open(LinesOf(text)).Some? && NoBegin(Open(LinesOf(text)).value.body)
    ensures Outside(text) == Solid(LinesOf(text))
  {
    var p := Open(LinesOf(text)).value;
    OpenIsValid(LinesOf(text));
    UnmarkedFacts(p.body);
    SolidAppend(p.pre, [p.header]);
    SolidAppend(p.pre + [p.header], p.body);
    SolidAppend(p.pre + [p.header] + p.body, p.post);
    hide Solid, Strip, NoBegin;
  }

  lemma {:induction false} DropAll(es: seq<Entry>, names: set<string>)
    requires forall e | e in es :: e.name in names
    ensures Keep(es, names) == [] && Dropped(es, names) == es
  {
    if es != [] {
      assert es[0] in es;
      DropAll(es[1..], names);
    }
  }

  /** On a profile with the section and no block, removing what was just added restores every
      non-blank line of the file. */
  lemma RemoveUndoesAdd(text: string, profile: string, opts: Options)
    requires GoodPath(profile) && UsualOptions(opts)
    requires Open(LinesOf(text)).Some? && NoBegin(Open(LinesOf(text)).value.body)
    requires Install(text, profile, opts, false).Done?
    ensures var added := Install(text, profile, opts, false);
      var removed := Remove(added.text, added.names);
      && removed.Done? && removed.names == added.names
      && Solid(LinesOf(removed.text)) == Solid(LinesOf(text))
  {
    var added := Install(text, profile, opts, false);
    FreshProfile(text, profile);
    var news := InstallRefines(text, profile, [], opts, false);
    assert [] + news == news && news != [];
    RemoveAll(added.text, profile, news);
    OutsideKept(text, added.text);
    OutsideKept(added.text, Remove(added.text, added.names).text);
    OutsideIsAll(text);
    OutsideIsAll(Remove(added.text, added.names).text);
  }

  /** Removing all managed names succeeds and leaves no block. */
  lemma RemoveAll(text: string, profile: string, es: seq<Entry>)
    requires Manages(text, profile, es) && es != []
    ensures var r := Remove(text, EntryNames(es));
      && r.Done? && r.names == EntryNames(es) && FileFramed(text, r.text) && Manages(r.text, profile, [])
      && Open(LinesOf(r.text)).Some? && NoBegin(Open(LinesOf(r.text)).value.body)
  {
    var names := EntryNames(es);
    RemoveAllSucceeds(text, profile, es);
    AllNames(es);
    DropAll(es, RemoveNames(names));
    RemoveRefines(text, profile, es, names);
    hide Manages, Remove, RemoveNames;
    SectionUnmarked(Remove(text, names).text, profile);
  }

  lemma SectionUnmarked(text: string, profile: string)
    requires Manages(text, profile, [])
    ensures Open(LinesOf(text)).Some? ==> NoBegin(Open(LinesOf(text)).value.body)
  {
    if Open(LinesOf(text)).Some? {
      StrippedUnmarked(Open(LinesOf(text)).value.body);
    }
  }

  lemma RemoveAllSucceeds(text: string, profile: string, es: seq<Entry>)
    requires Manages(text, profile, es) && es != []
    ensures Remove(text, EntryNames(es)).Done?
  {
    var names := EntryNames(es);
    AllNames(es);
    DropAll(es, RemoveNames(names));
    RemoveLines(profile, es, RemoveNames(names));
    assert names[0] == es[0].name;
  }

  lemma AllNames(es: seq<Entry>)
    requires AllSound(es)
    ensures forall e | e in es :: e.name in RemoveNames(EntryNames(es))
  {
    forall e | e in es ensures e.name in RemoveNames(EntryNames(es)) {
      var i :| 0 <= i < |es| && es[i] == e;
      assert Sound(es[i]) && EntryNames(es)[i] == e.name;
      CleanIsFixed(e.name);
      assert Sanitize(e.name) == e.name && e.name in EntryNames(es);
    }
  }

  // ---------- the managed process finds its policy ----------

  /** Some policy has this link, host and port. */
  predicate Matches(p: Policy, link: string, host: string, port: int) {
    p.link == Trim(link) && (if p.runHost == [] then LOCAL_HOST else p.runHost) == host && p.runPort == port
  }

  /** verifyManagedRunTarget as a predicate; the error is its negation. */
  predicate Verified(text: string, link: string, host: string, port: int) {
    Read(text).Policies?
    && exists p :: p in Read(text).policies && Matches(p, link, if host == [] then LOCAL_HOST else host, port)
  }

  /** On a managed profile it accepts exactly the links and ports of the entries, on the default host. */
  lemma VerifiedExactly(text: string, profile: string, es: seq<Entry>, link: string, host: string, port: int)
    requires Manages(text, profile, es)
    ensures Verified(text, link, host, port) <==>
      && (host == "" || host == "127.0.0.1")
      && exists i :: 0 <= i < |es| && es[i].link == Trim(link) && es[i].port == port
  {
    ReadManaged(text, profile, es);
    hide Manages, Read, Matches, PoliciesOf;
    var host' := if host == [] then LOCAL_HOST else host;
    forall i | 0 <= i < |es|
      ensures PoliciesOf(es)[i] in PoliciesOf(es)
      ensures Matches(PoliciesOf(es)[i], link, host', port)
         <==> (host == "" || host == "127.0.0.1") && es[i].link == Trim(link) && es[i].port == port
    {
      EntryMatches(es, i, link, host, port);
    }
    assert forall p | p in PoliciesOf(es) :: exists i :: 0 <= i < |es| && PoliciesOf(es)[i] == p by { AllListed(es); }
  }

  lemma EntryMatches(es: seq<Entry>, i: nat, link: string, host: string, port: int)
    requires i < |es|
    ensures Matches(PoliciesOf(es)[i], link, if host == [] then LOCAL_HOST else host, port)
       <==> (host == "" || host == "127.0.0.1") && es[i].link == Trim(link) && es[i].port == port
  {
  }

  lemma AllListed(es: seq<Entry>)
    ensures |PoliciesOf(es)| == |es|
    ensures forall p | p in PoliciesOf(es) :: exists i :: 0 <= i < |es| && PoliciesOf(es)[i] == p
  {
  }

  /** verifyManagedRunTarget: a search over the policies. */
  method VerifyManagedRunTarget(text: string, link: string, host: string, port: int) returns (ok: bool)
    ensures ok <==> Verified(text, link, host, port)
  {
    hide Read, Matches;
    var reading := Editor.ManagedPolicies(text);
    if reading.Unreadable? {
      return false;
    }
    var h := if host == [] then LOCAL_HOST else host;
    for i := 0 to |reading.policies|
      invariant forall p | p in reading.policies[..i] :: !Matches(p, link, h, port)
    {
      if Matches(reading.policies[i], link, h, port) {
        assert reading.policies[i] in reading.policies;
        return true;
      }
      assert reading.policies[..i + 1] == reading.policies[..i] + [reading.policies[i]];
    }
    assert reading.policies[..|reading.policies|] == reading.policies;
    return false;
  }

  /** After a successful Add, every new link is accepted on the reported port, and so is every
      target that was accepted before. */
  lemma AddThenVerify(text: string, profile: string, es: seq<Entry>, opts: Options)
    requires Manages(text, profile, es) && UsualOptions(opts) && Install(text, profile, opts, false).Done?
    ensures var r := Install(text, profile, opts, false);
      && |r.ports| == |opts.nodes|
      && (forall i | 0 <= i < |opts.nodes| :: Verified(r.text, opts.nodes[i].raw, LOCAL_HOST, r.ports[i]))
      && forall link, host, port :: Verified(text, link, host, port) ==> Verified(r.text, link, host, port)
  {
    var r := Install(text, profile, opts, false);
    var news := InstallRefines(text, profile, es, opts, false);
    ReadManaged(text, profile, es);
    ReadManaged(r.text, profile, es + news);
    LinesAppend(profile, es, news);
    hide Install, Manages, Read, FileFramed, Trimmed, Trim, PoliciesOf, Verified, MadeFor;
    forall i | 0 <= i < |opts.nodes| ensures Verified(r.text, opts.nodes[i].raw, LOCAL_HOST, r.ports[i]) {
      assert opts.nodes[i].Parsed() && MadeFor(news[i], opts.nodes[i], opts.exec);
      NewTarget(r.text, es, news, i, opts.nodes[i], opts.exec);
    }
    forall link, host, port | Verified(text, link, host, port) ensures Verified(r.text, link, host, port) {
      OldTarget(text, r.text, es, news, link, host, port);
    }
  }

  lemma NewTarget(text: string, es: seq<Entry>, news: seq<Entry>, i: nat, node: Node, exec: string)
    requires i < |news| && Read(text) == Policies(PoliciesOf(es) + PoliciesOf(news))
    requires MadeFor(news[i], node, exec) && node.Parsed()
    ensures Verified(text, node.raw, LOCAL_HOST, news[i].port)
  {
    hide Read;
    TrimOfTrimmed(node.raw);
    var p := PoliciesOf(news)[i];
    assert p in PoliciesOf(es) + PoliciesOf(news) && Matches(p, node.raw, LOCAL_HOST, news[i].port);
  }

  lemma OldTarget(text: string, text': string, es: seq<Entry>, news: seq<Entry>, link: string, host: string, port: int)
    requires es != [] ==> Read(text) == Policies(PoliciesOf(es))
    requires es == [] ==> Read(text).Unreadable?
    requires Read(text') == Policies(PoliciesOf(es) + PoliciesOf(news)) && Verified(text, link, host, port)
    ensures Verified(text', link, host, port)
  {
    hide Read, PoliciesOf, Matches;
    var h := if host == [] then LOCAL_HOST else host;
    var p :| p in Read(text).policies && Matches(p, link, h, port);
    assert p in PoliciesOf(es) + PoliciesOf(news);
  }
}

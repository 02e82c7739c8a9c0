/** The edits as the program runs them: index loops, growing lists and a shared line buffer.
    Each method computes what the function of the same name in Edits says. */
module Editor {
  import opened Text
  import opened Names
  import opened Ports
  import opened PortScan
  import opened Lines
  import opened Renaming
  import opened Sections
  import opened Slices
  import opened Blocks
  import opened Profile
  import opened Edits
  import Fields

  // ---------- opening and closing a profile ----------

  /** The lines of the file are those parts, and the section lies between start and end. */
  ghost predicate At(lines: seq<string>, start: int, end: int, p: Parts) {
    && ValidParts(p) && lines == Flatten(p)
    && start == |p.pre| && end == |p.pre| + 1 + |p.body| <= |lines| && lines[start + 1..end] == p.body
  }

  /** Split the text and find [Proxy]; start is -1 when it is missing. */
  method OpenProfile(text: string) returns (lines: seq<string>, start: int, end: int, ghost p: Parts)
    ensures lines == LinesOf(text) && (start == -1 <==> Open(lines).None?)
    ensures start != -1 ==> Open(lines) == Some(p) && At(lines, start, end, p)
  {
    lines := Split(text, '\n');
    start, end := SectionBounds(lines, PROXY);
    p := Parts([], [], [], []);
    OpenIsValid(lines);
    if start != -1 {
      p := Open(lines).value;
      FlattenAt(p);
      BoundsOfParts(p);
    }
  }

  /** insertProxySection: choose the place, build the header block and splice it in. */
  method InsertProxySection(lines: seq<string>) returns (out: seq<string>, start: int, end: int)
    requires Open(lines).None?
    ensures out == Flatten(Inserted(lines)) && At(out, start, end, Inserted(lines))
  {
    hide Blank, Bounds, Flatten, Inserted, InsertPoint, ValidParts, At, Open;
    var insertAt := InsertAt(lines);
    var block := HeaderBlock(lines, insertAt);
    var buffer := Make(lines, |lines|);
    var blockSlice := Make(block, |block|);
    var next := Splice(buffer, insertAt, blockSlice);
    out := next.buf[..next.len];
    InsertedIsSplice(lines, block);
    start, end := SectionBounds(out, PROXY);
    InsertedAt(lines);
  }

  /** The header, with a blank line on each side where the text around it is not blank. */
  method HeaderBlock(lines: seq<string>, at: nat) returns (block: seq<string>)
    requires at <= |lines|
    ensures block == (if at > 0 && !Blank(lines[at - 1]) then [""] else []) + [PROXY_HEADER]
                     + (if at < |lines| && !Blank(lines[at]) then [""] else [])
  {
    hide Blank;
    block := [PROXY_HEADER];
    if at > 0 && !Blank(lines[at - 1]) {
      block := [""] + block;
    }
    if at < |lines| && !Blank(lines[at]) {
      block := block + [""];
    }
  }

  lemma InsertedAt(lines: seq<string>)
    requires Open(lines).None?
    ensures var (start, end) := Bounds(Flatten(Inserted(lines)), PROXY);
      At(Flatten(Inserted(lines)), start, end, Inserted(lines))
  {
    hide Inserted;
    InsertedIsValid(lines);
    FlattenAt(Inserted(lines));
    BoundsOfParts(Inserted(lines));
  }

  /** Where insertProxySection puts the section. */
  method InsertAt(lines: seq<string>) returns (at: nat)
    ensures at == InsertPoint(lines)
  {
    var generalStart, generalEnd := SectionBounds(lines, GENERAL);
    if generalStart != -1 {
      return generalEnd;
    }
    at := FirstOf(lines, BEFORE);
  }

  lemma SpliceParts(x: seq<string>, g: seq<string>, h: string, b: seq<string>, y: seq<string>)
    ensures x + (g + [h] + b) + y == x + g + [h] + b + y
  {
  }

  lemma InsertedIsSplice(lines: seq<string>, block: seq<string>)
    requires var at := InsertPoint(lines);
      block == (if at > 0 && !Blank(lines[at - 1]) then [""] else []) + [PROXY_HEADER]
               + (if at < |lines| && !Blank(lines[at]) then [""] else [])
    ensures lines[..InsertPoint(lines)] + block + lines[InsertPoint(lines)..] == Flatten(Inserted(lines))
  {
    hide Blank, InsertPoint, IsHeader;
    var at := InsertPoint(lines);
    InsertPointAtHeader(lines);
    if at < |lines| {
      HeaderNotBlank(lines[at]);
    }
    SpliceParts(lines[..at], if at > 0 && !Blank(lines[at - 1]) then [""] else [], PROXY_HEADER,
                if at < |lines| then [""] else [], lines[at..]);
  }

  /** The second loop of insertProxySection. */
  method FirstOf(lines: seq<string>, wanted: set<string>) returns (k: nat)
    ensures k == FindSection(lines, wanted, 0)
  {
    hide SectionName;
    for i := 0 to |lines|
      invariant FindSection(lines, wanted, 0) == FindSection(lines, wanted, i)
    {
      if SectionName(lines[i]) in wanted {
        return i;
      }
    }
    return |lines|;
  }

  /** Remove the block, and say where the section is now. */
  method CutBlock(lines: seq<string>, start: int, end: int, ghost p: Parts)
    returns (cleaned: Slice, cleanStart: int, cleanEnd: int)
    requires At(lines, start, end, p)
    ensures Ok(cleaned) && fresh(cleaned.buf) && At(View(cleaned), cleanStart, cleanEnd, Cleaned(p))
  {
    cleaned, cleanStart, cleanEnd := RemoveManagedProxyBlock(lines, start, end);
    FlattenAt(p);
    CleanedValid(p);
    BoundsOfParts(Cleaned(p));
    FlattenAt(Cleaned(p));
    assert lines[..start + 1] == p.pre + [p.header];
  }

  // ---------- reading ----------

  /** The first loop of ManagedPolicies, validateCurrentManagedProxyLines, and the second one. */
  method ParseLines(lines: seq<string>) returns (r: Option<seq<Policy>>)
    ensures r == ParseAll(lines)
  {
    hide Parse;
    var policies := [];
    assert lines[..0] == [];
    for i := 0 to |lines|
      invariant ParseAll(lines[..i]) == Some(policies)
    {
      ParseSnoc(lines, i);
      var policy := ManagedPolicy(lines[i]);
      if policy.None? {
        ParsePrefix(lines, i + 1);
        return None;
      }
      policies := policies + [policy.value];
    }
    assert lines[..|lines|] == lines;
    return Some(policies);
  }

  lemma {:induction false} ParseAppend(a: seq<string>, b: seq<string>)
    ensures ParseAll(a + b) ==
      if ParseAll(a).Some? && ParseAll(b).Some? then Some(ParseAll(a).value + ParseAll(b).value) else None
  {
    hide Parse;
    if a == [] {
      assert a + b == b;
      assert ParseAll(b).Some? ==> [] + ParseAll(b).value == ParseAll(b).value;
    } else {
      assert (a + b)[1..] == a[1..] + b && (a + b)[0] == a[0];
      ParseAppend(a[1..], b);
      if Parse(a[0]).Some? && ParseAll(a[1..]).Some? && ParseAll(b).Some? {
        var x, xs, ys := [Parse(a[0]).value], ParseAll(a[1..]).value, ParseAll(b).value;
        assert x + (xs + ys) == x + xs + ys;
      }
    }
  }

  lemma ParseSnoc(lines: seq<string>, i: nat)
    requires i < |lines| && ParseAll(lines[..i]).Some?
    ensures ParseAll(lines[..i + 1]) ==
      if Parse(lines[i]).Some? then Some(ParseAll(lines[..i]).value + [Parse(lines[i]).value]) else None
  {
    hide Parse;
    var last := [lines[i]];
    assert lines[..i + 1] == lines[..i] + last && last[1..] == [];
    ParseAppend(lines[..i], last);
    assert ParseAll(last) == if Parse(lines[i]).Some? then Some([Parse(lines[i]).value]) else None by {
      assert Parse(lines[i]).Some? ==> [Parse(lines[i]).value] + [] == [Parse(lines[i]).value];
    }
  }

  lemma ParsePrefix(lines: seq<string>, i: nat)
    requires i <= |lines| && ParseAll(lines[..i]).None?
    ensures ParseAll(lines).None?
  {
    assert lines == lines[..i] + lines[i..];
    ParseAppend(lines[..i], lines[i..]);
  }

  /** ManagedPolicies */
  method ManagedPolicies(text: string) returns (r: Reading)
    ensures r == Read(text)
  {
    var lines, start, end, p := OpenProfile(text);
    if start == -1 {
      return Unreadable(NoProxySection);
    }
    var managed, found := ManagedProxyBlock(lines, start, end);
    if !found {
      return Unreadable(NoManagedBlock);
    }
    var policies := ParseLines(managed);
    if policies.None? {
      return Unreadable(NotRunPolicy);
    }
    if policies.value == [] {
      return Unreadable(NoPolicies);
    }
    return Policies(policies.value);
  }

  // ---------- Install and Add ----------

  /** The validation loop of install over its nodes. */
  method AllValid(nodes: seq<Node>) returns (ok: bool)
    ensures ok <==> forall i | 0 <= i < |nodes| :: nodes[i].valid
  {
    for i := 0 to |nodes|
      invariant forall j | 0 <= j < i :: nodes[j].valid
    {
      if !nodes[i].valid {
        return false;
      }
    }
    return true;
  }

  /** What the node loop still has to make, on top of what it has. */
  ghost function Finish(done: seq<Entry>, rest: Option<seq<Entry>>): Option<seq<Entry>> {
    match rest case None => None case Some(es) => Some(done + es)
  }

  /** The node loop of install: existing names, used ports and the next port are updated, and
      lines, names and ports are appended. */
  method GenerateLines(profile: string, opts: Options, labels: seq<string>, existing: seq<string>, base: int,
                       used: set<int>, reusable: set<int>)
    returns (lines: seq<string>, names: seq<string>, ports: seq<int>, ok: bool)
    requires |labels| == |opts.nodes| && forall i | 0 <= i < |opts.nodes| :: opts.nodes[i].valid
    ensures var r := Generate(opts.nodes, labels, opts.exec, existing, base, used, reusable, opts.available);
      && ok == r.Some?
      && (ok ==> lines == LinesFor(profile, r.value) && names == EntryNames(r.value) && ports == EntryPorts(r.value))
  {
    hide Unique, UsablePorts, EntryFor, LineOf, NamedAfter;
    var nodes := opts.nodes;
    var existingNames, usedPorts, nextPort := existing, used, base;
    ghost var all := Generate(nodes, labels, opts.exec, existing, base, used, reusable, opts.available);
    ghost var done: seq<Entry> := [];
    lines, names, ports := [], [], [];
    assert nodes[0..] == nodes && labels[0..] == labels;
    assert all.Some? ==> [] + all.value == all.value;
    assert LinesFor(profile, done) == [] && EntryNames(done) == [] && EntryPorts(done) == [];
    hide LinesFor, EntryNames, EntryPorts, Sanitize;
    for i := 0 to |nodes|
      invariant lines == LinesFor(profile, done) && names == EntryNames(done) && ports == EntryPorts(done)
      invariant all == Finish(done, Generate(nodes[i..], labels[i..], opts.exec, existingNames, nextPort, usedPorts,
                                             reusable, opts.available))
    {
      assert nodes[i..][1..] == nodes[i + 1..] && labels[i..][1..] == labels[i + 1..];
      assert nodes[i..][0] == nodes[i] && labels[i..][0] == labels[i];
      var name := UniqueName(existingNames, labels[i]);
      UniqueIsFree(existingNames, labels[i]);
      existingNames := existingNames + [name];
      var port := FindAvailablePort(nextPort, usedPorts, reusable, opts.available);
      if port.None? {
        return lines, names, ports, false;
      }
      usedPorts := usedPorts + {port.value};
      nextPort := port.value + 1;
      var line := ProxyLine(nodes[i], name, opts.exec, profile, port.value);
      if line.LineFailed? {
        return lines, names, ports, false;
      }
      ghost var e := EntryFor(nodes[i], name, opts.exec, port.value);
      EntryFields(nodes[i], name, opts.exec, port.value);
      DoneSnoc(profile, done, e);
      lines := lines + [line.text];
      names := names + [name];
      ports := ports + [port.value];
      FinishSnoc(done, e, Generate(nodes[i + 1..], labels[i + 1..], opts.exec, existingNames, nextPort, usedPorts,
                                   reusable, opts.available));
      done := done + [e];
    }
    assert done + [] == done;
    ok := true;
  }

  lemma EntryFields(node: Node, name: string, exec: string, port: nat)
    requires Sanitize(name) == name != []
    ensures EntryFor(node, name, exec, port).name == name && EntryFor(node, name, exec, port).port == port
  {
  }

  lemma FinishSnoc(done: seq<Entry>, e: Entry, rest: Option<seq<Entry>>)
    ensures Finish(done + [e], rest) == Finish(done, match rest case None => None case Some(es) => Some([e] + es))
  {
    assert rest.Some? ==> done + [e] + rest.value == done + ([e] + rest.value);
  }

  lemma DoneSnoc(profile: string, done: seq<Entry>, e: Entry)
    ensures LinesFor(profile, done + [e]) == LinesFor(profile, done) + [LineOf(profile, e)]
    ensures EntryNames(done + [e]) == EntryNames(done) + [e.name]
    ensures EntryPorts(done + [e]) == EntryPorts(done) + [e.port as int]
  {
  }

  /** The checks of install that come before the profile is read. */
  method CheckOptions(opts: Options) returns (e: Option<Error>)
    ensures e == OptionError(opts)
  {
    var basePort := opts.basePort;
    if basePort == 0 {
      basePort := DEFAULT_BASE;
    }
    if basePort <= 0 || basePort > MAX_PORT {
      return Some(BadBasePort);
    }
    if |opts.nodes| == 0 {
      return Some(NoNodes);
    }
    if |opts.names| > 0 && |opts.names| != |opts.nodes| {
      return Some(NameCount);
    }
    var ok := AllValid(opts.nodes);
    return if ok then None else Some(BadNode);
  }

  /** The section to edit, inserted when it is missing. */
  method OpenOrMake(text: string) returns (lines: seq<string>, start: int, end: int)
    ensures At(lines, start, end, OpenOrInsert(LinesOf(text)))
  {
    hide At, Inserted, Open;
    ghost var p;
    lines, start, end, p := OpenProfile(text);
    if start == -1 {
      lines, start, end := InsertProxySection(lines);
    }
  }

  /** The lines that stay: none for Install, the managed lines for Add if all are accepted. */
  method KeptLines(lines: seq<string>, start: int, end: int, replace: bool, ghost p: Parts)
    returns (managed: seq<string>, ok: bool)
    requires At(lines, start, end, p)
    ensures managed == Kept(p, replace) && (ok <==> ParseAll(managed).Some?)
  {
    hide Parse, BlockOf;
    managed, ok := [], true;
    if !replace {
      var found;
      managed, found := ManagedProxyBlock(lines, start, end);
      var policies := ParseLines(managed);
      ok := policies.Some?;
    }
  }

  /** Write `managed` into the block of what CutBlock left. */
  method WriteBlock(cleaned: Slice, start: int, end: int, managed: seq<string>, ghost p: Parts)
    returns (rendered: string)
    requires Ok(cleaned) && At(View(cleaned), start, end, Cleaned(p))
    modifies cleaned.buf
    ensures rendered == Edited(p, managed)
  {
    hide Flatten, WithBlock, Cleaned;
    rendered := RenderManagedProxyBlock(cleaned, start, end, managed, Cleaned(p));
  }

  /** The part of install between the cut and the splice: names and ports in use, then one line
      for each node. */
  method MakeLines(profile: string, opts: Options, previous: set<int>, body: seq<string>, kept: seq<string>,
                   ghost p: Parts, replace: bool)
    returns (lines: seq<string>, names: seq<string>, ports: seq<int>, ok: bool)
    requires OptionError(opts).None? && previous == PortsOf(p.body) && body == Strip(p.body)
    requires kept == Kept(p, replace)
    ensures var r := NewEntries(p, opts, replace);
      && ok == r.Some?
      && (ok ==> lines == LinesFor(profile, r.value) && names == EntryNames(r.value) && ports == EntryPorts(r.value))
  {
    hide Strip, PortsOf, NamesOf, Kept, Generate, LinesFor, EntryNames, EntryPorts;
    var existing := ProxyNames(body);
    var more := ProxyNames(kept);
    var used := LocalPorts(body);
    var usedByKept := LocalPorts(kept);
    used := used + usedByKept;
    var labels := Labels(opts);
    var reusable := SubtractPorts(previous, used);
    lines, names, ports, ok := GenerateLines(profile, opts, labels, existing + more, BasePort(opts), used, reusable);
  }

  /** install: Install replaces the managed lines, Add keeps them. */
  method Install(text: string, profile: string, opts: Options, replace: bool) returns (r: Outcome)
    ensures r == Edits.Install(text, profile, opts, replace)
  {
    hide OptionError, At, Kept, NewEntries, LinesFor, EntryNames, EntryPorts, Edited, OpenOrInsert, ParseAll;
    var e := CheckOptions(opts);
    if e.Some? {
      return Failed(e.value);
    }
    var lines, start, end := OpenOrMake(text);
    ghost var p := OpenOrInsert(LinesOf(text));
    AtBody(lines, start, end, p);
    var previous := LocalPorts(lines[start + 1..end]);
    var kept, ok := KeptLines(lines, start, end, replace, p);
    if !ok {
      return Failed(NotRunPolicy);
    }
    var cleaned, cleanStart, cleanEnd := CutBlock(lines, start, end, p);
    AtBody(View(cleaned), cleanStart, cleanEnd, Cleaned(p));
    assert cleanStart != -1;
    var made, names, ports, found :=
      MakeLines(profile, opts, previous, cleaned.buf[cleanStart + 1..cleanEnd], kept, p, replace);
    if !found {
      return Failed(NoPort);
    }
    var rendered := WriteBlock(cleaned, cleanStart, cleanEnd, kept + made, p);
    return Done(rendered, names, ports);
  }

  lemma AtBody(lines: seq<string>, start: int, end: int, p: Parts)
    requires At(lines, start, end, p)
    ensures 0 <= start < end <= |lines| && lines[start + 1..end] == p.body
  {
  }

  // ---------- Remove ----------

  /** The first steps of Remove, Rename and Replace: find the section and read the block. */
  method OpenManaged(text: string)
    returns (e: Option<Error>, lines: seq<string>, start: int, end: int, managed: seq<string>)
    ensures match Open(LinesOf(text))
            case None => e == Some(NoProxySection)
            case Some(p) =>
              && At(lines, start, end, p)
              && match BlockOf(p.body)
                 case None => e == Some(NoManagedBlock)
                 case Some(m) => e == None && managed == m
  {
    hide At, BlockOf, Open;
    ghost var p;
    managed := [];
    lines, start, end, p := OpenProfile(text);
    if start == -1 {
      return Some(NoProxySection), lines, start, end, managed;
    }
    AtBody(lines, start, end, p);
    var found;
    managed, found := ManagedProxyBlock(lines, start, end);
    e := if found then None else Some(NoManagedBlock);
  }

  /** The last steps of every edit: cut the old block and write the new one. */
  method Rewrite(lines: seq<string>, start: int, end: int, managed: seq<string>, ghost p: Parts)
    returns (rendered: string)
    requires At(lines, start, end, p)
    ensures rendered == Edited(p, managed)
  {
    hide At, Edited;
    var cleaned, cleanStart, cleanEnd := CutBlock(lines, start, end, p);
    rendered := WriteBlock(cleaned, cleanStart, cleanEnd, managed, p);
  }

  /** normalizedRemoveNames: a set filled in a loop. */
  method NormalizedRemoveNames(names: seq<string>) returns (out: set<string>)
    ensures out == RemoveNames(names)
  {
    out := {};
    for i := 0 to |names|
      invariant out == RemoveNames(names[..i])
    {
      assert names[..i + 1] == names[..i] + [names[i]];
      RemoveNamesSnoc(names[..i], names[i]);
      var name := SanitizeName(names[i]);
      if name != [] {
        out := out + {name};
      }
    }
    assert names[..|names|] == names;
  }

  lemma RemoveNamesSnoc(names: seq<string>, n: string)
    ensures RemoveNames(names + [n]) == RemoveNames(names) + if Sanitize(n) == [] then {} else {Sanitize(n)}
  {
    hide Sanitize;
    forall x ensures x in RemoveNames(names + [n]) <==> x in RemoveNames(names) || (x == Sanitize(n) && x != []) {
      if x == Sanitize(n) { assert n in names + [n]; }
      assert forall m | m in names :: m in names + [n];
    }
  }

  /** proxyLineCount */
  method ProxyLineCount(lines: seq<string>) returns (count: nat)
    ensures count == |NamesOf(lines)|
  {
    hide LineName;
    count := 0;
    for i := 0 to |lines|
      invariant count == |NamesOf(lines[..i])|
    {
      assert lines[..i + 1] == lines[..i] + [lines[i]];
      NamesAppend(lines[..i], [lines[i]]);
      if LineName(lines[i]) != [] {
        count := count + 1;
      }
    }
    assert lines[..|lines|] == lines;
  }

  lemma {:induction false} WithoutAppend(a: seq<string>, b: seq<string>, names: set<string>)
    ensures WithoutNames(a + b, names) == WithoutNames(a, names) + WithoutNames(b, names)
  {
    hide LineName;
    if a == [] {
      assert a + b == b;
    } else {
      assert (a + b)[1..] == a[1..] + b && (a + b)[0] == a[0];
      WithoutAppend(a[1..], b, names);
      var y, z := WithoutNames(a[1..], names), WithoutNames(b, names);
      assert [a[0]] + (y + z) == [a[0]] + y + z && [] + (y + z) == y + z && [] + y == y;
    }
  }

  lemma {:induction false} RemovedAppend(a: seq<string>, b: seq<string>, names: set<string>)
    ensures RemovedNames(a + b, names) == RemovedNames(a, names) + RemovedNames(b, names)
  {
    hide LineName;
    if a == [] {
      assert a + b == b;
    } else {
      assert (a + b)[1..] == a[1..] + b && (a + b)[0] == a[0];
      RemovedAppend(a[1..], b, names);
    }
  }

  /** The loop of Remove: a line goes when it has a name and that name is wanted. */
  method Drop(managed: seq<string>, names: set<string>) returns (removed: seq<string>, next: seq<string>)
    requires [] !in names
    ensures removed == RemovedNames(managed, names) && next == WithoutNames(managed, names)
  {
    hide LineName;
    removed, next := [], [];
    for i := 0 to |managed|
      invariant removed == RemovedNames(managed[..i], names) && next == WithoutNames(managed[..i], names)
    {
      assert managed[..i + 1] == managed[..i] + [managed[i]];
      WithoutAppend(managed[..i], [managed[i]], names);
      RemovedAppend(managed[..i], [managed[i]], names);
      var name := LineName(managed[i]);
      if name != [] && name in names {
        removed := removed + [name];
        continue;
      }
      next := next + [managed[i]];
    }
    assert managed[..|managed|] == managed;
  }

  /** Remove */
  method Remove(text: string, names: seq<string>) returns (r: Outcome)
    ensures r == Edits.Remove(text, names)
  {
    hide At, Edited, Open, BlockOf, NamesOf, WithoutNames, RemovedNames;
    var wanted := NormalizedRemoveNames(names);
    if |wanted| == 0 {
      return Failed(NoNames);
    }
    var e, lines, start, end, managed := OpenManaged(text);
    if e.Some? {
      return Failed(e.value);
    }
    ghost var p := Open(LinesOf(text)).value;
    var removed, next := Drop(managed, wanted);
    if |removed| == 0 {
      return Failed(NoMatch);
    }
    var count := ProxyLineCount(next);
    if count == 0 {
      next := [];
    }
    var rendered := Rewrite(lines, start, end, next, p);
    return Done(rendered, removed, []);
  }

  // ---------- Rename ----------

  lemma {:induction false} RenameAppend(a: seq<string>, b: seq<string>, from: string, to: string)
    ensures RenameAll(a + b, from, to) == RenameAll(a, from, to) + RenameAll(b, from, to)
  {
    hide LineName, RenameLine;
    if a == [] {
      assert a + b == b;
    } else {
      assert (a + b)[1..] == a[1..] + b && (a + b)[0] == a[0];
      RenameAppend(a[1..], b, from, to);
    }
  }

  lemma {:induction false} OthersAppend(a: seq<string>, b: seq<string>, from: string)
    ensures OtherNames(a + b, from) == OtherNames(a, from) + OtherNames(b, from)
  {
    hide LineName;
    if a == [] {
      assert a + b == b;
    } else {
      assert (a + b)[1..] == a[1..] + b && (a + b)[0] == a[0];
      OthersAppend(a[1..], b, from);
      var y, z := OtherNames(a[1..], from), OtherNames(b, from);
      assert [LineName(a[0])] + (y + z) == [LineName(a[0])] + y + z && [] + (y + z) == y + z;
    }
  }

  /** The first loop of Rename: the names that stay. */
  method AddOtherNames(before: seq<string>, managed: seq<string>, from: string) returns (names: seq<string>)
    ensures names == before + OtherNames(managed, from)
  {
    hide LineName;
    names := before;
    for i := 0 to |managed|
      invariant names == before + OtherNames(managed[..i], from)
    {
      assert managed[..i + 1] == managed[..i] + [managed[i]];
      OthersAppend(managed[..i], [managed[i]], from);
      var name := LineName(managed[i]);
      if name != [] && name != from {
        names := names + [name];
      }
    }
    assert managed[..|managed|] == managed;
  }

  /** The second loop of Rename. */
  method RenameLines(managed: seq<string>, from: string, to: string) returns (next: seq<string>, renamed: bool)
    requires from != []
    ensures next == RenameAll(managed, from, to) && (renamed <==> from in NamesOf(managed))
  {
    hide LineName, RenameLine;
    next, renamed := [], false;
    for i := 0 to |managed|
      invariant next == RenameAll(managed[..i], from, to) && (renamed <==> from in NamesOf(managed[..i]))
    {
      assert managed[..i + 1] == managed[..i] + [managed[i]];
      RenameAppend(managed[..i], [managed[i]], from, to);
      NamesAppend(managed[..i], [managed[i]]);
      if LineName(managed[i]) == from {
        next := next + [RenameLine(managed[i], to)];
        renamed := true;
        continue;
      }
      next := next + [managed[i]];
    }
    assert managed[..|managed|] == managed;
  }

  /** Rename */
  method Rename(text: string, rawFrom: string, rawTo: string) returns (r: Outcome)
    ensures r == Edits.Rename(text, rawFrom, rawTo)
  {
    hide At, Edited, Open, BlockOf, NamesOf, OtherNames, RenameAll, Unique, Strip, Sanitize;
    var from := SanitizeName(rawFrom);
    if from == [] {
      return Failed(NameRequired);
    }
    var to := SanitizeName(rawTo);
    if to == [] {
      return Failed(NameRequired);
    }
    var e, lines, start, end, managed := OpenManaged(text);
    if e.Some? {
      return Failed(e.value);
    }
    ghost var p := Open(LinesOf(text)).value;
    var cleaned, cleanStart, cleanEnd := CutBlock(lines, start, end, p);
    AtBody(View(cleaned), cleanStart, cleanEnd, Cleaned(p));
    var body := cleaned.buf[cleanStart + 1..cleanEnd];
    assert body == Strip(p.body);
    var existing := ProxyNames(body);
    existing := AddOtherNames(existing, managed, from);
    var name := UniqueName(existing, to);
    var next, renamed := RenameLines(managed, from, name);
    if !renamed {
      return Failed(NoMatch);
    }
    var rendered := WriteBlock(cleaned, cleanStart, cleanEnd, next, p);
    return Done(rendered, [name], []);
  }

  // ---------- Replace ----------

  /** What the loop of Replace still has to do. */
  ghost predicate Replacing(managed: seq<string>, name: string, profile: string, node: Node, i: nat,
                            next: seq<string>, port: int)
    requires i <= |managed| && ParseAll(managed[i..]).Some? && ParseAll(managed).Some?
  {
    && ReplaceAll(managed, name, profile, node) == next + ReplaceAll(managed[i..], name, profile, node)
    && PortNamed(managed, name, 0) == PortNamed(managed[i..], name, port)
  }

  /** One line more for both functions of the loop. */
  lemma ReplaceCons(lines: seq<string>, name: string, profile: string, node: Node, port: int)
    requires lines != [] && ParseAll(lines).Some?
    ensures Parse(lines[0]).Some? && ParseAll(lines[1..]).Some? && IsPort(Parse(lines[0]).value.localPort)
    ensures var hit := LineName(lines[0]) == name;
      && ReplaceAll(lines, name, profile, node)
         == [if hit then ReplaceLine(lines[0], profile, node) else lines[0]]
            + ReplaceAll(lines[1..], name, profile, node)
      && PortNamed(lines, name, port)
         == PortNamed(lines[1..], name, if hit then Parse(lines[0]).value.localPort else port)
  {
    hide Parse, LineName, ReplaceLine, IsPort;
    ParsedPort(lines[0]);
  }

  lemma ReplaceStep(managed: seq<string>, name: string, profile: string, node: Node, i: nat,
                    next: seq<string>, port: int)
    requires i < |managed| && ParseAll(managed[i..]).Some? && ParseAll(managed).Some?
    requires Replacing(managed, name, profile, node, i, next, port)
    ensures Parse(managed[i]).Some? && ParseAll(managed[i + 1..]).Some? && IsPort(Parse(managed[i]).value.localPort)
    ensures var hit := LineName(managed[i]) == name;
      Replacing(managed, name, profile, node, i + 1,
                next + [if hit then ReplaceLine(managed[i], profile, node) else managed[i]],
                if hit then Parse(managed[i]).value.localPort else port)
  {
    hide Parse, LineName, ReplaceLine, IsPort, ParseAll, ReplaceAll, PortNamed;
    var rest := managed[i..];
    assert rest[0] == managed[i] && rest[1..] == managed[i + 1..];
    ReplaceCons(rest, name, profile, node, port);
    var line := if LineName(managed[i]) == name then ReplaceLine(managed[i], profile, node) else managed[i];
    var tail := ReplaceAll(managed[i + 1..], name, profile, node);
    assert next + ([line] + tail) == next + [line] + tail;
  }

  /** The line that Replace writes, through ProxyLine. */
  method ReplaceOne(line: string, profile: string, node: Node) returns (updated: string, port: int)
    requires node.valid && Parse(line).Some? && IsPort(Parse(line).value.localPort)
    ensures updated == ReplaceLine(line, profile, node) && port == Parse(line).value.localPort
  {
    hide Parse, LineName, ExecPath, EntryFor, LineOf;
    var policy := ManagedPolicy(line);
    port := policy.value.localPort;
    var fields := Fields.SplitProxyFields(line);
    var r := ProxyLine(node, LineName(line), ExecPath(fields), profile, port);
    updated := r.text;
  }

  /** The loop of Replace. */
  method ReplaceLines(managed: seq<string>, name: string, profile: string, node: Node)
    returns (next: seq<string>, port: int, replaced: bool)
    requires name != [] && node.valid && ParseAll(managed).Some?
    ensures next == ReplaceAll(managed, name, profile, node) && port == PortNamed(managed, name, 0)
    ensures replaced <==> name in NamesOf(managed)
  {
    hide Parse, LineName, ReplaceLine, IsPort;
    next, port, replaced := [], 0, false;
    assert managed[0..] == managed;
    for i := 0 to |managed|
      invariant ParseAll(managed[i..]).Some? && Replacing(managed, name, profile, node, i, next, port)
      invariant replaced <==> name in NamesOf(managed[..i])
    {
      ReplaceStep(managed, name, profile, node, i, next, port);
      assert managed[..i + 1] == managed[..i] + [managed[i]];
      NamesAppend(managed[..i], [managed[i]]);
      if LineName(managed[i]) != name {
        next := next + [managed[i]];
        continue;
      }
      var updated, at := ReplaceOne(managed[i], profile, node);
      next := next + [updated];
      replaced := true;
      port := at;
    }
    assert managed[..|managed|] == managed;
  }

  /** Replace */
  method Replace(text: string, profile: string, rawName: string, node: Node) returns (r: Outcome)
    ensures r == Edits.Replace(text, profile, rawName, node)
  {
    hide At, Edited, Open, BlockOf, NamesOf, ReplaceAll, PortNamed, ParseAll, Sanitize;
    var name := SanitizeName(rawName);
    if name == [] {
      return Failed(NameRequired);
    }
    if !node.valid {
      return Failed(BadNode);
    }
    var e, lines, start, end, managed := OpenManaged(text);
    if e.Some? {
      return Failed(e.value);
    }
    ghost var p := Open(LinesOf(text)).value;
    var policies := ParseLines(managed);
    if policies.None? {
      return Failed(NotRunPolicy);
    }
    var next, port, replaced := ReplaceLines(managed, name, profile, node);
    if !replaced {
      return Failed(NoMatch);
    }
    var rendered := Rewrite(lines, start, end, next, p);
    return Done(rendered, [name], [port]);
  }
}

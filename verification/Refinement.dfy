/** Each edit of a managed profile is an edit of its list of entries. */
module Refinement {
  import opened Text
  import opened Names
  import opened Ports
  import opened PortScan
  import opened Quoting
  import opened Lines
  import opened RoundTrip
  import opened Renaming
  import opened Sections
  import opened Blocks
  import opened Profile
  import opened Edits
  import Fields
  import opened Managed

  // ---------- the profile that an edit opens ----------

  lemma BlankBody(body: seq<string>)
    requires AllBlank(body)
    ensures NoBegin(body) && NamesOf(body) == [] && PortsOf(body) == {}
  {
    SolidBlank(body);
    NamesOfSolid(body);
    EmptyLine();
    assert MARKER_BEGIN[0] == '#';
  }

  /** Opening a managed profile, or inserting the missing section, gives a section that holds
      the entries. */
  lemma OpenedHolds(text: string, profile: string, es: seq<Entry>)
    requires Manages(text, profile, es)
    ensures var p := OpenOrInsert(LinesOf(text));
      ValidParts(p) && OneLiners(Flatten(p)) && SectionHolds(p.body, profile, es)
  {
    OpenOneLiners(text);
    var p := OpenOrInsert(LinesOf(text));
    if Open(LinesOf(text)).None? {
      InsertedIsValid(LinesOf(text));
      BlankBody(p.body);
      UnmarkedFacts(p.body);
    }
  }

  /** Frame of an edit on the whole file: an inserted section adds its header and blank lines,
      every other line outside the block stays. */
  predicate FileFramed(text: string, text': string) {
    var p, q := OpenOrInsert(LinesOf(text)), Open(LinesOf(text'));
    q.Some? && Framed(p, q.value)
  }

  /** The entries of an edit replace those before, if they keep apart from the rest. */
  lemma EditFile(text: string, profile: string, es: seq<Entry>, next: seq<Entry>)
    requires Manages(text, profile, es) && AllSound(next) && Distinct(next)
    requires var body := OpenOrInsert(LinesOf(text)).body; Apart(next, NamesOf(Strip(body)), PortsOf(Strip(body)))
    ensures var text' := Edited(OpenOrInsert(LinesOf(text)), LinesFor(profile, next));
      Manages(text', profile, next) && FileFramed(text, text')
  {
    OpenedHolds(text, profile, es);
    var q := EditManages(OpenOrInsert(LinesOf(text)), profile, next);
  }

  // ---------- Install and Add ----------

  lemma JoinedEntries(profile: string, a: seq<Entry>, b: seq<Entry>, names: seq<string>, ports: set<int>)
    requires GoodPath(profile) && AllSound(a) && Distinct(a) && Apart(a, names, ports)
    requires AllSound(b) && Distinct(b)
    requires Apart(b, names + NamesOf(LinesFor(profile, a)), ports + PortsOf(LinesFor(profile, a)))
    ensures AllSound(a + b) && Distinct(a + b) && Apart(a + b, names, ports)
  {
    NamesOfLines(profile, a);
    var lines, all := LinesFor(profile, a), a + b;
    hide Sound, LinesFor, NamesOf, PortsOf;
    forall i | 0 <= i < |a| ensures a[i].name in names + NamesOf(lines) {
      assert EntryNames(a)[i] == a[i].name;
    }
    assert forall n | n in names :: n in names + NamesOf(lines);
    forall i, j | 0 <= i < j < |all| ensures all[i].name != all[j].name && all[i].port != all[j].port {
      if i < |a| <= j {
        assert all[i] == a[i] && all[j] == b[j - |a|];
      }
    }
  }

  /** The new entries of an install, and how they stand to those that stay. */
  lemma InstallEntries(p: Parts, profile: string, es: seq<Entry>, opts: Options, replace: bool)
    requires SectionHolds(p.body, profile, es) && GoodPath(profile) && AllSound(es) && Distinct(es)
    requires UsualOptions(opts) && OptionError(opts).None? && NewEntries(p, opts, replace).Some?
    ensures var base, news := if replace then [] else es, NewEntries(p, opts, replace).value;
      && Kept(p, replace) == LinesFor(profile, base)
      && |news| == |opts.nodes| && (forall i | 0 <= i < |news| :: MadeFor(news[i], opts.nodes[i], opts.exec))
      && AllSound(base + news) && Distinct(base + news)
      && Apart(base + news, NamesOf(Strip(p.body)), PortsOf(Strip(p.body)))
  {
    var base := if replace then [] else es;
    var clean, kept := Strip(p.body), Kept(p, replace);
    assert LinesFor(profile, []) == [];
    assert kept == LinesFor(profile, base);
    var used := PortsOf(clean) + PortsOf(kept);
    GenerateNew(opts.nodes, Labels(opts), opts.exec, NamesOf(clean) + NamesOf(kept), BasePort(opts),
                used, PortsOf(p.body) - used, opts.available);
    hide OneBlock, BlockOf, NamesOf, PortsOf, LinesFor, Strip, Sound, MadeFor, Generate;
    JoinedEntries(profile, base, NewEntries(p, opts, replace).value, NamesOf(clean), PortsOf(clean));
  }

  /** The names that an install reports are those it was asked for, node by node: the overrides, or
      the display names without overrides, each made free of `taken` and of the names before it. */
  ghost predicate NamedAsAsked(opts: Options, names: seq<string>, taken: seq<string>) {
    && |names| == |opts.nodes| && (opts.names == [] || |opts.names| == |opts.nodes|)
    && forall i | 0 <= i < |names| ::
      NamedAfter(names[i], if opts.names == [] then opts.nodes[i].display else opts.names[i], taken + names[..i])
  }

  lemma LabelsAsked(opts: Options, names: seq<string>, taken: seq<string>)
    requires OptionError(opts).None? && NamedInTurn(names, Labels(opts), taken)
    ensures NamedAsAsked(opts, names, taken)
  {
    hide NamedAfter;
  }

  /** On any profile, with any options, a successful install names the new policies as asked, free
      of the unmanaged names and of those of the lines that it keeps. */
  lemma InstallNames(text: string, profile: string, opts: Options, replace: bool)
    requires Install(text, profile, opts, replace).Done?
    ensures var p, names := OpenOrInsert(LinesOf(text)), Install(text, profile, opts, replace).names;
      NamedAsAsked(opts, names, NamesOf(Strip(p.body)) + NamesOf(Kept(p, replace)))
  {
    var p := OpenOrInsert(LinesOf(text));
    var clean, kept := Strip(p.body), Kept(p, replace);
    var used := PortsOf(clean) + PortsOf(kept);
    hide OpenOrInsert, LinesOf, Strip, Kept, NamesOf, PortsOf, Generate, NamedInTurn, NamedAsAsked, ParseAll, Edited,
      LinesFor, EntryNames;
    GenerateNames(opts.nodes, Labels(opts), opts.exec, NamesOf(clean) + NamesOf(kept), BasePort(opts),
                  used, PortsOf(p.body) - used, opts.available);
    LabelsAsked(opts, EntryNames(NewEntries(p, opts, replace).value), NamesOf(clean) + NamesOf(kept));
  }

  /** Install gives the new entries, Add the old ones and then the new ones; one for each node,
      in order, with the names that were asked for and the ports that the call reports. */
  lemma InstallRefines(text: string, profile: string, es: seq<Entry>, opts: Options, replace: bool)
    returns (news: seq<Entry>)
    requires Manages(text, profile, es) && UsualOptions(opts) && Install(text, profile, opts, replace).Done?
    ensures var r, base := Install(text, profile, opts, replace), if replace then [] else es;
      && |news| == |opts.nodes| && (forall i | 0 <= i < |news| :: MadeFor(news[i], opts.nodes[i], opts.exec))
      && r.names == EntryNames(news) && r.ports == EntryPorts(news)
      && NamedAsAsked(opts, r.names, NamesOf(Strip(OpenOrInsert(LinesOf(text)).body)) + EntryNames(base))
      && Manages(r.text, profile, base + news) && FileFramed(text, r.text)
  {
    var p, base := OpenOrInsert(LinesOf(text)), if replace then [] else es;
    OpenedHolds(text, profile, es);
    InstallEntries(p, profile, es, opts, replace);
    news := NewEntries(p, opts, replace).value;
    EditFile(text, profile, es, base + news);
    LinesAppend(profile, base, news);
    InstallNames(text, profile, opts, replace);
    NamesOfLines(profile, base);
    hide Manages, FileFramed, OpenOrInsert, LinesOf, NewEntries, MadeFor, Sound, Edited, Distinct, Apart, NamesOf,
      PortsOf, NamedAsAsked,
      SectionHolds, ValidParts, OneLiners, UsualOptions;
  }

  /** An install never fails once its options, its managed lines and the ports allow it: it
      hands out the first usable ports from the base on, and reports "no port" exactly when
      there are fewer of them than nodes. */
  lemma InstallPorts(text: string, profile: string, opts: Options, replace: bool)
    requires OptionError(opts).None? && ParseAll(Kept(OpenOrInsert(LinesOf(text)), replace)).Some?
    ensures var p, r := OpenOrInsert(LinesOf(text)), Install(text, profile, opts, replace);
      var used := PortsOf(Strip(p.body)) + PortsOf(Kept(p, replace));
      var usable := UsablePorts(BasePort(opts), used, PortsOf(p.body) - used, opts.available);
      && (r.Done? <==> |opts.nodes| <= |usable|) && (r.Failed? ==> r.error == NoPort)
      && (r.Done? ==> r.ports == usable[..|opts.nodes|])
  {
    var p := OpenOrInsert(LinesOf(text));
    var clean, kept := Strip(p.body), Kept(p, replace);
    var used := PortsOf(clean) + PortsOf(kept);
    GenerateAllocates(opts.nodes, Labels(opts), opts.exec, NamesOf(clean) + NamesOf(kept), BasePort(opts),
                      used, PortsOf(p.body) - used, opts.available);
    AllocateExact(|opts.nodes|, BasePort(opts), used, PortsOf(p.body) - used, opts.available);
  }

  /** The search for the section after the cleanup cannot fail. */
  lemma SectionSurvivesCleanup(text: string)
    ensures var p := OpenOrInsert(LinesOf(text));
      Bounds(Flatten(Cleaned(p)), PROXY) == (|p.pre|, |p.pre| + 1 + |Strip(p.body)|)
  {
    var p := OpenOrInsert(LinesOf(text));
    OpenOrInsertValid(LinesOf(text));
    hide OpenOrInsert, ValidParts, Strip, Bounds, Flatten, Open, LinesOf, FindSection, NextHeader;
    CleanedValid(p);
    BoundsOfParts(Cleaned(p));
  }

  // ---------- Remove ----------

  /** The entries whose name is not in `names`. */
  function Keep(es: seq<Entry>, names: set<string>): seq<Entry> {
    if es == [] then [] else (if es[0].name in names then [] else [es[0]]) + Keep(es[1..], names)
  }

  /** The entries that Remove reports. */
  function Dropped(es: seq<Entry>, names: set<string>): seq<Entry> {
    if es == [] then [] else (if es[0].name in names then [es[0]] else []) + Dropped(es[1..], names)
  }

  lemma {:induction false} KeepMembers(es: seq<Entry>, names: set<string>)
    ensures forall e | e in Keep(es, names) :: e.name !in names && e in es
  {
    if es != [] {
      KeepMembers(es[1..], names);
    }
  }

  lemma {:induction false} KeepSubset(es: seq<Entry>, names: set<string>)
    requires AllSound(es) && Distinct(es)
    ensures AllSound(Keep(es, names)) && Distinct(Keep(es, names))
    ensures forall e | e in Keep(es, names) :: e.name !in names && e in es
  {
    hide Sound;
    KeepMembers(es, names);
    if es != [] {
      var rest := Keep(es[1..], names);
      assert Distinct(es[1..]) && AllSound(es[1..]) && Sound(es[0]);
      KeepSubset(es[1..], names);
      assert Keep(es, names) == if es[0].name in names then [] + rest else [es[0]] + rest;
      hide Keep;
      KeepCons(es, rest);
    }
  }

  lemma KeepCons(es: seq<Entry>, rest: seq<Entry>)
    requires es != [] && Distinct(es) && AllSound(es) && AllSound(rest) && Distinct(rest)
    requires forall e | e in rest :: e in es[1..]
    ensures AllSound([es[0]] + rest) && Distinct([es[0]] + rest)
    ensures [] + rest == rest
  {
    hide Sound;
    forall i | 0 <= i < |rest| ensures rest[i].name != es[0].name && rest[i].port != es[0].port {
      assert rest[i] in es[1..];
    }
  }

  /** One line more: kept or dropped by its name. */
  lemma KeepLine(profile: string, e: Entry, rest: seq<Entry>, names: set<string>)
    ensures LinesFor(profile, (if e.name in names then [] else [e]) + rest)
         == (if e.name in names then [] else [LineOf(profile, e)]) + LinesFor(profile, rest)
    ensures EntryNames((if e.name in names then [e] else []) + rest)
         == (if e.name in names then [e.name] else []) + EntryNames(rest)
  {
    LinesAppend(profile, if e.name in names then [] else [e], rest);
    LinesAppend(profile, if e.name in names then [e] else [], rest);
    hide LineOf;
    assert LinesFor(profile, [e]) == [LineOf(profile, e)] && EntryNames([e]) == [e.name];
    assert LinesFor(profile, []) == [] && EntryNames([]) == [];
  }

  lemma {:induction false} RemoveLines(profile: string, es: seq<Entry>, names: set<string>)
    requires GoodPath(profile) && AllSound(es) && "" !in names
    ensures WithoutNames(LinesFor(profile, es), names) == LinesFor(profile, Keep(es, names))
    ensures RemovedNames(LinesFor(profile, es), names) == EntryNames(Dropped(es, names))
  {
    hide LineOf, LineName, Sound;
    if es == [] {
      assert LinesFor(profile, es) == [] && EntryNames([]) == [];
    } else {
      LinesCons(profile, es);
      assert Sound(es[0]) && LinesFor(profile, es)[1..] == LinesFor(profile, es[1..]);
      hide LinesFor, EntryNames;
      SoundParses(profile, es[0]);
      RemoveLines(profile, es[1..], names);
      KeepLine(profile, es[0], Keep(es[1..], names), names);
      KeepLine(profile, es[0], Dropped(es[1..], names), names);
    }
  }

  /** Remove drops the entries with the given names; if none is left, the block goes too. */
  lemma RemoveRefines(text: string, profile: string, es: seq<Entry>, names: seq<string>)
    requires Manages(text, profile, es) && Remove(text, names).Done?
    ensures var r, keep := Remove(text, names), Keep(es, RemoveNames(names));
      && Manages(r.text, profile, keep) && FileFramed(text, r.text)
      && r.names == EntryNames(Dropped(es, RemoveNames(names))) != []
  {
    var wanted := RemoveNames(names);
    OpenedHolds(text, profile, es);
    RemoveEntries(OpenOrInsert(LinesOf(text)).body, profile, es, wanted);
    EditFile(text, profile, es, Keep(es, wanted));
    hide FileFramed, Keep, Dropped, RemoveNames, NamesOf, PortsOf, Apart, Distinct, AllSound, Strip, WithoutNames,
      RemovedNames,
      Edited, LinesFor;
  }

  lemma RemoveEntries(body: seq<string>, profile: string, es: seq<Entry>, wanted: set<string>)
    requires SectionHolds(body, profile, es) && GoodPath(profile) && AllSound(es) && Distinct(es) && "" !in wanted
    ensures var keep, lines := Keep(es, wanted), LinesFor(profile, es);
      && AllSound(keep) && Distinct(keep) && Apart(keep, NamesOf(Strip(body)), PortsOf(Strip(body)))
      && LinesFor(profile, keep)
         == (if NamesOf(WithoutNames(lines, wanted)) == [] then [] else WithoutNames(lines, wanted))
      && RemovedNames(lines, wanted) == EntryNames(Dropped(es, wanted))
  {
    var keep := Keep(es, wanted);
    assert EntryNames(keep) == [] <==> keep == [];
    assert LinesFor(profile, []) == [];
    hide Sound, NamesOf, PortsOf, Strip, LinesFor, WithoutNames, RemovedNames, Distinct, OneBlock, BlockOf, Keep,
      Dropped, EntryNames, AllSound;
    RemoveLines(profile, es, wanted);
    KeepSubset(es, wanted);
    NamesOfLines(profile, keep);
    forall i | 0 <= i < |keep| ensures keep[i] in es {
      assert keep[i] in keep;
    }
  }

  // ---------- Rename ----------

  function RenameEntry(e: Entry, from: string, to: string): Entry {
    if e.name == from then e.(name := to) else e
  }

  /** The entries with one name changed. */
  function Renamed(es: seq<Entry>, from: string, to: string): seq<Entry> {
    seq(|es|, i requires 0 <= i < |es| => RenameEntry(es[i], from, to))
  }

  lemma RenamedCons(es: seq<Entry>, from: string, to: string)
    requires es != []
    ensures Renamed(es, from, to) == [RenameEntry(es[0], from, to)] + Renamed(es[1..], from, to)
  {
  }

  lemma {:induction false} RenameLines(profile: string, es: seq<Entry>, from: string, to: string)
    requires GoodPath(profile) && AllSound(es) && from != []
    ensures RenameAll(LinesFor(profile, es), from, to) == LinesFor(profile, Renamed(es, from, to))
    ensures OtherNames(LinesFor(profile, es), from) == EntryNames(Keep(es, {from}))
  {
    hide LineOf, LineName, Sound, RenameLine;
    if es == [] {
      assert LinesFor(profile, es) == [] && Renamed(es, from, to) == [] && EntryNames([]) == [];
    } else {
      var e, rest := es[0], es[1..];
      LinesCons(profile, es);
      RenamedCons(es, from, to);
      assert Sound(e) && LinesFor(profile, es)[1..] == LinesFor(profile, rest);
      SoundParses(profile, e);
      SoundRenames(profile, e, to);
      RenameLines(profile, rest, from, to);
      var kept := Keep(rest, {from});
      LinesCons(profile, [e] + kept);
      assert ([e] + kept)[1..] == kept && [] + kept == kept && [] + EntryNames(kept) == EntryNames(kept);
      LinesCons(profile, [RenameEntry(e, from, to)] + Renamed(rest, from, to));
      assert ([RenameEntry(e, from, to)] + Renamed(rest, from, to))[1..] == Renamed(rest, from, to);
    }
  }

  lemma SoundRenames(profile: string, e: Entry, name: string)
    requires Sound(e)
    ensures RenameLine(LineOf(profile, e), name) == LineOf(profile, e.(name := name))
    ensures name != [] && Clean(name) ==> Sound(e.(name := name))
  {
    RenameOfLine(profile, e, name);
  }

  lemma {:induction false} KeepsOthers(es: seq<Entry>, from: string, e: Entry)
    requires e in es && e.name != from
    ensures e.name in EntryNames(Keep(es, {from}))
  {
    var kept := Keep(es, {from});
    if e == es[0] {
      assert kept[0] == e && EntryNames(kept)[0] == e.name;
    } else {
      var rest := Keep(es[1..], {from});
      KeepsOthers(es[1..], from, e);
      assert kept == (if es[0].name in {from} then [] else [es[0]]) + rest;
      assert EntryNames(kept) == EntryNames(if es[0].name in {from} then [] else [es[0]]) + EntryNames(rest);
    }
  }

  lemma RenamedEntries(es: seq<Entry>, from: string, to: string, names: seq<string>, ports: set<int>)
    requires AllSound(es) && Distinct(es) && Apart(es, names, ports)
    requires to != [] && Clean(to) && to !in names && to !in EntryNames(Keep(es, {from}))
    ensures var next := Renamed(es, from, to); AllSound(next) && Distinct(next) && Apart(next, names, ports)
  {
    var next := Renamed(es, from, to);
    forall i | 0 <= i < |es| ensures Sound(next[i]) && (es[i].name != from ==> es[i].name != to) {
      assert Sound(es[i]);
      SoundRenames("", es[i], to);
      if es[i].name != from {
        KeepsOthers(es, from, es[i]);
      }
    }
    hide Sound, Keep, EntryNames;
  }

  /** Rename changes the name of the one entry of that name and nothing else.  The new name is the
      one asked for, made free of the unmanaged names and of those of the other entries. */
  lemma RenameRefines(text: string, profile: string, es: seq<Entry>, rawFrom: string, rawTo: string)
    requires Manages(text, profile, es) && Rename(text, rawFrom, rawTo).Done?
    ensures var r, from := Rename(text, rawFrom, rawTo), Sanitize(rawFrom);
      var unmanaged := NamesOf(Strip(OpenOrInsert(LinesOf(text)).body));
      var to := Unique(unmanaged + EntryNames(Keep(es, {from})), Sanitize(rawTo));
      && Manages(r.text, profile, Renamed(es, from, to)) && FileFramed(text, r.text)
      && r.names == [to] && NamedAfter(to, rawTo, unmanaged + EntryNames(Keep(es, {from}))) && from in EntryNames(es)
  {
    var p, from := OpenOrInsert(LinesOf(text)), Sanitize(rawFrom);
    var unmanaged := NamesOf(Strip(p.body));
    var to := Unique(unmanaged + EntryNames(Keep(es, {from})), Sanitize(rawTo));
    OpenedHolds(text, profile, es);
    RenameLines(profile, es, from, to);
    NamesOfLines(profile, es);
    UniqueIsFree(unmanaged + EntryNames(Keep(es, {from})), Sanitize(rawTo));
    NamedAfterSanitized(to, rawTo, unmanaged + EntryNames(Keep(es, {from})));
    RenamedEntries(es, from, to, unmanaged, PortsOf(Strip(p.body)));
    EditFile(text, profile, es, Renamed(es, from, to));
    hide FileFramed, Renamed, Unique, NamesOf, PortsOf, Apart, Distinct, AllSound, Strip, OtherNames, RenameAll,
      Edited, LinesFor, Sanitize, Keep, EntryNames, OneBlock, ValidParts, NamedAfter;
  }

  lemma NamedAfterSanitized(name: string, raw: string, taken: seq<string>)
    requires NamedAfter(name, Sanitize(raw), taken)
    ensures NamedAfter(name, raw, taken)
  {
    SanitizeFixes(raw);
  }

  // ---------- Replace ----------

  /** The exec path that Replace reads back: a policy named "exec" hides it. */
  function ExecRead(e: Entry): string {
    if EqualFold(e.name, "exec") then "external" else Trim(e.exec)
  }

  function ReplaceEntry(e: Entry, name: string, node: Node): Entry {
    if e.name == name then Entry(e.name, ExecRead(e), node.raw, e.port, node.address) else e
  }

  /** The entries with one link changed. */
  function Replaced(es: seq<Entry>, name: string, node: Node): seq<Entry> {
    seq(|es|, i requires 0 <= i < |es| => ReplaceEntry(es[i], name, node))
  }

  /** What Replace writes for any generated line that is accepted. */
  lemma ReadableReplaces(profile: string, e: Entry, node: Node)
    requires GoodEntry(e) && Readable(profile, e) && node.Parsed()
    ensures var line := LineOf(profile, e);
      && Parse(line) == Some(PolicyOf(e)) && IsPort(Parse(line).value.localPort)
      && ReplaceLine(line, profile, node) == LineOf(profile, ReplaceEntry(e, e.name, node))
  {
    ParseOfLine(profile, e);
    LineNameBack(profile, e);
    FieldsComeBack(profile, e);
    ExecBack(profile, e);
    CleanIsFixed(e.name);
    hide Parse, LineOf, LineName, LineFields, Fields.SplitFields, ExecPath, Sanitize, EqualFold, Clean, IsLink;
  }

  lemma SoundReplaces(profile: string, e: Entry, node: Node)
    requires GoodPath(profile) && Sound(e) && node.Parsed()
    ensures var line := LineOf(profile, e);
      && Parse(line).Some? && IsPort(Parse(line).value.localPort)
      && ReplaceLine(line, profile, node) == LineOf(profile, ReplaceEntry(e, e.name, node))
      && Sound(ReplaceEntry(e, e.name, node))
  {
    ReadableReplaces(profile, e, node);
    TrimIdempotent(e.exec);
    TrimOfTrimmed("external");
    hide Parse, LineOf, ReplaceLine, Trim, EqualFold, Clean, IsLink, IsAddress;
  }

  /** The exec path can be told from the line. */
  lemma LineTellsExec(profile: string, e: Entry, exec: string)
    requires GoodEntry(e) && LineOf(profile, e) == LineOf(profile, e.(exec := exec))
    ensures exec == e.exec
  {
    FieldsComeBack(profile, e);
    FieldsComeBack(profile, e.(exec := exec));
    SecondField(profile, e);
    SecondField(profile, e.(exec := exec));
    QuotedExec(e.exec);
    QuotedExec(exec);
    hide LineOf, LineFields, Fields.SplitFields, Assign;
  }

  lemma SecondField(profile: string, e: Entry)
    ensures |LineFields(profile, e)| > 1 && LineFields(profile, e)[1] == Assign("exec", Quote(e.exec))
  {
  }

  lemma QuotedExec(exec: string)
    ensures HasKey(Assign("exec", Quote(exec))) && UnquoteOr(Value(Assign("exec", Quote(exec)))) == exec
  {
    QuoteTrimmed(exec);
    KeyValue("exec", Quote(exec));
  }

  lemma TrimKeeps(s: string)
    ensures Trim(s) == s <==> Trimmed(s)
  {
    if Trimmed(s) {
      TrimOfTrimmed(s);
    }
    TrimIdempotent(s);
  }

  /** Replace writes the exec path back as it was exactly when that has no white space around it;
      for a policy named "exec", whose name hides it, exactly when it was "external". */
  lemma ReplaceKeepsExec(profile: string, e: Entry, node: Node)
    requires GoodEntry(e) && Readable(profile, e) && node.Parsed()
    ensures var line := LineOf(profile, e);
      && Parse(line).Some? && IsPort(Parse(line).value.localPort)
      && (ReplaceLine(line, profile, node) == LineOf(profile, Entry(e.name, e.exec, node.raw, e.port, node.address))
          <==> if EqualFold(e.name, "exec") then e.exec == "external" else Trimmed(e.exec))
  {
    ReadableReplaces(profile, e, node);
    TrimKeeps(e.exec);
    var kept := Entry(e.name, e.exec, node.raw, e.port, node.address);
    assert GoodEntry(kept) && ReplaceEntry(e, e.name, node) == kept.(exec := ExecRead(e));
    hide LineOf, ReplaceLine, Parse, Trim, Trimmed, EqualFold, GoodEntry, Readable;
    if LineOf(profile, kept) == LineOf(profile, kept.(exec := ExecRead(e))) {
      LineTellsExec(profile, kept, ExecRead(e));
    }
  }

  lemma ReplacedCons(es: seq<Entry>, name: string, node: Node)
    requires es != []
    ensures Replaced(es, name, node) == [ReplaceEntry(es[0], name, node)] + Replaced(es[1..], name, node)
  {
  }

  lemma {:induction false} ReplaceLines(profile: string, es: seq<Entry>, name: string, node: Node)
    requires GoodPath(profile) && AllSound(es) && node.Parsed() && ParseAll(LinesFor(profile, es)).Some?
    ensures ReplaceAll(LinesFor(profile, es), name, profile, node) == LinesFor(profile, Replaced(es, name, node))
  {
    hide LineOf, LineName, Sound, ReplaceLine, Parse, ReplaceEntry;
    if es == [] {
      assert LinesFor(profile, es) == [] && Replaced(es, name, node) == [];
    } else {
      var e, rest := es[0], es[1..];
      LinesCons(profile, es);
      ReplacedCons(es, name, node);
      assert Sound(e) && LinesFor(profile, es)[1..] == LinesFor(profile, rest);
      SoundParses(profile, e);
      SoundReplaces(profile, e, node);
      ReplaceOther(e, name, node);
      ReplaceLines(profile, rest, name, node);
      LinesCons(profile, [ReplaceEntry(e, name, node)] + Replaced(rest, name, node));
      assert ([ReplaceEntry(e, name, node)] + Replaced(rest, name, node))[1..] == Replaced(rest, name, node);
    }
  }

  lemma ReplaceOther(e: Entry, name: string, node: Node)
    ensures ReplaceEntry(e, name, node) == if e.name == name then ReplaceEntry(e, e.name, node) else e
    ensures ReplaceEntry(e, name, node).name == e.name && ReplaceEntry(e, name, node).port == e.port
  {
  }

  lemma ReplacedEntries(profile: string, es: seq<Entry>, name: string, node: Node, names: seq<string>, ports: set<int>)
    requires GoodPath(profile) && AllSound(es) && Distinct(es) && Apart(es, names, ports) && node.Parsed()
    ensures var next := Replaced(es, name, node); AllSound(next) && Distinct(next) && Apart(next, names, ports)
  {
    var next := Replaced(es, name, node);
    forall i | 0 <= i < |es| ensures Sound(next[i]) && next[i].name == es[i].name && next[i].port == es[i].port {
      assert Sound(es[i]);
      SoundReplaces(profile, es[i], node);
      ReplaceOther(es[i], name, node);
    }
    hide Sound, ReplaceEntry;
  }

  /** Replace changes the link of the entry of that name: its name, its port and its place stay,
      and the port is reported. */
  lemma ReplaceRefines(text: string, profile: string, es: seq<Entry>, rawName: string, node: Node)
    requires Manages(text, profile, es) && node.Parsed() && Replace(text, profile, rawName, node).Done?
    ensures var r, name := Replace(text, profile, rawName, node), Sanitize(rawName);
      && Manages(r.text, profile, Replaced(es, name, node)) && FileFramed(text, r.text)
      && r.names == [name] && exists i :: 0 <= i < |es| && es[i].name == name && r.ports == [es[i].port as int]
  {
    var p, name := OpenOrInsert(LinesOf(text)), Sanitize(rawName);
    ReplaceOpens(text, profile, es, rawName, node);
    OpenedHolds(text, profile, es);
    hide FileFramed, Replaced, NamesOf, PortsOf, Apart, Distinct, AllSound, Strip, ReplaceAll, PortNamed, LastPort,
      EntryNames, Edited, LinesFor, Sanitize, ParseAll, Replace, OpenOrInsert, LinesOf, OneBlock, BlockOf, ValidParts;
    ReplacedEntries(profile, es, name, node, NamesOf(Strip(p.body)), PortsOf(Strip(p.body)));
    LastPortFound(es, name, 0);
    EditFile(text, profile, es, Replaced(es, name, node));
    NameAt(es, name);
  }

  lemma NameAt(es: seq<Entry>, name: string)
    requires name in EntryNames(es)
    ensures exists i :: 0 <= i < |es| && es[i].name == name
  {
    var i :| 0 <= i < |es| && EntryNames(es)[i] == name;
    assert es[i].name == name;
  }

  /** What Replace computes on a managed profile. */
  lemma ReplaceOpens(text: string, profile: string, es: seq<Entry>, rawName: string, node: Node)
    requires Manages(text, profile, es) && node.Parsed() && Replace(text, profile, rawName, node).Done?
    ensures var r, name := Replace(text, profile, rawName, node), Sanitize(rawName);
      && name in EntryNames(es) && r.names == [name] && r.ports == [LastPort(es, name, 0)]
      && r.text == Edited(OpenOrInsert(LinesOf(text)), LinesFor(profile, Replaced(es, name, node)))
  {
    var name := Sanitize(rawName);
    ParseLines(profile, es);
    ReplaceLines(profile, es, name, node);
    NamesOfLines(profile, es);
    PortReported(profile, es, name, 0);
    hide Sanitize, Replaced, NamesOf, ReplaceAll, PortNamed, LastPort, EntryNames, Edited, LinesFor, ParseAll, AllSound,
      Distinct, Apart, OneBlock, LinesOf, Strip, PortsOf;
  }

  /** The port that Replace reports is that of the last entry of the name. */
  function LastPort(es: seq<Entry>, name: string, port: int): int {
    if es == [] then port else LastPort(es[1..], name, if es[0].name == name then es[0].port else port)
  }

  lemma {:induction false} PortReported(profile: string, es: seq<Entry>, name: string, port: int)
    requires GoodPath(profile) && AllSound(es)
    ensures PortNamed(LinesFor(profile, es), name, port) == LastPort(es, name, port)
    decreases |es|
  {
    hide LineOf, LineName, Sound, Parse;
    if es == [] {
      assert LinesFor(profile, es) == [];
    } else {
      LinesCons(profile, es);
      assert Sound(es[0]) && LinesFor(profile, es)[1..] == LinesFor(profile, es[1..]);
      SoundParses(profile, es[0]);
      PortReported(profile, es[1..], name, if es[0].name == name then es[0].port else port);
    }
  }

  lemma {:induction false} LastPortFound(es: seq<Entry>, name: string, port: int)
    ensures LastPort(es, name, port) == port
         || exists i :: 0 <= i < |es| && es[i].name == name && LastPort(es, name, port) == es[i].port
    ensures forall i | 0 <= i < |es| && es[i].name == name && Distinct(es) :: LastPort(es, name, port) == es[i].port
    decreases |es|
  {
    if es != [] {
      var rest, port' := es[1..], if es[0].name == name then es[0].port else port;
      LastPortFound(rest, name, port');
      assert forall i | 0 <= i < |rest| :: rest[i] == es[i + 1];
      if LastPort(rest, name, port') != port' {
        var i :| 0 <= i < |rest| && rest[i].name == name && LastPort(rest, name, port') == rest[i].port;
        assert es[i + 1].name == name;
      }
    }
  }

  // ---------- lines written by hand ----------

  /** Replace on any accepted line keeps name and port and sets the link, but it always writes
      the default host: the link is all that changes exactly when the host was that. */
  lemma ReplaceAnyLine(line: string, profile: string, node: Node)
    requires GoodPath(profile) && Parse(line).Some? && node.Parsed()
    ensures IsPort(Parse(line).value.localPort) && Parse(ReplaceLine(line, profile, node)).Some?
    ensures var before, after := Parse(line).value, Parse(ReplaceLine(line, profile, node)).value;
      && after == before.(link := node.raw, localHost := LOCAL_HOST, runHost := LOCAL_HOST)
      && (after == before.(link := node.raw) <==> before.localHost == LOCAL_HOST)
  {
    ParsedPort(line);
    ParsedRun(line);
    var name, exec := LineName(line), ExecPath(Fields.SplitFields(line));
    SanitizeIsClean(Trim(line)[..Index(Trim(line), '=')]);
    CleanIsFixed(name);
    ExecTrimmed(Fields.SplitFields(line));
    TrimOfTrimmed(exec);
    hide Parse, LineName, ExecPath, Sanitize, LineOf;
    SoundParses(profile, EntryFor(node, name, exec, Parse(line).value.localPort));
  }

  lemma ParsedRun(line: string)
    requires Parse(line).Some?
    ensures var p := Parse(line).value;
      p.name == LineName(line) && p.runHost == p.localHost && p.runPort == p.localPort
  {
    hide LineName, Steps, ExecPath, HeadAccepted;
  }

  lemma {:induction false} ExecTrimmed(fields: seq<string>)
    ensures Trimmed(ExecPath(fields))
  {
    if fields != [] {
      ExecTrimmed(fields[1..]);
      if HasKey(fields[0]) {
        TrimIdempotent(UnquoteOr(Value(fields[0])));
      }
    }
  }

  /** A policy named "exec" loses its exec path in Replace, and with a blank path it would not
      survive a change of name. */
  lemma NamedExec(profile: string, e: Entry, name: string, node: Node)
    requires GoodPath(profile) && GoodEntry(e) && EqualFold(e.name, "exec") && node.Parsed()
    requires name != [] && Clean(name) && !EqualFold(name, "exec")
    ensures Parse(LineOf(profile, e)) == Some(PolicyOf(e))
    ensures ReplaceLine(LineOf(profile, e), profile, node)
         == LineOf(profile, Entry(e.name, "external", node.raw, e.port, node.address))
    ensures Parse(RenameLine(LineOf(profile, e), name)).Some? <==> Trim(e.exec) != []
  {
    ParseOfLine(profile, e);
    ParsedPort(LineOf(profile, e));
    LineNameBack(profile, e);
    FieldsComeBack(profile, e);
    ExecBack(profile, e);
    CleanIsFixed(e.name);
    RenameOfLine(profile, e, name);
    ExecNeeded(profile, e.(name := name));
  }

  /** Without that name, a generated line with a blank exec path is refused. */
  lemma ExecNeeded(profile: string, e: Entry)
    requires GoodPath(profile) && GoodEntry(e) && !EqualFold(e.name, "exec")
    ensures Parse(LineOf(profile, e)).Some? <==> Trim(e.exec) != []
  {
    ParseOfLine(profile, e);
    if Trim(e.exec) == [] {
      LineNameBack(profile, e);
      FieldsComeBack(profile, e);
      ExecBack(profile, e);
    }
  }
}

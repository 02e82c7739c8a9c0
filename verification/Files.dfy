/** Edits on disk: atomicWriteFile of internal/surge/files.go and the two writes at the end of
    every edit (internal/surge/install.go).  A crash can stop the program between any two
    steps, so what counts is every state that the disk goes through. */
module Files {
  import opened Edits
  import opened Lines
  import opened Managed
  import opened Runs
  import Editor

  /** Paths and contents. */
  type Disk = map<string, string>

  /** The step of atomicWriteFile that fails, if one does; a write may fail part of the way. */
  datatype Fault = Fine | CreateFails | WriteFails(at: nat) | ChmodFails | CloseFails | RenameFails

  // ---------- one atomic write ----------

  /** The temporary file while it is filled: empty, then longer and longer. */
  function Filling(d: Disk, tmp: string, data: string, n: nat): seq<Disk>
    requires n <= |data|
  {
    seq(n + 1, i requires 0 <= i <= n => d[tmp := data[..i]])
  }

  /** Every state that atomicWriteFile takes the disk through; a failure removes the temporary
      file, and only the rename touches the target. */
  function WriteStates(d: Disk, tmp: string, path: string, data: string, fault: Fault): seq<Disk> {
    match fault
    case Fine => Filling(d, tmp, data, |data|) + [d[path := data]]
    case CreateFails => []
    case WriteFails(at) => Filling(d, tmp, data, if at < |data| then at else |data|) + [d]
    case _ => Filling(d, tmp, data, |data|) + [d]
  }

  function Written(d: Disk, path: string, data: string, fault: Fault): Disk {
    if fault.Fine? then d[path := data] else d
  }

  /** The states agree up to these files. */
  ghost predicate SameBut(d: Disk, s: Disk, except: set<string>) {
    forall f | f !in except :: (f in s <==> f in d) && (f in d ==> s[f] == d[f])
  }

  /** At every instant the target is what it was or wholly the new text. */
  lemma WriteIsAtomic(d: Disk, tmp: string, path: string, data: string, fault: Fault)
    requires tmp !in d && tmp != path
    ensures forall s | s in WriteStates(d, tmp, path, data, fault) ::
      && SameBut(d, s, {tmp, path})
      && (s == d[path := data] || SameBut(d, s, {tmp}))
  {
    forall s | s in WriteStates(d, tmp, path, data, fault)
      ensures SameBut(d, s, {tmp, path}) && (s == d[path := data] || SameBut(d, s, {tmp}))
    {
      if s != d && s != d[path := data] {
        FillingOnly(d, tmp, data, |data|, s);
        if fault.WriteFails? && fault.at < |data| { FillingOnly(d, tmp, data, fault.at, s); }
      }
    }
  }

  lemma FillingOnly(d: Disk, tmp: string, data: string, n: nat, s: Disk)
    requires n <= |data|
    ensures s in Filling(d, tmp, data, n) ==> SameBut(d, s, {tmp})
  {
  }

  // ---------- one edit ----------

  /** An edit with the names of its temporary files, and what goes wrong while it is saved. */
  datatype Event = Event(op: Op, write: bool, tmp1: string, tmp2: string, fault1: Fault, fault2: Fault)

  function Backup(path: string): string {
    path + ".bak"
  }

  /** os.CreateTemp finds names that are not in use. */
  predicate FreshNames(d: Disk, path: string, e: Event) {
    && e.tmp1 !in d && e.tmp2 !in d && e.tmp1 != path && e.tmp2 != path
    && e.tmp1 != Backup(path) && e.tmp2 != Backup(path)
  }

  /** What the edit writes, if it gets that far. */
  function Output(d: Disk, path: string, e: Event): Outcome {
    if path in d then Apply(d[path], path, e.op) else Failed(NoProxySection)
  }

  predicate Writes(d: Disk, path: string, e: Event) {
    path in d && e.write && Output(d, path, e).Done?
  }

  /** The disk states of an edit: first the backup of the text it read, then the profile. */
  function EditStates(d: Disk, path: string, e: Event): seq<Disk> {
    if !Writes(d, path, e) then []
    else
      var d1 := Written(d, Backup(path), d[path], e.fault1);
      WriteStates(d, e.tmp1, Backup(path), d[path], e.fault1)
      + if e.fault1.Fine? then WriteStates(d1, e.tmp2, path, Output(d, path, e).text, e.fault2) else []
  }

  function Saved(d: Disk, path: string, e: Event): Disk {
    if !Writes(d, path, e) then d
    else
      var d1 := Written(d, Backup(path), d[path], e.fault1);
      if e.fault1.Fine? then Written(d1, path, Output(d, path, e).text, e.fault2) else d1
  }

  /** A state in which the profile is wholly the old or wholly the new text; when it is the new
      one, the backup holds the old. */
  predicate Consistent(d: Disk, path: string, next: string, s: Disk)
    requires path in d
  {
    && path in s
    && (s[path] == d[path] || (s[path] == next && Backup(path) in s && s[Backup(path)] == d[path]))
  }

  lemma BackupDiffers(path: string)
    ensures Backup(path) != path
  {
    assert |Backup(path)| == |path| + 4;
  }

  lemma CutFirstWrite(d: Disk, path: string, bak: string, tmp: string, next: string, s: Disk)
    requires path in d && bak == Backup(path) && tmp != path && bak != path
    requires SameBut(d, s, {tmp, bak})
    ensures Consistent(d, path, next, s)
  {
  }

  lemma CutSecondWrite(d: Disk, path: string, bak: string, tmp: string, next: string, s: Disk)
    requires path in d && bak == Backup(path) && tmp != path && tmp != bak && bak != path
    requires var d1 := d[bak := d[path]]; s == d1[path := next] || SameBut(d1, s, {tmp})
    ensures Consistent(d, path, next, s) && SameBut(d, s, {path, bak, tmp})
  {
  }

  /** Cut at any step, an edit leaves the profile wholly old or wholly new, with the old text
      in the backup if it is new, and no other file is touched but its temporary ones. */
  lemma CutEdit(d: Disk, path: string, e: Event)
    requires FreshNames(d, path, e) && Writes(d, path, e)
    ensures forall s | s in EditStates(d, path, e) ::
      && Consistent(d, path, Output(d, path, e).text, s)
      && SameBut(d, s, {path, Backup(path), e.tmp1, e.tmp2})
  {
    BackupDiffers(path);
    var next, bak := Output(d, path, e).text, Backup(path);
    var d1 := Written(d, bak, d[path], e.fault1);
    forall s | s in EditStates(d, path, e)
      ensures Consistent(d, path, next, s) && SameBut(d, s, {path, bak, e.tmp1, e.tmp2})
    {
      hide WriteStates, Output, Writes, Consistent;
      if s in WriteStates(d, e.tmp1, bak, d[path], e.fault1) {
        WriteIsAtomic(d, e.tmp1, bak, d[path], e.fault1);
        CutFirstWrite(d, path, bak, e.tmp1, next, s);
      } else {
        WriteIsAtomic(d1, e.tmp2, path, next, e.fault2);
        CutSecondWrite(d, path, bak, e.tmp2, next, s);
      }
    }
  }

  /** When nothing goes wrong the profile is new, the backup is old, and no temporary file is
      left; when something does, the profile is as it was. */
  lemma SavedText(d: Disk, path: string, e: Event)
    requires path in d
    ensures var s := Saved(d, path, e);
      && path in s && SameBut(d, s, {path, Backup(path)})
      && if Writes(d, path, e) && e.fault1.Fine? && e.fault2.Fine?
         then s[path] == Output(d, path, e).text && Backup(path) in s && s[Backup(path)] == d[path]
         else s[path] == d[path]
  {
    BackupDiffers(path);
    hide Output, Writes;
  }

  // ---------- runs ----------

  /** The disk after a run of edits with no other writer. */
  function Played(d: Disk, path: string, events: seq<Event>): Disk
    decreases |events|
  {
    if events == [] then d else Played(Saved(d, path, events[0]), path, events[1..])
  }

  /** Every state during the run. */
  function RunStates(d: Disk, path: string, events: seq<Event>): seq<Disk>
    decreases |events|
  {
    if events == [] then []
    else EditStates(d, path, events[0]) + RunStates(Saved(d, path, events[0]), path, events[1..])
  }

  predicate UsualEvents(d: Disk, path: string, events: seq<Event>)
    decreases |events|
  {
    events == []
    || (Usual(events[0].op) && FreshNames(d, path, events[0])
        && UsualEvents(Saved(d, path, events[0]), path, events[1..]))
  }

  lemma EventManages(d: Disk, path: string, es: seq<Entry>, e: Event) returns (next: seq<Entry>)
    requires path in d && Manages(d[path], path, es) && Usual(e.op) && FreshNames(d, path, e)
    ensures Writes(d, path, e) ==> Manages(Output(d, path, e).text, path, next)
    ensures path in Saved(d, path, e)
    ensures Saved(d, path, e)[path] == d[path] || Manages(Saved(d, path, e)[path], path, next)
  {
    hide Manages, Usual;
    next := StepManages(d[path], path, es, e.op);
    SavedText(d, path, e);
    hide Apply;
  }

  /** Whenever a run of edits is cut, also in the middle of a write, the profile on disk is one
      that manages some list of sound entries: the invariant of whole runs holds at every
      instant. */
  lemma {:induction false} CutRun(d: Disk, path: string, es: seq<Entry>, events: seq<Event>, s: Disk)
    requires path in d && Manages(d[path], path, es) && UsualEvents(d, path, events)
    requires s in RunStates(d, path, events)
    ensures path in s && exists now :: Manages(s[path], path, now)
    decreases |events|
  {
    hide Manages, Usual, FreshNames, Output;
    var e, d' := events[0], Saved(d, path, events[0]);
    var next := EventManages(d, path, es, e);
    if s in EditStates(d, path, e) {
      CutEdit(d, path, e);
    } else {
      var now := if d'[path] == d[path] then es else next;
      CutRun(d', path, now, events[1..], s);
    }
  }

  lemma {:induction false} PlayedSnoc(d: Disk, path: string, events: seq<Event>, e: Event)
    ensures Played(d, path, events + [e]) == Saved(Played(d, path, events), path, e)
    decreases |events|
  {
    hide Saved;
    if events == [] {
      assert (events + [e])[1..] == [];
    } else {
      assert (events + [e])[1..] == events[1..] + [e] && (events + [e])[0] == events[0];
      PlayedSnoc(Saved(d, path, events[0]), path, events[1..], e);
    }
  }

  lemma {:induction false} ProfileStays(d: Disk, path: string, events: seq<Event>)
    requires path in d
    ensures path in Played(d, path, events)
    decreases |events|
  {
    if events != [] {
      SavedText(d, path, events[0]);
      hide Saved;
      ProfileStays(Saved(d, path, events[0]), path, events[1..]);
    }
  }

  /** After the k-th edit of a run, if it went through, the backup is the profile as it was
      after edit k - 1, whatever happened before. */
  lemma BackupIsPrevious(d: Disk, path: string, events: seq<Event>, k: nat)
    requires path in d && 0 < k <= |events|
    requires var before, e := Played(d, path, events[..k - 1]), events[k - 1];
      Writes(before, path, e) && e.fault1.Fine? && e.fault2.Fine?
    ensures var before, after := Played(d, path, events[..k - 1]), Played(d, path, events[..k]);
      && path in before && Backup(path) in after && after[Backup(path)] == before[path]
      && path in after && after[path] == Apply(before[path], path, events[k - 1].op).text
  {
    hide Saved, Played, Apply;
    var before, e := events[..k - 1], events[k - 1];
    assert events[..k] == before + [e];
    PlayedSnoc(d, path, before, e);
    ProfileStays(d, path, before);
    SavedText(Played(d, path, before), path, e);
  }

  // ---------- the program ----------

  /** The files, and every state they have been in. */
  class FileSystem {
    var files: Disk
    ghost var past: seq<Disk>

    constructor (d: Disk)
      ensures files == d && past == []
    {
      files, past := d, [];
    }

    /** The write to the temporary file: it can stop anywhere. */
    method Fill(tmp: string, data: string, n: nat)
      requires tmp !in files && n <= |data|
      modifies this
      ensures files == old(files)[tmp := data[..n]]
      ensures past == old(past) + Filling(old(files), tmp, data, n)
    {
      ghost var d := files;
      files := files[tmp := ""];
      past := past + [files];
      assert past == old(past) + Filling(d, tmp, data, 0);
      for i := 0 to n
        invariant files == d[tmp := data[..i]] && past == old(past) + Filling(d, tmp, data, i)
      {
        files := files[tmp := data[..i + 1]];
        past := past + [files];
      }
    }

    /** atomicWriteFile: the deferred os.Remove runs on every path, and after the rename it
        finds nothing. */
    method AtomicWriteFile(path: string, data: string, tmp: string, fault: Fault) returns (ok: bool)
      requires tmp !in files && tmp != path
      modifies this
      ensures ok == fault.Fine? && files == Written(old(files), path, data, fault)
      ensures past == old(past) + WriteStates(old(files), tmp, path, data, fault)
    {
      ghost var d := files;
      if fault.CreateFails? {
        return false;
      }
      Fill(tmp, data, if fault.WriteFails? && fault.at < |data| then fault.at else |data|);
      assert data[..|data|] == data;
      if fault.Fine? {
        files := (files - {tmp})[path := files[tmp]];
        assert files == d[path := data];
      } else {
        files := files - {tmp};
        assert files == d;
      }
      past := past + [files];
      return fault.Fine?;
    }

    /** An edit from the file to the file: read, compute, save the backup, save the profile. */
    method Edit(path: string, e: Event) returns (r: Outcome, ok: bool)
      requires path in files && FreshNames(files, path, e)
      modifies this
      ensures r == Output(old(files), path, e)
      ensures ok == (r.Done? && (e.write ==> e.fault1.Fine? && e.fault2.Fine?))
      ensures files == Saved(old(files), path, e)
      ensures past == old(past) + EditStates(old(files), path, e)
    {
      BackupDiffers(path);
      hide Apply, WriteStates, Written;
      var original := files[path];
      r := Compute(original, path, e.op);
      if !e.write || r.Failed? {
        return r, r.Done?;
      }
      WrittenKeeps(files, Backup(path), original, e.fault1);
      ok := AtomicWriteFile(Backup(path), original, e.tmp1, e.fault1);
      if !ok {
        return;
      }
      ok := AtomicWriteFile(path, r.text, e.tmp2, e.fault2);
    }
  }

  lemma WrittenKeeps(d: Disk, path: string, data: string, fault: Fault)
    ensures forall f | f != path :: f in Written(d, path, data, fault) <==> f in d
  {
  }

  /** The five commands. */
  method Compute(text: string, profile: string, op: Op) returns (r: Outcome)
    ensures r == Apply(text, profile, op)
  {
    hide Edits.Install, Edits.Remove, Edits.Rename, Edits.Replace;
    match op
    case InstallOp(opts) => r := Editor.Install(text, profile, opts, true);
    case AddOp(opts) => r := Editor.Install(text, profile, opts, false);
    case RemoveOp(names) => r := Editor.Remove(text, names);
    case RenameOp(from, to) => r := Editor.Rename(text, from, to);
    case ReplaceOp(name, node) => r := Editor.Replace(text, profile, name, node);
  }
}

/** What holds in every state that any interleaving of foreground processes can reach, with
    crashes and cancellations: one owner, an honest owner record, and a takeover. */
module Takeover {
  import opened Text
  import opened Records
  import opened Ownership

  lemma {:induction false} InvAfter(s: State, run: seq<Step>)
    requires Inv(s)
    ensures Inv(After(s, run))
    decreases |run|
  {
    hide Inv, Enabled, Next;
    if run != [] {
      var before, step := After(s, run[..|run| - 1]), run[|run| - 1];
      InvAfter(s, run[..|run| - 1]);
      if Enabled(before, step) {
        StepKeeps(before, step);
      }
    }
  }

  lemma InvReachable(run: seq<Step>)
    ensures Inv(After(START, run))
  {
    assert Inv(START);
    hide Inv;
    InvAfter(START, run);
  }

  // ---------- safety ----------

  /** At most one process owns a key; a running server means that its process holds the lock;
      no two servers of one key run at once; and the holder of a lock is alive. */
  lemma OneOwner(run: seq<Step>)
    ensures var s := After(START, run);
      && (forall p, q | p in s.procs && q in s.procs && s.procs[p].owned && s.procs[q].owned
            && s.procs[p].key == s.procs[q].key :: p == q)
      && (forall p | p in s.servers :: p in s.procs && s.procs[p].key in s.locks && s.locks[s.procs[p].key] == p)
      && (forall p, q | p in s.servers && q in s.servers && s.procs[p].key == s.procs[q].key :: p == q)
      && (forall k | k in s.locks :: s.locks[k] in s.procs && s.procs[s.locks[k]].owned)
  {
    InvReachable(run);
    hide After;
    var s := After(START, run);
    HoldersAre(s);
    ServersHold(s);
  }

  lemma HoldersAre(s: State)
    requires Inv(s)
    ensures forall p | p in s.procs && s.procs[p].owned :: s.procs[p].key in s.locks && s.locks[s.procs[p].key] == p
    ensures forall k | k in s.locks :: s.locks[k] in s.procs && s.procs[s.locks[k]].owned
  {
    hide FileOk, NotesOk;
    forall p | p in s.procs ensures ProcOk(s, p, s.procs[p]) {
    }
    forall k | k in s.locks ensures s.locks[k] in s.procs && s.procs[s.locks[k]].owned {
      assert LockOk(s, k) && ProcOk(s, s.locks[k], s.procs[s.locks[k]]);
    }
  }

  lemma ServersHold(s: State)
    requires Inv(s)
    ensures forall p | p in s.servers :: p in s.procs && s.procs[p].owned
    ensures forall p | p in s.servers :: s.procs[p].key in s.locks && s.locks[s.procs[p].key] == p
  {
    hide FileOk, NotesOk;
    forall p | p in s.servers ensures p in s.procs && ProcOk(s, p, s.procs[p]) {
    }
  }

  /** From the end of tryAcquire until the unlock, the lock file decodes to the owner's own pid
      and link hash, and whoever waits with the same link finds that owner. */
  lemma OwnerRecord(run: seq<Step>, p: int)
    requires var s := After(START, run);
      p in s.procs && (s.procs[p].phase.Owner? || s.procs[p].phase.Serving? || s.procs[p].phase.Closed?)
    ensures var s := After(START, run);
      var me := s.procs[p];
      && me.key in s.files && Decode(s.files[me.key]) == Some(Record(p, me.hash))
      && forall hash :: Matching(s.files[me.key], hash)
           == if hash != [] && hash == me.hash then Some(Record(p, me.hash)) else None
  {
    InvReachable(run);
    hide After;
    var s := After(START, run);
    assert ProcOk(s, p, s.procs[p]);
    DecodeWhole(Record(p, s.procs[p].hash));
    hide Decode, Encode, NotesOk;
  }

  // ---------- where a record comes from ----------

  /** The state in which this process, holding the lock, has just completed this record. */
  predicate Published(s: State, key: Key, r: Record) {
    && key in s.files && Decode(s.files[key]) == Some(r)
    && r.pid in s.procs && s.procs[r.pid].key == key && s.procs[r.pid].hash == r.linkHash
    && key in s.locks && s.locks[key] == r.pid
  }

  /** A step that changes what a file decodes to is a write of the lock holder. */
  lemma FileChange(s: State, step: Step, key: Key, r: Record)
    requires Inv(s) && Enabled(s, step)
    requires var t := Next(s, step); key in t.files && Decode(t.files[key]) == Some(r)
    ensures (key in s.files && Decode(s.files[key]) == Some(r))
         || (step == By(r.pid, Write) && Published(Next(s, step), key, r))
  {
    if step.By? && step.act.Write? {
      hide Decode, Inv, Published;
      if key !in s.files || Next(s, step).files[key] != s.files[key] {
        WrittenRecord(s, step.pid, key, r);
      }
    } else {
      OtherStepsErase(s, step, key);
      hide Decode, Inv, Published, Enabled, Next;
    }
  }

  /** A step that is no write leaves a file alone or empty. */
  lemma OtherStepsErase(s: State, step: Step, key: Key)
    requires Enabled(s, step) && step != By(step.pid, Write) && key in Next(s, step).files
    ensures (key in s.files && Next(s, step).files[key] == s.files[key]) || Decode(Next(s, step).files[key]).None?
  {
    EmptyDecodes();
    hide Decode, Matching;
  }

  lemma EmptyDecodes()
    ensures Decode([]).None?
  {
  }

  lemma WrittenRecord(s: State, p: int, key: Key, r: Record)
    requires Inv(s) && Enabled(s, By(p, Write))
    requires var t := Next(s, By(p, Write));
      key in t.files && Decode(t.files[key]) == Some(r) && (key !in s.files || t.files[key] != s.files[key])
    ensures r.pid == p && Published(Next(s, By(p, Write)), key, r)
  {
    hide Decode, Encode, Json, NotesOk;
    var me, t := s.procs[p], Next(s, By(p, Write));
    assert ProcOk(s, p, me) && key == me.key;
    WriteStep(s, p);
    assert ProcOk(t, p, t.procs[p]);
    DecodePrefix(Record(p, me.hash), me.phase.n + 1);
  }

  /** Either the last step completed the record, or it was there before. */
  predicate LastStepPublished(run: seq<Step>, key: Key, r: Record)
    requires run != [] && Inv(After(START, run[..|run| - 1]))
    requires var s := After(START, run); key in s.files && Decode(s.files[key]) == Some(r)
    ensures var s := After(START, run[..|run| - 1]);
      LastStepPublished(run, key, r) || (key in s.files && Decode(s.files[key]) == Some(r))
    ensures LastStepPublished(run, key, r) ==>
      run[|run| - 1] == By(r.pid, Write) && Published(After(START, run), key, r)
  {
    hide Inv, Decode, Published, Next, Enabled;
    assert After(START, run) == Take(After(START, run[..|run| - 1]), run[|run| - 1]);
    var before, step := After(START, run[..|run| - 1]), run[|run| - 1];
    if Enabled(before, step) then
      FileChange(before, step, key, r);
      step == By(r.pid, Write) && Published(Next(before, step), key, r)
    else false
  }

  lemma NothingAtStart()
    ensures After(START, []).files == map[]
  {
  }

  /** Whatever record the lock file decodes to, at some earlier moment the process it names
      held the lock and had just written it to the end; never is it pieced together. */
  lemma {:induction false} RecordWasWritten(run: seq<Step>, key: Key, r: Record) returns (i: nat)
    requires var s := After(START, run); key in s.files && Decode(s.files[key]) == Some(r)
    ensures 0 < i <= |run| && run[i - 1] == By(r.pid, Write)
    ensures Published(After(START, run[..i]), key, r)
    decreases |run|
  {
    hide Inv, Decode, Published, After, LastStepPublished;
    var n := |run|;
    NothingAtStart();
    if n > 0 {
      assert run[..n] == run;
      InvReachable(run[..n - 1]);
      if LastStepPublished(run, key, r) {
        i := n;
      } else {
        i := RecordWasWritten(run[..n - 1], key, r);
        assert run[..n - 1][..i] == run[..i];
      }
    }
  }

  /** The content is what was written of one record, from nothing to all of it. */
  ghost predicate IsPrefix(content: string) {
    exists r: Record, n: nat :: Proper(r) && n <= |Encode(r)| && content == Encode(r)[..n]
  }

  lemma EmptyIsPrefix()
    ensures IsPrefix([])
  {
    var r := Record(1, []);
    assert Proper(r) && Encode(r)[..0] == [];
  }

  lemma WriteWritesPrefix(s: State, p: int)
    requires Inv(s) && Enabled(s, By(p, Write))
    ensures var t := Next(s, By(p, Write));
      p in t.procs && t.procs[p].key in t.files && IsPrefix(t.files[t.procs[p].key])
  {
    hide Encode, NotesOk, IsPrefix, Overwrite;
    var t, me := Next(s, By(p, Write)), s.procs[p];
    WriteStep(s, p);
    assert ProcOk(t, p, t.procs[p]);
    PrefixOf(Record(p, me.hash), me.phase.n + 1);
  }

  lemma OnlyWriteOrErase(s: State, step: Step, key: Key)
    requires Enabled(s, step) && key in Next(s, step).files
    ensures || (key in s.files && Next(s, step).files[key] == s.files[key])
            || Next(s, step).files[key] == []
            || (step.By? && step.act.Write? && s.procs[step.pid].key == key)
  {
    hide Encode, Matching;
  }

  lemma StepWritesPrefix(s: State, step: Step, key: Key)
    requires Inv(s) && Enabled(s, step) && key in Next(s, step).files
    ensures (key in s.files && Next(s, step).files[key] == s.files[key]) || IsPrefix(Next(s, step).files[key])
  {
    hide IsPrefix, Inv, Do, Encode;
    EmptyIsPrefix();
    OnlyWriteOrErase(s, step, key);
    if step.By? && step.act.Write? && s.procs[step.pid].key == key {
      WriteWritesPrefix(s, step.pid);
      WriterKey(s, step.pid);
    }
  }

  lemma WriterKey(s: State, p: int)
    requires Enabled(s, By(p, Write))
    ensures p in Next(s, By(p, Write)).procs && Next(s, By(p, Write)).procs[p].key == s.procs[p].key
  {
    hide Encode, Overwrite;
  }

  lemma PrefixOf(r: Record, n: nat)
    requires Proper(r) && n <= |Encode(r)|
    ensures IsPrefix(Encode(r)[..n])
  {
  }

  /** Every lock file that can be reached holds the beginning of one record, or all of it. */
  lemma {:induction false} FilesArePrefixes(run: seq<Step>, key: Key)
    requires key in After(START, run).files
    ensures IsPrefix(After(START, run).files[key])
    decreases |run|
  {
    NoStep(START);
    hide Enabled, Next, After, IsPrefix, Inv;
    if run != [] {
      var before, step := After(START, run[..|run| - 1]), run[|run| - 1];
      AfterLast(START, run);
      InvReachable(run[..|run| - 1]);
      if Enabled(before, step) {
        StepWritesPrefix(before, step, key);
      }
      if key in before.files {
        FilesArePrefixes(run[..|run| - 1], key);
      }
    }
  }

  // ---------- takeover ----------

  /** When the holder dies or unlocks, the key is free at once and its server is gone. */
  lemma Freed(s: State, p: int, step: Step)
    requires Inv(s) && p in s.procs && s.procs[p].owned && Enabled(s, step)
    requires step == Crash(p) || step == By(p, Release)
    ensures s.procs[p].key !in Next(s, step).locks && p !in Next(s, step).servers
    ensures step == By(p, Release) ==> p !in s.servers
  {
    assert ProcOk(s, p, s.procs[p]);
    hide FileOk, NotesOk, Encode;
  }

  /** A step of p that moves it to this phase and leaves all locks alone. */
  predicate Moves(s: State, t: State, p: int, phase: Phase) {
    p in s.procs && p in t.procs && t.procs[p].key == s.procs[p].key && t.procs[p].phase == phase && t.locks == s.locks
  }

  lemma LookMoves(s: State, p: int)
    requires Inv(s) && p in s.procs && s.procs[p].phase.Waiting?
    ensures var t := Take(s, By(p, Look)); Moves(s, t, p, Probing) || Moves(s, t, p, Pausing)
  {
    assert ProcOk(s, p, s.procs[p]);
    hide Matching, Encode, NotesOk;
  }

  lemma ProbeMoves(s: State, p: int, ok: bool)
    requires Inv(s) && p in s.procs && s.procs[p].phase.Probing?
    ensures Moves(s, Take(s, By(p, Probe(ok))), p, Pausing)
  {
    assert ProcOk(s, p, s.procs[p]);
    hide Matching, Encode, NotesOk;
  }

  lemma TimerMoves(s: State, p: int)
    requires Inv(s) && p in s.procs && s.procs[p].phase.Pausing?
    ensures Moves(s, Take(s, By(p, Timer)), p, Trying)
  {
    assert ProcOk(s, p, s.procs[p]);
    hide Matching, Encode, NotesOk;
  }

  lemma TakeKeeps(s: State, step: Step)
    requires Inv(s)
    ensures Inv(Take(s, step))
  {
    hide Inv, Enabled, Next;
    if Enabled(s, step) {
      StepKeeps(s, step);
    }
  }

  /** A process that waits is back at the lock after at most three steps of its own, whatever it
      reads and however its probe ends; none of them touches a lock. */
  lemma NextPoll(s: State, p: int, ok: bool) returns (run: seq<Step>)
    requires Inv(s) && p in s.procs
    requires var phase := s.procs[p].phase; phase.Waiting? || phase.Probing? || phase.Pausing? || phase.Trying?
    ensures |run| <= 3 && forall i | 0 <= i < |run| :: run[i].By? && run[i].pid == p
    ensures Moves(s, After(s, run), p, Trying)
  {
    hide Inv, Take;
    if s.procs[p].phase.Trying? {
      run := [];
    } else if s.procs[p].phase.Pausing? {
      TimerMoves(s, p);
      run := [By(p, Timer)];
      AfterOne(s, run[0]);
    } else if s.procs[p].phase.Probing? {
      ProbeMoves(s, p, ok);
      TakeKeeps(s, By(p, Probe(ok)));
      TimerMoves(Take(s, By(p, Probe(ok))), p);
      run := [By(p, Probe(ok)), By(p, Timer)];
      AfterTwo(s, run[0], run[1]);
    } else {
      run := AfterLook(s, p, ok);
    }
  }

  lemma AfterLook(s: State, p: int, ok: bool) returns (run: seq<Step>)
    requires Inv(s) && p in s.procs && s.procs[p].phase.Waiting?
    ensures |run| <= 3 && forall i | 0 <= i < |run| :: run[i].By? && run[i].pid == p
    ensures Moves(s, After(s, run), p, Trying)
  {
    hide Inv, Take;
    LookMoves(s, p);
    TakeKeeps(s, By(p, Look));
    var t := Take(s, By(p, Look));
    if t.procs[p].phase.Probing? {
      ProbeMoves(t, p, ok);
      TakeKeeps(t, By(p, Probe(ok)));
      TimerMoves(Take(t, By(p, Probe(ok))), p);
      run := [By(p, Look), By(p, Probe(ok)), By(p, Timer)];
      AfterThree(s, run[0], run[1], run[2]);
    } else {
      TimerMoves(t, p);
      run := [By(p, Look), By(p, Timer)];
      AfterTwo(s, run[0], run[1]);
    }
  }

  lemma AfterOne(s: State, a: Step)
    ensures After(s, [a]) == Take(s, a)
  {
    hide Take;
    assert [a][..0] == [];
  }

  lemma AfterTwo(s: State, a: Step, b: Step)
    ensures After(s, [a, b]) == Take(Take(s, a), b)
  {
    hide Take;
    AfterOne(s, a);
    assert [a, b][..1] == [a];
  }

  lemma AfterThree(s: State, a: Step, b: Step, c: Step)
    ensures After(s, [a, b, c]) == Take(Take(Take(s, a), b), c) == After(Take(s, a), [b, c])
  {
    hide Take;
    AfterTwo(s, a, b);
    AfterTwo(Take(s, a), b, c);
    assert [a, b, c][..2] == [a, b];
  }

  /** Only a poll of a process takes a free lock, and a lock does not change hands. */
  lemma LockChange(s: State, step: Step, key: Key)
    requires Inv(s) && Enabled(s, step) && key in Next(s, step).locks
    ensures var q := Next(s, step).locks[key];
      (key in s.locks && s.locks[key] == q) || (key !in s.locks && step == By(q, TryLock))
  {
    hide Matching, Encode;
  }

  lemma NoStep(s: State)
    ensures After(s, []) == s
  {
  }

  lemma AfterLast(s: State, run: seq<Step>)
    requires run != []
    ensures After(s, run) == Take(After(s, run[..|run| - 1]), run[|run| - 1])
  {
  }

  /** q holds the key in every state of the run behind step i. */
  ghost predicate HeldSince(s: State, run: seq<Step>, key: Key, q: int, i: nat) {
    forall j | i < j <= |run| :: var t := After(s, run[..j]); key in t.locks && t.locks[key] == q
  }

  lemma HeldLonger(s: State, run: seq<Step>, key: Key, q: int, i: nat)
    requires run != [] && key in After(s, run).locks && After(s, run).locks[key] == q
    requires i == |run| - 1 || HeldSince(s, run[..|run| - 1], key, q, i)
    ensures HeldSince(s, run, key, q, i)
  {
    hide After;
    var n := |run|;
    forall j | i < j <= n
      ensures var t := After(s, run[..j]); key in t.locks && t.locks[key] == q
    {
      if j < n {
        assert run[..n - 1][..j] == run[..j];
      } else {
        assert run[..n] == run;
      }
    }
  }

  /** Once free, a key is locked later only because its holder took it since. */
  lemma {:induction false} LockHistory(s: State, run: seq<Step>, key: Key) returns (i: nat)
    requires Inv(s) && key !in s.locks && key in After(s, run).locks
    ensures i < |run| && run[i] == By(After(s, run).locks[key], TryLock)
    ensures key !in After(s, run[..i]).locks && HeldSince(s, run, key, After(s, run).locks[key], i)
    decreases |run|
  {
    NoStep(s);
    hide After, Inv, Enabled, Next, HeldSince;
    assert run != [];
    var n, q := |run|, After(s, run).locks[key];
    var before, step := After(s, run[..n - 1]), run[n - 1];
    InvAfter(s, run[..n - 1]);
    AfterLast(s, run);
    if Enabled(before, step) {
      LockChange(before, step, key);
    }
    if key in before.locks {
      i := LockHistory(s, run[..n - 1], key);
      assert run[..n - 1][..i] == run[..i];
    } else {
      i := n - 1;
    }
    HeldLonger(s, run, key, q, i);
  }

  /** The poll took the lock, or its present holder took it in the run since and holds it still. */
  ghost predicate Acquires(s: State, run: seq<Step>, p: int, key: Key, i: nat) {
    var before := After(s, run);
    var after := Take(before, By(p, TryLock));
    || (&& key in after.locks && after.locks[key] == p && p in after.procs
        && after.procs[p].owned && after.procs[p].phase.Locked?)
    || (&& i < |run| && key in before.locks && before.locks[key] != p
        && run[i] == By(before.locks[key], TryLock) && key !in After(s, run[..i]).locks
        && HeldSince(s, run, key, before.locks[key], i))
  }

  /** From any state in which the key is free, the next poll of a waiting process takes the lock,
      unless another process took it in between and holds it still. */
  lemma NextPollAcquires(s: State, run: seq<Step>, p: int) returns (i: nat)
    requires Inv(s) && p in After(s, run).procs && After(s, run).procs[p].phase.Trying?
    requires After(s, run).procs[p].key !in s.locks
    ensures Acquires(s, run, p, After(s, run).procs[p].key, i)
  {
    i := 0;
    InvAfter(s, run);
    var before := After(s, run);
    var key := before.procs[p].key;
    PollResult(before, p);
    hide Inv, Take;
    if key in before.locks {
      i := LockHistory(s, run, key);
    }
  }

  /** Takeover: when the owner of a key crashes or unlocks, in any reachable state, its server is
      gone and the key is free; and whatever happens afterwards, the next poll of a process that
      waits for the key takes the lock, unless another process took it since and holds it still.
      An owner that unlocks has closed its server before. */
  lemma WaiterTakesOver(run: seq<Step>, owner: int, end: Step, later: seq<Step>, p: int) returns (i: nat)
    requires var s := After(START, run); owner in s.procs && s.procs[owner].owned && Enabled(s, end)
    requires end == Crash(owner) || end == By(owner, Release)
    requires var t := After(Next(After(START, run), end), later);
      p in t.procs && t.procs[p].phase.Trying? && t.procs[p].key == After(START, run).procs[owner].key
    ensures var key, freed := After(START, run).procs[owner].key, Next(After(START, run), end);
      && key !in freed.locks && owner !in freed.servers
      && (end == By(owner, Release) ==> owner !in After(START, run).servers)
      && Acquires(freed, later, p, key, i)
  {
    InvReachable(run);
    var s := After(START, run);
    hide After, Inv, Enabled, Next, HeldSince, Take;
    Freed(s, owner, end);
    StepKeeps(s, end);
    i := NextPollAcquires(Next(s, end), later, p);
  }

  lemma PollResult(s: State, p: int)
    requires Inv(s) && p in s.procs && s.procs[p].phase.Trying?
    ensures var key, t := s.procs[p].key, Take(s, By(p, TryLock));
      if key in s.locks then s.locks[key] != p
      else key in t.locks && t.locks[key] == p && t.procs[p].owned && t.procs[p].phase.Locked?
  {
    assert ProcOk(s, p, s.procs[p]);
    hide NotesOk, Encode;
  }

  // ---------- announcements ----------

  /** A process announces standby at most once, never after it has become owner, and takes over
      or serves at most once; taking over is said only by one that stood by. */
  lemma Announcements(run: seq<Step>, p: int)
    requires p in After(START, run).procs
    ensures var notes := After(START, run).procs[p].notes;
      && (forall i, j | 0 <= i < j < |notes| :: notes[i] != notes[j])
      && (forall i, j | 0 <= i < j < |notes| :: notes[i] != StandbyReady ==> notes[j] != StandbyReady)
      && (forall i | 0 <= i < |notes| && notes[i] == TakingOver :: i == 1 && notes[0] == StandbyReady)
  {
    InvReachable(run);
    hide After;
    var s := After(START, run);
    assert ProcOk(s, p, s.procs[p]);
    hide FileOk;
  }

  /** p is the same process in both states. */
  predicate SameProcess(s: State, t: State, p: int) {
    p in s.procs && p in t.procs && s.procs[p].key == t.procs[p].key && s.procs[p].hash == t.procs[p].hash
  }

  /** What a process that looks at the lock file must find to go on to the probe. */
  predicate SeesOwner(s: State, p: int) {
    && p in s.procs && s.procs[p].key in s.files
    && Matching(s.files[s.procs[p].key], s.procs[p].hash).Some?
  }

  /** The steps of one process leave the others as they are. */
  lemma OthersStay(s: State, q: int, act: Act, p: int)
    requires Enabled(s, By(q, act)) && p != q && p in Next(s, By(q, act)).procs
    ensures p in s.procs && Next(s, By(q, act)).procs[p] == s.procs[p]
  {
    hide Matching, Encode;
  }

  lemma OwnProbing(s: State, p: int, act: Act)
    requires Enabled(s, By(p, act)) && Next(s, By(p, act)).procs[p].phase.Probing?
    ensures SameProcess(s, Next(s, By(p, act)), p)
    ensures (act == Look && SeesOwner(s, p)) || s.procs[p].phase.Probing?
  {
    hide Matching, Encode;
  }

  lemma ProbingChange(s: State, step: Step, p: int)
    requires Enabled(s, step)
    requires p in Next(s, step).procs && Next(s, step).procs[p].phase.Probing?
    ensures SameProcess(s, Next(s, step), p)
    ensures (step == By(p, Look) && SeesOwner(s, p)) || s.procs[p].phase.Probing?
  {
    hide Do, CanDo, SeesOwner;
    if step.By? && step.pid == p {
      OwnProbing(s, p, step.act);
    } else if step.By? {
      OthersStay(s, step.pid, step.act, p);
    }
  }

  /** A process probes only after it has read an owner record of its own link from its own lock
      file. */
  lemma {:induction false} ProbingIsInformed(run: seq<Step>, p: int) returns (i: nat)
    requires p in After(START, run).procs && After(START, run).procs[p].phase.Probing?
    ensures i < |run| && run[i] == By(p, Look) && SeesOwner(After(START, run[..i]), p)
    ensures SameProcess(After(START, run[..i]), After(START, run), p)
    decreases |run|
  {
    var n := |run|;
    NoStep(START);
    hide Enabled, Next, SeesOwner, After;
    assert run != [];
    var before, step := After(START, run[..n - 1]), run[n - 1];
    AfterLast(START, run);
    if Enabled(before, step) {
      ProbingChange(before, step, p);
    }
    if Enabled(before, step) && step == By(p, Look) && SeesOwner(before, p) {
      i := n - 1;
    } else {
      i := ProbingIsInformed(run[..n - 1], p);
      assert run[..n - 1][..i] == run[..i];
    }
  }

  lemma OwnAnnounced(s: State, p: int, act: Act)
    requires Enabled(s, By(p, act))
    requires StandbyReady !in s.procs[p].notes && StandbyReady in Next(s, By(p, act)).procs[p].notes
    ensures act == Probe(true) && s.procs[p].phase.Probing?
  {
    hide Matching, Encode;
  }

  /** The announcement itself is made by that probe. */
  lemma StandbyAnnounced(s: State, step: Step, p: int)
    requires Enabled(s, step) && p in s.procs && p in Next(s, step).procs
    requires StandbyReady !in s.procs[p].notes && StandbyReady in Next(s, step).procs[p].notes
    ensures step == By(p, Probe(true)) && s.procs[p].phase.Probing?
  {
    hide Do, CanDo;
    if step.By? && step.pid == p {
      OwnAnnounced(s, p, step.act);
    } else if step.By? {
      OthersStay(s, step.pid, step.act, p);
    }
  }

  lemma OwnStepSame(s: State, p: int, act: Act)
    requires Enabled(s, By(p, act))
    ensures SameProcess(s, Next(s, By(p, act)), p)
  {
    hide Matching, Encode;
  }

  /** A process that has announced anything is not a new one. */
  lemma NotedBefore(s: State, step: Step, p: int)
    requires Enabled(s, step) && p in Next(s, step).procs && Next(s, step).procs[p].notes != []
    ensures SameProcess(s, Next(s, step), p)
  {
    hide Do, CanDo;
    if step.By? && step.pid == p {
      OwnStepSame(s, p, step.act);
    } else if step.By? {
      OthersStay(s, step.pid, step.act, p);
    }
  }

  /** Whoever has announced standby has, at an earlier step of the same process, read an owner
      record of its own link from its own lock file. */
  lemma {:induction false} StandbyIsInformed(run: seq<Step>, p: int) returns (i: nat)
    requires p in After(START, run).procs && StandbyReady in After(START, run).procs[p].notes
    ensures i < |run| && run[i] == By(p, Look) && SeesOwner(After(START, run[..i]), p)
    ensures SameProcess(After(START, run[..i]), After(START, run), p)
    decreases |run|
  {
    var n := |run|;
    NoStep(START);
    hide Enabled, Next, SeesOwner, After;
    assert run != [];
    var before, step := After(START, run[..n - 1]), run[n - 1];
    AfterLast(START, run);
    if Enabled(before, step) {
      NotedBefore(before, step, p);
      if StandbyReady !in before.procs[p].notes {
        StandbyAnnounced(before, step, p);
      }
    }
    if StandbyReady in before.procs[p].notes {
      i := StandbyIsInformed(run[..n - 1], p);
    } else {
      i := ProbingIsInformed(run[..n - 1], p);
    }
    assert run[..n - 1][..i] == run[..i];
  }
}

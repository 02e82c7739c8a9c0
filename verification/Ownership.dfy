/** Foreground processes that compete for one listener (cmd/xcore-bridge/policy_runtime.go):
    a step system over any number of processes and keys.  The lock of a key is a non-blocking
    file lock, which the kernel releases when its holder dies; the owner record goes into the
    same file, in separate steps that readers can observe. */
module Ownership {
  import opened Text
  import opened Records

  /** The lock file of one profile path and listener. */
  type Key = string

  /** Where a process stands.  From Locked to Closed it holds the lock. */
  datatype Phase = Trying | Locked | Writing(n: nat) | Failing | Owner | Serving | Closed
                 | Waiting | Probing | Pausing | Done

  /** What a process tells its user and its log. */
  datatype Note = StandbyReady | TakingOver | Ready

  datatype Proc = Proc(key: Key, hash: string, phase: Phase, owned: bool, standbyReady: bool, cancelled: bool,
                       notes: seq<Note>)

  /** Live processes by pid, lock files, lock holders, and the processes whose server runs. */
  datatype State = State(procs: map<int, Proc>, files: map<Key, string>, locks: map<Key, int>, servers: set<int>)

  /** What one process does next. */
  datatype Act =
    | TryLock          // flock, exclusive and non-blocking
    | LockError
    | Truncate
    | Write            // one more character of the record
    | Acquired         // tryAcquire returns
    | WriteError       // truncate or write fails
    | StartServer
    | StartFails
    | Cancel
    | StopServer       // the deferred server.Close
    | Release          // unlock and close the file
    | Look             // matchingOwner
    | Probe(ok: bool)  // WaitForReady
    | Timer            // the pause ends
    | Stop             // cancelled while waiting

  /** A process starts (openManagedPolicyRuntime), goes on, or dies. */
  datatype Step = Spawn(pid: int, key: Key, hash: string) | By(pid: int, act: Act) | Crash(pid: int)

  const START := State(map[], map[], map[], {})

  function Data(pid: int, p: Proc): string
    requires Proper(Record(pid, p.hash))
  {
    Encode(Record(pid, p.hash))
  }

  /** WriteAt(data, 0), as far as it got: bytes behind what is written stay. */
  function Overwrite(file: string, data: string): string {
    data + if |file| > |data| then file[|data|..] else []
  }

  predicate CanDo(pid: int, p: Proc, act: Act)
    requires Proper(Record(pid, p.hash))
  {
    match act
    case TryLock => p.phase.Trying?
    case LockError => p.phase.Trying?
    case Truncate => p.phase.Locked?
    case Write => p.phase.Writing? && p.phase.n < |Data(pid, p)|
    case Acquired => p.phase.Writing? && p.phase.n == |Data(pid, p)|
    case WriteError => p.phase.Locked? || p.phase.Writing?
    case StartServer => p.phase.Owner?
    case StartFails => p.phase.Owner?
    case Cancel => true
    case StopServer => p.phase.Serving? && p.cancelled
    case Release => p.phase.Failing? || p.phase.Closed?
    case Look => p.phase.Waiting?
    case Probe(_) => p.phase.Probing?
    case Timer => p.phase.Pausing?
    case Stop => p.phase.Pausing? && p.cancelled
  }

  predicate Enabled(s: State, step: Step) {
    match step
    case Spawn(pid, _, hash) => pid !in s.procs && Proper(Record(pid, hash))
    case Crash(pid) => pid in s.procs
    case By(pid, act) =>
      && pid in s.procs && Proper(Record(pid, s.procs[pid].hash)) && s.procs[pid].key in s.files
      && CanDo(pid, s.procs[pid], act)
  }

  function With(s: State, pid: int, p: Proc): State {
    s.(procs := s.procs[pid := p])
  }

  function Do(s: State, pid: int, p: Proc, act: Act): State
    requires Proper(Record(pid, p.hash)) && p.key in s.files && CanDo(pid, p, act)
  {
    match act
    case TryLock =>
      if p.key in s.locks then With(s, pid, p.(phase := Waiting))
      else With(s, pid, p.(phase := Locked, owned := true)).(locks := s.locks[p.key := pid])
    case LockError => With(s, pid, p.(phase := Done))
    case Truncate => With(s, pid, p.(phase := Writing(0))).(files := s.files[p.key := []])
    case Write =>
      With(s, pid, p.(phase := Writing(p.phase.n + 1)))
      .(files := s.files[p.key := Overwrite(s.files[p.key], Data(pid, p)[..p.phase.n + 1])])
    case Acquired =>
      With(s, pid, p.(phase := Owner, notes := p.notes + if p.standbyReady then [TakingOver] else []))
    case WriteError => With(s, pid, p.(phase := Failing))
    case StartServer =>
      With(s, pid, p.(phase := Serving, notes := p.notes + [Ready])).(servers := s.servers + {pid})
    case StartFails => With(s, pid, p.(phase := Closed))
    case Cancel => With(s, pid, p.(cancelled := true))
    case StopServer => With(s, pid, p.(phase := Closed)).(servers := s.servers - {pid})
    case Release =>
      With(s, pid, p.(phase := Done, owned := false))
      .(locks := if p.owned then s.locks - {p.key} else s.locks)
    case Look =>
      With(s, pid, p.(phase := if Matching(s.files[p.key], p.hash).Some? && !p.standbyReady then Probing
                               else Pausing))
    case Probe(ok) =>
      With(s, pid, if ok then p.(phase := Pausing, standbyReady := true, notes := p.notes + [StandbyReady])
                   else p.(phase := Pausing))
    case Timer => With(s, pid, p.(phase := Trying))
    case Stop => With(s, pid, p.(phase := Done))
  }

  function Next(s: State, step: Step): State
    requires Enabled(s, step)
  {
    match step
    case Spawn(pid, key, hash) =>
      With(s, pid, Proc(key, hash, Trying, false, false, false, []))
      .(files := if key in s.files then s.files else s.files[key := []])
    case Crash(pid) =>
      State(s.procs - {pid}, s.files, map k | k in s.locks && s.locks[k] != pid :: s.locks[k], s.servers - {pid})
    case By(pid, act) => Do(s, pid, s.procs[pid], act)
  }

  /** A step that is not enabled does nothing. */
  function Take(s: State, step: Step): State {
    if Enabled(s, step) then Next(s, step) else s
  }

  /** The state after any interleaving. */
  function After(s: State, run: seq<Step>): State
    decreases |run|
  {
    if run == [] then s else Take(After(s, run[..|run| - 1]), run[|run| - 1])
  }

  // ---------- the invariant ----------

  predicate Holding(phase: Phase) {
    phase.Locked? || phase.Writing? || phase.Failing? || phase.Owner? || phase.Serving? || phase.Closed?
  }

  /** The notes of a process: standing by comes first and once, then taking over, then ready. */
  predicate NotesOk(p: Proc) {
    var first := if p.standbyReady then [StandbyReady] else [];
    var over := if p.standbyReady then [TakingOver] else [];
    match p.phase
    case Owner => p.notes == first + over
    case Serving => p.notes == first + over + [Ready]
    case Closed => p.notes == first + over || p.notes == first + over + [Ready]
    case Done => p.notes == first || p.notes == first + over || p.notes == first + over + [Ready]
    case Probing => p.notes == [] && !p.standbyReady
    case _ => p.notes == first
  }

  /** What the file of a process holds, as far as the process determines it. */
  predicate FileOk(s: State, pid: int, p: Proc)
    requires Proper(Record(pid, p.hash))
  {
    && p.key in s.files
    && (p.phase.Writing? ==> p.phase.n <= |Data(pid, p)| && s.files[p.key] == Data(pid, p)[..p.phase.n])
    && (p.phase.Owner? || p.phase.Serving? || p.phase.Closed? ==> s.files[p.key] == Data(pid, p))
  }

  predicate ProcOk(s: State, pid: int, p: Proc) {
    && Proper(Record(pid, p.hash))
    && (p.owned <==> Holding(p.phase))
    && (p.owned <==> p.key in s.locks && s.locks[p.key] == pid)
    && (pid in s.servers <==> p.phase.Serving?)
    && FileOk(s, pid, p)
    && NotesOk(p)
  }

  predicate LockOk(s: State, key: Key)
    requires key in s.locks
  {
    s.locks[key] in s.procs && s.procs[s.locks[key]].key == key
  }

  predicate Inv(s: State) {
    && (forall pid | pid in s.procs :: ProcOk(s, pid, s.procs[pid]))
    && (forall key | key in s.locks :: LockOk(s, key))
    && (forall pid | pid in s.servers :: pid in s.procs)
  }

  /** How the step of one process may change what it shares with others: only the holder
      writes, only a free lock is taken, and only one's own lock is given back. */
  ghost predicate Local(s: State, t: State, pid: int)
    requires pid in s.procs
  {
    var key, owned := s.procs[pid].key, s.procs[pid].owned;
    && pid in t.procs && t.procs[pid].key == key && t.procs == s.procs[pid := t.procs[pid]]
    && (forall q | q != pid :: q in t.servers <==> q in s.servers)
    && key in s.files && key in t.files && t.files == s.files[key := t.files[key]]
    && (t.files[key] == s.files[key] || owned)
    && (t.locks == s.locks || (key !in s.locks && t.locks == s.locks[key := pid])
        || (owned && t.locks == s.locks - {key}))
  }

  /** One process keeps its part, so all do. */
  lemma LocalKeepsOthers(s: State, t: State, pid: int, q: int)
    requires Inv(s) && pid in s.procs && Local(s, t, pid) && q in s.procs && q != pid
    ensures q in t.procs && ProcOk(t, q, t.procs[q])
  {
    var me, other := s.procs[pid], s.procs[q];
    assert ProcOk(s, pid, me) && ProcOk(s, q, other);
    assert t.procs[q] == other;
    hide NotesOk, Encode;
    if other.key == me.key {
      assert other.owned ==> !me.owned && t.locks == s.locks;
    }
  }

  lemma LocalKeepsLocks(s: State, t: State, pid: int, key: Key)
    requires Inv(s) && pid in s.procs && Local(s, t, pid) && key in t.locks
    ensures LockOk(t, key)
  {
    hide ProcOk;
    assert key in s.locks ==> LockOk(s, key);
  }

  lemma LocalKeeps(s: State, t: State, pid: int)
    requires Inv(s) && pid in s.procs && Local(s, t, pid) && ProcOk(t, pid, t.procs[pid])
    ensures Inv(t)
  {
    hide ProcOk, LockOk;
    forall q | q in t.procs ensures ProcOk(t, q, t.procs[q]) {
      if q != pid { LocalKeepsOthers(s, t, pid, q); }
    }
    forall key | key in t.locks ensures LockOk(t, key) {
      LocalKeepsLocks(s, t, pid, key);
    }
    hide Local;
    forall q | q in t.servers ensures q in t.procs {
      ServerLives(s, t, pid, q);
    }
  }

  lemma ServerLives(s: State, t: State, pid: int, q: int)
    requires Inv(s) && pid in s.procs && Local(s, t, pid) && q in t.servers
    ensures q in t.procs
  {
    hide ProcOk, LockOk;
  }

  // ---------- every step keeps it ----------

  lemma WriteStep(s: State, pid: int)
    requires Inv(s) && Enabled(s, By(pid, Write))
    ensures Inv(Next(s, By(pid, Write)))
  {
    var p, t := s.procs[pid], Next(s, By(pid, Write));
    assert ProcOk(s, pid, p);
    var data, n := Data(pid, p), p.phase.n;
    assert Overwrite(data[..n], data[..n + 1]) == data[..n + 1];
    hide NotesOk, Encode, Overwrite, Inv;
    LocalKeeps(s, t, pid);
  }

  lemma LockStep(s: State, pid: int)
    requires Inv(s) && Enabled(s, By(pid, TryLock))
    ensures Inv(Next(s, By(pid, TryLock)))
  {
    assert ProcOk(s, pid, s.procs[pid]);
    hide Encode, Inv;
    LocalKeeps(s, Next(s, By(pid, TryLock)), pid);
  }

  lemma ReleaseStep(s: State, pid: int)
    requires Inv(s) && Enabled(s, By(pid, Release))
    ensures Inv(Next(s, By(pid, Release)))
  {
    assert ProcOk(s, pid, s.procs[pid]);
    hide Encode, Inv;
    LocalKeeps(s, Next(s, By(pid, Release)), pid);
  }

  lemma SpawnStep(s: State, pid: int, key: Key, hash: string)
    requires Inv(s) && Enabled(s, Spawn(pid, key, hash))
    ensures Inv(Next(s, Spawn(pid, key, hash)))
  {
    var t := Next(s, Spawn(pid, key, hash));
    hide Encode;
    forall q | q in t.procs ensures ProcOk(t, q, t.procs[q]) {
      assert q != pid ==> ProcOk(s, q, s.procs[q]);
      assert key in s.locks ==> LockOk(s, key);
    }
    hide ProcOk;
    forall k | k in t.locks ensures LockOk(t, k) {
      assert LockOk(s, k);
    }
  }

  lemma CrashStep(s: State, pid: int)
    requires Inv(s) && Enabled(s, Crash(pid))
    ensures Inv(Next(s, Crash(pid)))
  {
    var t := Next(s, Crash(pid));
    hide NotesOk, Encode, Holding;
    forall q | q in t.procs ensures ProcOk(t, q, t.procs[q]) {
      assert ProcOk(s, q, s.procs[q]);
    }
    hide ProcOk;
    forall k | k in t.locks ensures LockOk(t, k) {
      assert LockOk(s, k);
    }
  }

  lemma TruncateStep(s: State, pid: int)
    requires Inv(s) && Enabled(s, By(pid, Truncate))
    ensures Inv(Next(s, By(pid, Truncate)))
  {
    assert ProcOk(s, pid, s.procs[pid]);
    hide Encode, Inv;
    LocalKeeps(s, Next(s, By(pid, Truncate)), pid);
  }

  lemma ServerStep(s: State, pid: int, act: Act)
    requires Inv(s) && Enabled(s, By(pid, act)) && (act.StartServer? || act.StopServer?)
    ensures Inv(Next(s, By(pid, act)))
  {
    hide Encode, Inv;
    StepOk(s, pid);
    LocalKeeps(s, Next(s, By(pid, act)), pid);
  }

  /** A step that changes nothing that is shared. */
  lemma PrivateStep(s: State, pid: int, q: Proc)
    requires Inv(s) && pid in s.procs
    requires var p := s.procs[pid];
      && q.key == p.key && q.hash == p.hash && q.owned == p.owned && (q.phase.Serving? <==> p.phase.Serving?)
      && (Holding(q.phase) <==> Holding(p.phase)) && Proper(Record(pid, q.hash)) && FileOk(s, pid, q) && NotesOk(q)
    ensures Inv(With(s, pid, q))
  {
    assert ProcOk(s, pid, s.procs[pid]);
    hide Encode, NotesOk, Holding, Inv;
    LocalKeeps(s, With(s, pid, q), pid);
  }

  lemma OwnerStep(s: State, pid: int, act: Act)
    requires Inv(s) && Enabled(s, By(pid, act)) && (act.Acquired? || act.WriteError? || act.StartFails?)
    ensures Inv(Next(s, By(pid, act)))
  {
    assert ProcOk(s, pid, s.procs[pid]);
    hide Encode, Inv;
    PrivateStep(s, pid, Next(s, By(pid, act)).procs[pid]);
  }

  /** The steps of a process that waits. */
  lemma PollStep(s: State, pid: int, act: Act)
    requires Inv(s) && Enabled(s, By(pid, act)) && (act.LockError? || act.Timer? || act.Stop?)
    ensures Inv(Next(s, By(pid, act)))
  {
    hide Encode, Matching, Inv;
    StepOk(s, pid);
    PrivateStep(s, pid, Next(s, By(pid, act)).procs[pid]);
  }

  lemma LookStep(s: State, pid: int, act: Act)
    requires Inv(s) && Enabled(s, By(pid, act)) && (act.Look? || act.Probe?)
    ensures Inv(Next(s, By(pid, act)))
  {
    hide Encode, Matching, Inv;
    StepOk(s, pid);
    PrivateStep(s, pid, Next(s, By(pid, act)).procs[pid]);
  }

  lemma StepOk(s: State, pid: int)
    requires Inv(s) && pid in s.procs
    ensures ProcOk(s, pid, s.procs[pid])
  {
    hide ProcOk, LockOk;
  }

  lemma CancelStep(s: State, pid: int)
    requires Inv(s) && Enabled(s, By(pid, Cancel))
    ensures Inv(Next(s, By(pid, Cancel)))
  {
    assert ProcOk(s, pid, s.procs[pid]);
    hide Encode, Inv;
    PrivateStep(s, pid, Next(s, By(pid, Cancel)).procs[pid]);
  }

  lemma StepKeeps(s: State, step: Step)
    requires Inv(s) && Enabled(s, step)
    ensures Inv(Next(s, step))
  {
    hide Inv, Enabled, Next;
    match step
    case Spawn(pid, key, hash) => SpawnStep(s, pid, key, hash);
    case Crash(pid) => CrashStep(s, pid);
    case By(pid, TryLock) => LockStep(s, pid);
    case By(pid, Release) => ReleaseStep(s, pid);
    case By(pid, Write) => WriteStep(s, pid);
    case By(pid, Truncate) => TruncateStep(s, pid);
    case By(pid, StartServer) => ServerStep(s, pid, StartServer);
    case By(pid, StopServer) => ServerStep(s, pid, StopServer);
    case By(pid, Cancel) => CancelStep(s, pid);
    case By(pid, act) =>
      if act.Acquired? || act.WriteError? || act.StartFails? {
        OwnerStep(s, pid, act);
      } else if act.Look? || act.Probe? {
        LookStep(s, pid, act);
      } else {
        PollStep(s, pid, act);
      }
  }
}

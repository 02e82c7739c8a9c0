/** The object managedPolicyRuntime and the polling loop (cmd/xcore-bridge/policy_runtime.go).  A
    ghost field records the steps of module Ownership that the methods stand for, and each turn
    of the loop is shown to be such a run of steps. */
module PolicyRuntime {
  import opened Text
  import opened Records
  import opened Ownership
  import Takeover

  /** A lock file: its content, and the process that holds the lock (0 when it is free). */
  class LockFile {
    var content: string
    var holder: int

    constructor ()
      ensures content == [] && holder == 0
    {
      content, holder := [], 0;
    }
  }

  datatype Fault = Fine | FlockFails | TruncateFails | WriteFails(at: nat)

  datatype Result = Tried(owned: bool) | Failed

  class Runtime {
    const pid: int
    var file: LockFile?
    var owned: bool
    var serving: bool
    ghost var acts: seq<Act>

    /** The flag agrees with the kernel, and the server runs only under the lock. */
    ghost predicate Valid()
      reads this, file
    {
      && pid > 0
      && (serving ==> owned)
      && (owned ==> file != null && file.holder == pid)
      && (file != null && !owned ==> file.holder != pid)
    }

    /** openManagedPolicyRuntime on an existing or new lock file. */
    constructor (lockFile: LockFile, id: int)
      requires id > 0 && lockFile.holder != id
      ensures Valid() && pid == id && file == lockFile && !owned && acts == []
    {
      pid, file, owned, serving, acts := id, lockFile, false, false, [];
    }

    /** tryAcquire: on every failure after the lock was taken, it is given back. */
    method TryAcquire(state: Record, fault: Fault) returns (r: Result)
      requires Valid() && Proper(state)
      modifies this, file
      ensures Valid() && file == old(file) && serving == old(serving)
      ensures acts == old(acts) + if file == null || old(owned) then [] else AcquireActs(old(file.holder), fault, state)
      ensures file == null ==> r == Failed && owned == old(owned)
      ensures file != null && old(owned) ==> r == Tried(true) && file.content == old(file.content)
      ensures file != null && !old(owned) && fault.FlockFails? ==> r == Failed
      ensures file != null && !old(owned) && !fault.FlockFails? && old(file.holder) != 0 ==> r == Tried(false)
      ensures file != null && !old(owned) && !fault.FlockFails? && old(file.holder) == 0 ==>
        if fault.Fine? then r == Tried(true) && owned && file.content == Encode(state)
        else r == Failed && file.holder == 0
      ensures file != null && !old(owned) && old(file.holder) == 0 && r == Failed ==>
        file.content == (match fault
                         case WriteFails(at) => Encode(state)[..if at < |Encode(state)| then at else |Encode(state)|]
                         case _ => old(file.content))
      ensures file != null && r != Tried(true) ==> !owned && file.holder == old(file.holder)
      ensures file != null && r == Tried(false) ==> file.content == old(file.content)
    {
      hide Encode, WriteActs, Overwrite;
      OverwritesNothing(Encode(state));
      if file == null {
        return Failed;
      }
      if owned {
        return Tried(true);
      }
      if fault.FlockFails? {
        acts := acts + [LockError];
        return Failed;
      }
      acts := acts + [TryLock];
      if file.holder != 0 {
        return Tried(false);
      }
      file.holder := pid;
      owned := true;
      var ok := true;
      var data := Encode(state);
      if fault.TruncateFails? {
        ok := false;
      } else {
        file.content := [];
        acts := acts + [Truncate];
      }
      if ok {
        var n := if fault.WriteFails? && fault.at < |data| then fault.at else |data|;
        file.content := Overwrite(file.content, data[..n]);
        acts := acts + WriteActs(n);
        ok := !fault.WriteFails?;
      }
      if !ok {
        file.holder := 0;
        owned := false;
        acts := acts + [WriteError, Release];
        return Failed;
      }
      acts := acts + [Acquired];
      return Tried(true);
    }

    /** matchingOwner */
    method MatchingOwner(linkHash: string) returns (owner: Option<Record>)
      requires file != null
      ensures owner == Matching(file.content, linkHash)
    {
      if linkHash == [] {
        return None;
      }
      var state := Decode(file.content);
      if state.None? {
        return None;
      }
      return if state.value.pid > 0 && state.value.linkHash == linkHash then state else None;
    }

    /** runOwnedManagedPolicy: start the server, wait for the signal, and close the server. */
    method RunOwned(starts: bool)
      requires Valid() && owned && !serving
      modifies this
      ensures Valid() && file == old(file) && owned && !serving
      ensures acts == old(acts) + OwnedActs(starts)
    {
      if !starts {
        acts := acts + [StartFails];
        return;
      }
      serving := true;
      acts := acts + [StartServer];
      acts := acts + [Cancel];
      serving := false;
      acts := acts + [StopServer];
    }

    /** close: unlock if owned, then forget the file; a second call does nothing.  The server must
        be closed by then. */
    method Close()
      requires Valid() && !serving
      modifies this, file
      ensures Valid() && file == null && !owned && !serving
      ensures acts == old(acts) + if old(owned) then [Release] else []
      ensures old(file) != null ==>
        && old(file).holder == (if old(owned) then 0 else old(file.holder))
        && old(file).content == old(file.content)
    {
      if file == null {
        return;
      }
      if owned {
        file.holder := 0;
        owned := false;
        acts := acts + [Release];
      }
      file := null;
    }
  }

  /** Over an empty file, what was written is all there is. */
  lemma OverwritesNothing(data: string)
    ensures forall n | 0 <= n <= |data| :: Overwrite([], data[..n]) == data[..n]
    ensures data[..|data|] == data
  {
  }

  // ---------- the steps that the methods stand for ----------

  function WriteActs(n: nat): seq<Act> {
    seq(n, i requires 0 <= i < n => Write)
  }

  /** tryAcquire, given who holds the lock. */
  function AcquireActs(holder: int, fault: Fault, state: Record): seq<Act>
    requires Proper(state)
  {
    var n := |Encode(state)|;
    if fault.FlockFails? then [LockError]
    else if holder != 0 then [TryLock]
    else
      match fault
      case TruncateFails => [TryLock] + [WriteError, Release]
      case WriteFails(at) => [TryLock] + [Truncate] + WriteActs(if at < n then at else n) + [WriteError, Release]
      case _ => [TryLock] + [Truncate] + WriteActs(n) + [Acquired]
  }

  /** runOwnedManagedPolicy */
  function OwnedActs(starts: bool): seq<Act> {
    if starts then [StartServer] + [Cancel] + [StopServer] else [StartFails]
  }

  // ---------- one process from start to end ----------

  /** What the process meets at one turn of its loop: who holds the lock and what the file says,
      what fails, whether the probe succeeds, and whether it has been cancelled by then. */
  datatype Turn = Turn(holder: int, content: string, fault: Fault, probe: bool, cancelled: bool)

  datatype End = Served | StartFailed | AcquireFailed | Cancelled | StillWaiting

  datatype Story = Story(notes: seq<Note>, end: End)

  /** What one turn leads to. */
  datatype Progress = GoOn(standby: bool, notes: seq<Note>) | Finished(story: Story)

  function TakeTurn(t: Turn, link: string, standby: bool, starts: bool, notes: seq<Note>): Progress {
    if t.fault.FlockFails? || (t.holder == 0 && !t.fault.Fine?) then Finished(Story(notes, AcquireFailed))
    else if t.holder == 0 then
      Finished(Story(notes + (if standby then [TakingOver] else []) + (if starts then [Ready] else []),
                 if starts then Served else StartFailed))
    else
      var now := Matching(t.content, link).Some? && !standby && t.probe;
      var said := if now then notes + [StandbyReady] else notes;
      if t.cancelled then Finished(Story(said, Cancelled)) else GoOn(standby || now, said)
  }

  /** The loop of runForegroundManagedPolicy as a function: the announcements and the end, when
      it has already said `notes`. */
  function Foreground(turns: seq<Turn>, link: string, standby: bool, starts: bool, notes: seq<Note>): Story
    decreases |turns|
  {
    if turns == [] then Story(notes, StillWaiting)
    else
      match TakeTurn(turns[0], link, standby, starts, notes)
      case Finished(story) => story
      case GoOn(standby', notes') => Foreground(turns[1..], link, standby', starts, notes')
  }

  /** Standing by is announced at most once and first; taking over is announced right after it
      and only then; and ready comes last, exactly when the process served. */
  lemma {:induction false} ForegroundNotes(turns: seq<Turn>, link: string, standby: bool, starts: bool)
    ensures var first := if standby then [StandbyReady] else [];
      var story := Foreground(turns, link, standby, starts, first);
      && (story.end.Served? ==> story.notes == [Ready] || story.notes == [StandbyReady, TakingOver, Ready])
      && (story.end.StartFailed? ==> story.notes == [] || story.notes == [StandbyReady, TakingOver])
      && (!story.end.Served? && !story.end.StartFailed? ==> story.notes == [] || story.notes == [StandbyReady])
      && (standby ==> story.notes != [] && story.notes[0] == StandbyReady)
    decreases |turns|
  {
    hide Matching;
    if turns != [] {
      ForegroundNotes(turns[1..], link, standby, starts);
      ForegroundNotes(turns[1..], link, true, starts);
      assert [] + [StandbyReady] == [StandbyReady];
    }
  }

  /** The loop goes on behind this turn: another process holds the lock, and nobody has cancelled. */
  predicate GoesOn(t: Turn) {
    t.holder != 0 && !t.fault.FlockFails? && !t.cancelled
  }

  /** The loop gets to turn i. */
  predicate Reached(turns: seq<Turn>, i: int) {
    0 <= i <= |turns| && forall j | 0 <= j < i :: GoesOn(turns[j])
  }

  /** The process finds another one in charge of its own link, whose server answers. */
  predicate Informs(t: Turn, link: string) {
    t.holder != 0 && !t.fault.FlockFails? && Matching(t.content, link).Some? && t.probe
  }

  /** At some turn that the loop gets to. */
  predicate Informed(turns: seq<Turn>, link: string) {
    exists i :: 0 <= i < |turns| && Reached(turns, i) && Informs(turns[i], link)
  }

  /** How the loop ends at a turn behind which it does not go on. */
  function EndAt(t: Turn, starts: bool): End {
    if t.fault.FlockFails? then AcquireFailed
    else if t.holder != 0 then Cancelled
    else if !t.fault.Fine? then AcquireFailed
    else if starts then Served
    else StartFailed
  }

  lemma ReachedCons(turns: seq<Turn>, i: int)
    requires turns != []
    ensures Reached(turns, i) <==> i == 0 || (GoesOn(turns[0]) && Reached(turns[1..], i - 1))
  {
    hide GoesOn;
    if i > 0 && GoesOn(turns[0]) && Reached(turns[1..], i - 1) {
      forall j | 0 <= j < i ensures GoesOn(turns[j]) {
        assert j > 0 ==> GoesOn(turns[1..][j - 1]);
      }
    }
    if i > 0 && Reached(turns, i) {
      forall j | 0 <= j < i - 1 ensures GoesOn(turns[1..][j]) {
        assert GoesOn(turns[j + 1]);
      }
    }
  }

  lemma InformedCons(turns: seq<Turn>, link: string)
    requires turns != []
    ensures Informed(turns, link) <==>
      Informs(turns[0], link) || (GoesOn(turns[0]) && Informed(turns[1..], link))
  {
    hide Informs, Reached, GoesOn;
    ReachedCons(turns, 0);
    if i :| 0 <= i < |turns| && Reached(turns, i) && Informs(turns[i], link) {
      ReachedCons(turns, i);
      assert i > 0 ==> turns[1..][i - 1] == turns[i];
    }
    if GoesOn(turns[0]) && Informed(turns[1..], link) {
      var i :| 0 <= i < |turns[1..]| && Reached(turns[1..], i) && Informs(turns[1..][i], link);
      ReachedCons(turns, i + 1);
      assert turns[i + 1] == turns[1..][i];
    }
  }

  /** One turn, in these words. */
  lemma TurnIs(t: Turn, link: string, standby: bool, starts: bool, notes: seq<Note>)
    requires StandbyReady in notes <==> standby
    ensures match TakeTurn(t, link, standby, starts, notes)
            case GoOn(standby', notes') =>
              GoesOn(t) && (standby' <==> standby || Informs(t, link)) && (StandbyReady in notes' <==> standby')
            case Finished(story) =>
              && !GoesOn(t) && story.end == EndAt(t, starts) && story.end != StillWaiting
              && (StandbyReady in story.notes <==> standby || Informs(t, link))
  {
    hide Matching;
  }

  lemma {:induction false} ForegroundTells(turns: seq<Turn>, link: string, standby: bool, starts: bool,
                                           notes: seq<Note>)
    requires StandbyReady in notes <==> standby
    ensures var story := Foreground(turns, link, standby, starts, notes);
      && (StandbyReady in story.notes <==> standby || Informed(turns, link))
      && (story.end.StillWaiting? <==> forall i | 0 <= i < |turns| :: GoesOn(turns[i]))
      && (forall i | 0 <= i < |turns| && Reached(turns, i) && !GoesOn(turns[i]) ::
            story.end == EndAt(turns[i], starts))
    decreases |turns|
  {
    hide TakeTurn, Informs, Informed, GoesOn, Reached, EndAt;
    if turns == [] {
      NoTurns(link);
    } else {
      TurnIs(turns[0], link, standby, starts, notes);
      InformedCons(turns, link);
      var story := Foreground(turns, link, standby, starts, notes);
      var next := TakeTurn(turns[0], link, standby, starts, notes);
      if next.GoOn? {
        ForegroundTells(turns[1..], link, next.standby, starts, next.notes);
        assert forall i | 0 < i < |turns| :: turns[i] == turns[1..][i - 1];
      }
      forall i | 0 <= i < |turns| && Reached(turns, i) && !GoesOn(turns[i])
        ensures story.end == EndAt(turns[i], starts)
      {
        ReachedCons(turns, i);
      }
    }
  }

  lemma NoTurns(link: string)
    ensures !Informed([], link)
  {
  }

  /** Standing by is announced exactly when, at some turn that the loop gets to, another process
      holds the lock with a record of this link and its server answers; with the end of the loop
      this fixes all announcements.  And the loop ends at the first turn at which the lock is free,
      flock fails or the process is cancelled, in the way that this turn says. */
  lemma StandbyExactly(turns: seq<Turn>, link: string, starts: bool)
    ensures var story := Foreground(turns, link, false, starts, []);
      var informed := Informed(turns, link);
      var first, over := if informed then [StandbyReady] else [], if informed then [TakingOver] else [];
      && story.notes == (if story.end.Served? then first + over + [Ready]
                         else if story.end.StartFailed? then first + over
                         else first)
      && (story.end.StillWaiting? <==> forall i | 0 <= i < |turns| :: GoesOn(turns[i]))
      && (forall i | 0 <= i < |turns| && Reached(turns, i) && !GoesOn(turns[i]) ::
            story.end == EndAt(turns[i], starts))
  {
    hide Informed, GoesOn, Reached, EndAt, Foreground;
    ForegroundTells(turns, link, false, starts, []);
    ForegroundNotes(turns, link, false, starts);
    assert [StandbyReady] + [TakingOver] + [Ready] == [StandbyReady, TakingOver, Ready];
  }

  /** What a process does when another one holds the lock. */
  function WaitActs(t: Turn, link: string, standby: bool): seq<Act> {
    [Look] + (if Matching(t.content, link).Some? && !standby then [Probe(t.probe)] else [])
    + if t.cancelled then [Cancel, Stop] else [Timer]
  }

  /** The steps of one turn, up to the unlock of an owner. */
  function TurnActs(t: Turn, state: Record, standby: bool, starts: bool): seq<Act>
    requires Proper(state)
  {
    AcquireActs(t.holder, t.fault, state)
    + if t.fault.FlockFails? then []
      else if t.holder != 0 then WaitActs(t, state.linkHash, standby)
      else if t.fault.Fine? then OwnedActs(starts)
      else []
  }

  /** The steps of the whole loop: an owner ends with the unlock, behind the end of its server. */
  function ForegroundActs(turns: seq<Turn>, state: Record, standby: bool, starts: bool): seq<Act>
    requires Proper(state)
    decreases |turns|
  {
    if turns == [] then []
    else
      TurnActs(turns[0], state, standby, starts)
      + match TakeTurn(turns[0], state.linkHash, standby, starts, [])
        case Finished(story) => if story.end.Served? || story.end.StartFailed? then [Release] else []
        case GoOn(standby', _) => ForegroundActs(turns[1..], state, standby', starts)
  }

  /** What a turn leads to does not depend on what was said before. */
  lemma TurnForgets(t: Turn, link: string, standby: bool, starts: bool, notes: seq<Note>)
    ensures match (TakeTurn(t, link, standby, starts, notes), TakeTurn(t, link, standby, starts, []))
            case (GoOn(a, _), GoOn(b, _)) => a == b
            case (Finished(x), Finished(y)) => x.end == y.end
            case _ => false
  {
    hide Matching;
  }

  /** One turn of the loop.  The server of an owner is closed when the turn ends, the lock is still
      held. */
  method PollOnce(runtime: Runtime, state: Record, t: Turn, standby: bool, starts: bool, notes: seq<Note>)
    returns (p: Progress)
    requires runtime.Valid() && runtime.file != null && !runtime.owned && Proper(state) && t.holder != runtime.pid
    modifies runtime, runtime.file
    ensures p == TakeTurn(t, state.linkHash, standby, starts, notes)
    ensures runtime.Valid() && runtime.file == old(runtime.file) && !runtime.serving
    ensures runtime.acts == old(runtime.acts) + TurnActs(t, state, standby, starts)
    ensures runtime.owned <==> p.Finished? && (p.story.end.Served? || p.story.end.StartFailed?)
  {
    hide Matching, Encode, AcquireActs, OwnedActs;
    runtime.file.holder, runtime.file.content := t.holder, t.content;
    var r := runtime.TryAcquire(state, t.fault);
    if r.Failed? {
      return Finished(Story(notes, AcquireFailed));
    }
    if r.owned {
      var said := notes + (if standby then [TakingOver] else []) + (if starts then [Ready] else []);
      runtime.RunOwned(starts);
      return Finished(Story(said, if starts then Served else StartFailed));
    }
    var standbyReady, said := standby, notes;
    var owner := runtime.MatchingOwner(state.linkHash);
    if owner.Some? && !standbyReady && t.probe {
      standbyReady := true;
      said := said + [StandbyReady];
    }
    runtime.acts := runtime.acts + WaitActs(t, state.linkHash, standby);
    return if t.cancelled then Finished(Story(said, Cancelled)) else GoOn(standbyReady, said);
  }

  /** runForegroundManagedPolicy: poll until the lock is there, serve, and on every path close
      the runtime, which gives the lock back, after the server. */
  method RunForeground(runtime: Runtime, state: Record, turns: seq<Turn>, starts: bool) returns (story: Story)
    requires runtime.Valid() && runtime.file != null && !runtime.owned && !runtime.serving && Proper(state)
    requires forall i | 0 <= i < |turns| :: turns[i].holder != runtime.pid
    modifies runtime, runtime.file
    ensures story == Foreground(turns, state.linkHash, false, starts, [])
    ensures runtime.Valid() && runtime.file == null && !runtime.owned && old(runtime.file).holder != runtime.pid
    ensures runtime.acts == old(runtime.acts) + ForegroundActs(turns, state, false, starts)
  {
    hide TakeTurn, TurnActs;
    var standbyReady, notes := false, [];
    var lockFile: LockFile := runtime.file;
    assert turns[0..] == turns;
    for i := 0 to |turns|
      invariant runtime.Valid() && runtime.file == lockFile && !runtime.owned && !runtime.serving
      invariant old(runtime.acts) + ForegroundActs(turns, state, false, starts)
             == runtime.acts + ForegroundActs(turns[i..], state, standbyReady, starts)
      invariant Foreground(turns, state.linkHash, false, starts, [])
             == Foreground(turns[i..], state.linkHash, standbyReady, starts, notes)
    {
      assert turns[i..][0] == turns[i] && turns[i..][1..] == turns[i + 1..];
      TurnForgets(turns[i], state.linkHash, standbyReady, starts, notes);
      var p := PollOnce(runtime, state, turns[i], standbyReady, starts, notes);
      if p.Finished? {
        runtime.Close();
        return p.story;
      }
      standbyReady, notes := p.standby, p.notes;
    }
    runtime.Close();
    return Story(notes, StillWaiting);
  }

  // ---------- the steps are steps of the protocol ----------

  /** The same process takes these steps, with no other in between. */
  function Steps(p: int, acts: seq<Act>): seq<Step> {
    seq(|acts|, i requires 0 <= i < |acts| => By(p, acts[i]))
  }

  lemma {:induction false} AfterAppend(s: State, a: seq<Step>, b: seq<Step>)
    ensures After(s, a + b) == After(After(s, a), b)
    decreases |b|
  {
    hide Take;
    if b == [] {
      assert a + b == a;
    } else {
      var n := |b| - 1;
      assert (a + b)[..|a + b| - 1] == a + b[..n] && (a + b)[|a + b| - 1] == b[n];
      AfterAppend(s, a, b[..n]);
    }
  }

  lemma StepsAppend(s: State, p: int, a: seq<Act>, b: seq<Act>)
    ensures After(s, Steps(p, a + b)) == After(After(s, Steps(p, a)), Steps(p, b))
  {
    assert Steps(p, a + b) == Steps(p, a) + Steps(p, b);
    hide Steps, After;
    AfterAppend(s, Steps(p, a), Steps(p, b));
  }

  lemma StepOne(s: State, p: int, a: Act)
    ensures After(s, Steps(p, [a])) == Take(s, By(p, a))
  {
    assert Steps(p, [a]) == [By(p, a)];
    hide Take, Steps;
    Takeover.AfterOne(s, By(p, a));
  }

  lemma StepTwo(s: State, p: int, a: Act, b: Act)
    ensures After(s, Steps(p, [a, b])) == Take(Take(s, By(p, a)), By(p, b))
  {
    hide Take, Steps, After;
    assert [a, b] == [a] + [b];
    StepsAppend(s, p, [a], [b]);
    StepOne(s, p, a);
    StepOne(Take(s, By(p, a)), p, b);
  }

  /** Whoever writes alone fills the file one character after the other. */
  lemma {:induction false} WritesFill(s: State, p: int, n: nat)
    requires Inv(s) && p in s.procs && s.procs[p].phase == Writing(0)
    requires n <= |Data(p, s.procs[p])|
    ensures var t := After(s, Steps(p, WriteActs(n)));
      && p in t.procs && t.procs[p] == s.procs[p].(phase := Writing(n)) && t.locks == s.locks && t.servers == s.servers
      && Inv(t)
  {
    hide Inv, Encode, Overwrite, After, Take;
    Takeover.InvAfter(s, Steps(p, WriteActs(n)));
    if n == 0 {
      Takeover.NoStep(s);
      assert Steps(p, WriteActs(0)) == [];
    } else {
      WritesFill(s, p, n - 1);
      assert WriteActs(n) == WriteActs(n - 1) + [Write];
      StepsAppend(s, p, WriteActs(n - 1), [Write]);
      StepOne(After(s, Steps(p, WriteActs(n - 1))), p, Write);
      WriteMoves(After(s, Steps(p, WriteActs(n - 1))), p);
    }
  }

  lemma WriteMoves(t: State, p: int)
    requires Inv(t) && p in t.procs && t.procs[p].phase.Writing? && t.procs[p].phase.n < |Data(p, t.procs[p])|
    ensures var u := Take(t, By(p, Write));
      && p in u.procs && u.procs[p] == t.procs[p].(phase := Writing(t.procs[p].phase.n + 1))
      && u.locks == t.locks && u.servers == t.servers
  {
    assert ProcOk(t, p, t.procs[p]);
    hide Encode, NotesOk, Overwrite;
  }

  /** The process holds the lock, in this phase, with this text in the file. */
  predicate Holds(s: State, t: State, p: int, phase: Phase, content: string) {
    && p in s.procs && p in t.procs && t.procs[p].key == s.procs[p].key && t.procs[p].phase == phase
    && t.procs[p].owned && t.procs[p].key in t.locks && t.locks[t.procs[p].key] == p
    && t.procs[p].key in t.files && t.files[t.procs[p].key] == content
  }

  /** The process is done: the lock is free, no server of it runs, and the file says this. */
  predicate IsDone(s: State, t: State, p: int, content: string) {
    && p in s.procs && p in t.procs && t.procs[p].key == s.procs[p].key && t.procs[p].phase.Done?
    && t.procs[p].key !in t.locks && p !in t.servers
    && t.procs[p].key in t.files && t.files[t.procs[p].key] == content
  }

  /** The process is there, with its lock file. */
  predicate Here(s: State, p: int) {
    p in s.procs && Proper(Record(p, s.procs[p].hash)) && s.procs[p].key in s.files
  }

  lemma WithTwice(s: State, p: int, a: Proc, b: Proc)
    ensures With(With(s, p, a), p, b) == With(s, p, b)
    ensures With(s, p, a).procs[p] == a
  {
    assert s.procs[p := a][p := b] == s.procs[p := b];
  }

  lemma TryWaits(s: State, p: int)
    requires Here(s, p) && s.procs[p].phase.Trying? && s.procs[p].key in s.locks
    ensures After(s, Steps(p, [TryLock])) == With(s, p, s.procs[p].(phase := Waiting))
  {
    hide Steps, After, Encode;
    StepOne(s, p, TryLock);
  }

  lemma LookMoves(s: State, p: int)
    requires Here(s, p) && s.procs[p].phase.Waiting?
    ensures var me := s.procs[p];
      var phase := if Matching(s.files[me.key], me.hash).Some? && !me.standbyReady then Probing else Pausing;
      After(s, Steps(p, [Look])) == With(s, p, me.(phase := phase))
  {
    hide Steps, After, Encode, Matching;
    StepOne(s, p, Look);
  }

  lemma ProbeMoves(s: State, p: int, ok: bool)
    requires Here(s, p) && s.procs[p].phase.Probing?
    ensures var me := s.procs[p];
      After(s, Steps(p, [Probe(ok)])) ==
        With(s, p, if ok then me.(phase := Pausing, standbyReady := true, notes := me.notes + [StandbyReady])
                   else me.(phase := Pausing))
  {
    hide Steps, After, Encode, Matching;
    StepOne(s, p, Probe(ok));
  }

  /** The pause ends, or the process is cancelled in it. */
  lemma PauseEnds(s: State, p: int, cancelled: bool)
    requires Here(s, p) && s.procs[p].phase.Pausing?
    ensures After(s, Steps(p, if cancelled then [Cancel, Stop] else [Timer])) ==
      With(s, p, if cancelled then s.procs[p].(phase := Done, cancelled := true) else s.procs[p].(phase := Trying))
  {
    hide Steps, After, Encode, Matching;
    if cancelled {
      StepTwo(s, p, Cancel, Stop);
      WithTwice(s, p, s.procs[p].(cancelled := true), s.procs[p].(phase := Done, cancelled := true));
    } else {
      StepOne(s, p, Timer);
    }
  }

  /** Looking into the lock file and, if its record is of the own link, probing the server once. */
  lemma LooksAndProbes(s: State, p: int, ok: bool)
    requires Here(s, p) && s.procs[p].phase.Waiting?
    ensures var me := s.procs[p];
      var probing := Matching(s.files[me.key], me.hash).Some? && !me.standbyReady;
      After(s, Steps(p, [Look] + if probing then [Probe(ok)] else [])) ==
        With(s, p, if probing && ok then me.(phase := Pausing, standbyReady := true, notes := me.notes + [StandbyReady])
                   else me.(phase := Pausing))
  {
    hide Steps, After, Encode, Matching;
    var me := s.procs[p];
    LookMoves(s, p);
    if Matching(s.files[me.key], me.hash).Some? && !me.standbyReady {
      var probing := me.(phase := Probing);
      ProbeMoves(With(s, p, probing), p, ok);
      StepsAppend(s, p, [Look], [Probe(ok)]);
      WithTwice(s, p, probing, me.(phase := Pausing, standbyReady := true, notes := me.notes + [StandbyReady]));
      WithTwice(s, p, probing, me.(phase := Pausing));
    } else {
      assert [Look] + [] == [Look];
    }
  }

  /** The process after the turn, by the words of the turn. */
  function AfterWait(me: Proc, next: Progress): Proc {
    match next
    case GoOn(standby, notes) => me.(standbyReady := standby, notes := notes)
    case Finished(story) =>
      me.(phase := Done, cancelled := true, standbyReady := me.standbyReady || story.notes != me.notes,
          notes := story.notes)
  }

  lemma TurnMoves(me: Proc, t: Turn, starts: bool)
    requires t.holder != 0 && !t.fault.FlockFails? && me.phase.Trying?
    ensures var next := TakeTurn(t, me.hash, me.standbyReady, starts, me.notes);
      var probing := Matching(t.content, me.hash).Some? && !me.standbyReady;
      var paused :=
        if probing && t.probe then me.(phase := Pausing, standbyReady := true, notes := me.notes + [StandbyReady])
        else me.(phase := Pausing);
      && (next.Finished? <==> t.cancelled) && (next.Finished? ==> next.story.end.Cancelled?)
      && AfterWait(me, next)
         == if t.cancelled then paused.(phase := Done, cancelled := true) else paused.(phase := Trying)
  {
    hide Matching;
    assert |me.notes + [StandbyReady]| > |me.notes|;
  }

  /** A turn at which another process holds the lock, as steps of the protocol: they change this
      process only, as the turn says, with the same announcements. */
  lemma WaitAlone(s: State, p: int, t: Turn, starts: bool)
    requires Inv(s) && p in s.procs && s.procs[p].phase.Trying? && s.procs[p].key in s.locks
    requires t.holder != 0 && !t.fault.FlockFails?
    ensures Here(s, p)
    ensures t.content == s.files[s.procs[p].key] ==>
      var me := s.procs[p];
      After(s, Steps(p, TurnActs(t, Record(p, me.hash), me.standbyReady, starts)))
        == With(s, p, AfterWait(me, TakeTurn(t, me.hash, me.standbyReady, starts, me.notes)))
  {
    HolderOk(s, p);
    IsHere(s, p);
    if t.content == s.files[s.procs[p].key] {
      hide *;
      WaitFor(s, p, t, starts);
    }
  }

  lemma IsHere(s: State, p: int)
    requires p in s.procs && ProcOk(s, p, s.procs[p])
    ensures Here(s, p)
  {
    hide NotesOk, Encode;
  }

  lemma WaitFor(s: State, p: int, t: Turn, starts: bool)
    requires Here(s, p) && s.procs[p].phase.Trying? && s.procs[p].key in s.locks
    requires t.holder != 0 && !t.fault.FlockFails? && t.content == s.files[s.procs[p].key]
    ensures var me := s.procs[p];
      After(s, Steps(p, TurnActs(t, Record(p, me.hash), me.standbyReady, starts)))
        == With(s, p, AfterWait(me, TakeTurn(t, me.hash, me.standbyReady, starts, me.notes)))
  {
    hide After, Steps, Encode, Matching, TakeTurn, AfterWait, TurnActs;
    var me := s.procs[p];
    var probing := Matching(t.content, me.hash).Some? && !me.standbyReady;
    var waiting := me.(phase := Waiting);
    var paused :=
      if probing && t.probe then me.(phase := Pausing, standbyReady := true, notes := me.notes + [StandbyReady])
      else me.(phase := Pausing);
    var last := if t.cancelled then paused.(phase := Done, cancelled := true) else paused.(phase := Trying);
    var look := [Look] + if probing then [Probe(t.probe)] else [];
    WaitActsAre(t, Record(p, me.hash), me.standbyReady, starts);
    StepsAppend(s, p, [TryLock] + look, if t.cancelled then [Cancel, Stop] else [Timer]);
    StepsAppend(s, p, [TryLock], look);
    TryWaits(s, p);
    LooksAndProbes(With(s, p, waiting), p, t.probe);
    WithTwice(s, p, waiting, paused);
    PauseEnds(With(s, p, paused), p, t.cancelled);
    WithTwice(s, p, paused, last);
    TurnMoves(me, t, starts);
  }

  lemma WaitActsAre(t: Turn, state: Record, standby: bool, starts: bool)
    requires Proper(state) && t.holder != 0 && !t.fault.FlockFails?
    ensures TurnActs(t, state, standby, starts) ==
      [TryLock]
      + ([Look] + if Matching(t.content, state.linkHash).Some? && !standby then [Probe(t.probe)] else [])
      + if t.cancelled then [Cancel, Stop] else [Timer]
  {
    hide Matching, Encode;
  }

  lemma LockAlone(s: State, p: int)
    requires Inv(s) && p in s.procs && s.procs[p].phase.Trying? && s.procs[p].key !in s.locks
    ensures s.procs[p].key in s.files
    ensures var t := After(s, Steps(p, [TryLock]));
      && Inv(t) && Holds(s, t, p, Locked, s.files[s.procs[p].key]) && t.procs[p].hash == s.procs[p].hash
  {
    assert ProcOk(s, p, s.procs[p]);
    Takeover.InvAfter(s, Steps(p, [TryLock]));
    StepOne(s, p, TryLock);
    hide Encode, NotesOk, After, Inv;
  }

  lemma TruncateAlone(s: State, p: int)
    requires Inv(s) && p in s.procs && s.procs[p].phase.Locked?
    ensures var t := After(s, Steps(p, [Truncate]));
      && Inv(t) && Holds(s, t, p, Writing(0), []) && t.procs[p].hash == s.procs[p].hash
  {
    assert ProcOk(s, p, s.procs[p]);
    Takeover.InvAfter(s, Steps(p, [Truncate]));
    StepOne(s, p, Truncate);
    hide Encode, NotesOk, After, Inv;
  }

  lemma HolderOk(s: State, p: int)
    requires Inv(s) && p in s.procs
    ensures ProcOk(s, p, s.procs[p])
  {
    hide ProcOk, LockOk;
  }

  lemma FailAlone(s: State, p: int)
    requires Inv(s) && p in s.procs && (s.procs[p].phase.Locked? || s.procs[p].phase.Writing?)
    ensures s.procs[p].key in s.files
    ensures IsDone(s, After(s, Steps(p, [WriteError, Release])), p, s.files[s.procs[p].key])
  {
    hide Encode, NotesOk, After, Inv;
    HolderOk(s, p);
    StepTwo(s, p, WriteError, Release);
  }

  lemma WriteAlone(s: State, p: int, n: nat)
    requires Inv(s) && p in s.procs && s.procs[p].phase == Writing(0) && n <= |Data(p, s.procs[p])|
    ensures var t := After(s, Steps(p, WriteActs(n)));
      Inv(t) && Holds(s, t, p, Writing(n), Data(p, s.procs[p])[..n]) && t.procs[p].hash == s.procs[p].hash
  {
    WritesFill(s, p, n);
    var t := After(s, Steps(p, WriteActs(n)));
    assert ProcOk(t, p, t.procs[p]);
    hide Encode, NotesOk, After, Inv;
  }

  lemma AcquiredAlone(s: State, p: int)
    requires Inv(s) && p in s.procs && s.procs[p].phase == Writing(|Data(p, s.procs[p])|)
    ensures var t := After(s, Steps(p, [Acquired])); Inv(t) && Holds(s, t, p, Owner, Data(p, s.procs[p]))
  {
    assert ProcOk(s, p, s.procs[p]);
    Takeover.InvAfter(s, Steps(p, [Acquired]));
    StepOne(s, p, Acquired);
    hide Encode, NotesOk, After, Inv;
  }

  /** Locking and filling the file up to some character. */
  lemma FillAlone(s: State, p: int, n: nat)
    requires Inv(s) && p in s.procs && s.procs[p].phase.Trying? && s.procs[p].key !in s.locks
    requires Proper(Record(p, s.procs[p].hash)) && n <= |Data(p, s.procs[p])|
    ensures var t := After(s, Steps(p, [TryLock] + [Truncate] + WriteActs(n)));
      Inv(t) && Holds(s, t, p, Writing(n), Data(p, s.procs[p])[..n]) && t.procs[p].hash == s.procs[p].hash
  {
    hide Inv, After, Steps, Encode, WriteActs;
    LockAlone(s, p);
    var t1 := After(s, Steps(p, [TryLock]));
    TruncateAlone(t1, p);
    StepsAppend(s, p, [TryLock], [Truncate]);
    var t2 := After(t1, Steps(p, [Truncate]));
    WriteAlone(t2, p, n);
    StepsAppend(s, p, [TryLock] + [Truncate], WriteActs(n));
  }

  /** tryAcquire with the lock free and no other process in between: it ends with the lock held and
      exactly the record in the file, or, whatever failed, with the lock free again. */
  lemma AcquireAlone(s: State, p: int, fault: Fault)
    requires Inv(s) && p in s.procs && s.procs[p].phase.Trying? && s.procs[p].key !in s.locks
    requires Proper(Record(p, s.procs[p].hash)) && !fault.FlockFails?
    ensures s.procs[p].key in s.files
    ensures var data := Data(p, s.procs[p]);
      var t := After(s, Steps(p, AcquireActs(0, fault, Record(p, s.procs[p].hash))));
      match fault
      case TruncateFails => IsDone(s, t, p, s.files[s.procs[p].key])
      case WriteFails(at) => IsDone(s, t, p, data[..if at < |data| then at else |data|])
      case _ => Holds(s, t, p, Owner, data)
  {
    hide Inv, After, Steps, Encode, WriteActs;
    LockAlone(s, p);
    var n := |Data(p, s.procs[p])|;
    if fault.TruncateFails? {
      FailAlone(After(s, Steps(p, [TryLock])), p);
      StepsAppend(s, p, [TryLock], [WriteError, Release]);
    } else if fault.WriteFails? {
      var k := if fault.at < n then fault.at else n;
      FillAlone(s, p, k);
      FailAlone(After(s, Steps(p, [TryLock] + [Truncate] + WriteActs(k))), p);
      StepsAppend(s, p, [TryLock] + [Truncate] + WriteActs(k), [WriteError, Release]);
    } else {
      FillAlone(s, p, n);
      AcquiredAlone(After(s, Steps(p, [TryLock] + [Truncate] + WriteActs(n))), p);
      StepsAppend(s, p, [TryLock] + [Truncate] + WriteActs(n), [Acquired]);
    }
  }

  lemma ReleaseAlone(s: State, p: int)
    requires Inv(s) && p in s.procs && s.procs[p].phase.Closed?
    ensures s.procs[p].key in s.files && p !in s.servers
    ensures IsDone(s, After(s, Steps(p, [Release])), p, s.files[s.procs[p].key])
  {
    assert ProcOk(s, p, s.procs[p]);
    StepOne(s, p, Release);
    hide Encode, NotesOk, After, Inv;
  }

  lemma ServeAlone(s: State, p: int)
    requires Inv(s) && p in s.procs && s.procs[p].phase.Owner?
    ensures s.procs[p].key in s.files
    ensures var t := After(s, Steps(p, [StartServer])); Inv(t) && Holds(s, t, p, Serving, s.files[s.procs[p].key])
  {
    assert ProcOk(s, p, s.procs[p]);
    Takeover.InvAfter(s, Steps(p, [StartServer]));
    StepOne(s, p, StartServer);
    hide Encode, NotesOk, After, Inv;
  }

  lemma CancelAlone(s: State, p: int)
    requires Inv(s) && p in s.procs && s.procs[p].phase.Serving?
    ensures s.procs[p].key in s.files
    ensures var t := After(s, Steps(p, [Cancel]));
      Inv(t) && Holds(s, t, p, Serving, s.files[s.procs[p].key]) && t.procs[p].cancelled
  {
    assert ProcOk(s, p, s.procs[p]);
    Takeover.InvAfter(s, Steps(p, [Cancel]));
    StepOne(s, p, Cancel);
    hide Encode, NotesOk, After, Inv;
  }

  lemma StopAlone(s: State, p: int)
    requires Inv(s) && p in s.procs && s.procs[p].phase.Serving? && s.procs[p].cancelled
    ensures s.procs[p].key in s.files
    ensures var t := After(s, Steps(p, [StopServer])); Inv(t) && Holds(s, t, p, Closed, s.files[s.procs[p].key])
  {
    assert ProcOk(s, p, s.procs[p]);
    Takeover.InvAfter(s, Steps(p, [StopServer]));
    StepOne(s, p, StopServer);
    hide Encode, NotesOk, After, Inv;
  }

  lemma NoStartAlone(s: State, p: int)
    requires Inv(s) && p in s.procs && s.procs[p].phase.Owner?
    ensures s.procs[p].key in s.files
    ensures var t := After(s, Steps(p, [StartFails])); Inv(t) && Holds(s, t, p, Closed, s.files[s.procs[p].key])
  {
    assert ProcOk(s, p, s.procs[p]);
    Takeover.InvAfter(s, Steps(p, [StartFails]));
    StepOne(s, p, StartFails);
    hide Encode, NotesOk, After, Inv;
  }

  /** runOwnedManagedPolicy and close: the server ends while the lock is still held, and then the
      lock is free and the file as it was. */
  lemma OwnedAlone(s: State, p: int, starts: bool)
    requires Inv(s) && p in s.procs && s.procs[p].phase.Owner?
    ensures s.procs[p].key in s.files
    ensures var content := s.files[s.procs[p].key];
      var closed := After(s, Steps(p, OwnedActs(starts)));
      && Holds(s, closed, p, Closed, content) && p !in closed.servers
      && IsDone(s, After(s, Steps(p, OwnedActs(starts) + [Release])), p, content)
  {
    hide Inv, After, Steps;
    if starts {
      ServeAlone(s, p);
      var t1 := After(s, Steps(p, [StartServer]));
      CancelAlone(t1, p);
      StepsAppend(s, p, [StartServer], [Cancel]);
      var t2 := After(t1, Steps(p, [Cancel]));
      StopAlone(t2, p);
      StepsAppend(s, p, [StartServer] + [Cancel], [StopServer]);
    } else {
      NoStartAlone(s, p);
    }
    ReleaseAlone(After(s, Steps(p, OwnedActs(starts))), p);
    StepsAppend(s, p, OwnedActs(starts), [Release]);
  }
}

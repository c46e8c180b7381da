/** Every operation of a process in an interleaved run of `LockFile` is the straight-line code of
    `LockHandle`, in a world made of what the other processes do between its calls. */
module LockInRun {
  import opened Wrappers
  import opened LockFile
  import opened LockHandle

  // ---- The world a process sees -------------------------------------------------------------

  predicate Acts(st: State, step: Step, p: int) {
    step == Advance(p) && p in st.live && p in st.procs && !st.procs[p].pc.Idle?
  }

  /** The states in which the process makes its calls. */
  function CallStates(st: State, run: seq<Step>, p: int): seq<State>
    decreases |run|
  {
    if run == [] then []
    else (if Acts(st, run[0], p) then [st] else []) + CallStates(Next(st, run[0]), run[1..], p)
  }

  /** The path as the last of these calls leaves it, or else `d`. */
  function OwnDisk(st: State, run: seq<Step>, p: int, d: Disk): Disk
    decreases |run|
  {
    if run == [] then d
    else
      var st1 := Next(st, run[0]);
      OwnDisk(st1, run[1..], p, if Acts(st, run[0], p) then st1.disk else d)
  }

  /** Its n-th call finds the path and the pids of the n-th state. */
  function WorldOf(states: seq<State>): World {
    World((k: nat, d: Disk) => if k < |states| then states[k].disk else d,
          (k: nat) => if k < |states| then states[k].live else {})
  }

  ghost predicate Meets(w: World, k: nat, st: State) {
    w.alive(k) == st.live && forall d :: w.others(k, d) == st.disk
  }

  /** From its n-th call on, the process finds these states. */
  ghost predicate Agrees(w: World, n: nat, states: seq<State>)
    decreases |states|
  {
    states == [] || (Meets(w, n, states[0]) && Agrees(w, n + 1, states[1..]))
  }

  lemma {:induction false} WorldAgrees(states: seq<State>, n: nat)
    requires n <= |states|
    ensures Agrees(WorldOf(states), n, states[n..])
    decreases |states| - n
  {
    if n < |states| {
      assert states[n..][1..] == states[n + 1..];
      WorldAgrees(states, n + 1);
    }
  }

  /** The process goes on with its operation, and does not die. */
  ghost predicate Proceeds(run: seq<Step>, p: int) {
    forall i :: 0 <= i < |run| && run[i].pid == p ==> run[i].Advance?
  }

  lemma NextAdvance(st: State, p: int)
    requires p in st.live && p in st.procs
    ensures Next(st, Advance(p))
         == st.(disk := Act(st.disk, st.live, p, st.procs[p]).0,
                procs := st.procs[p := Act(st.disk, st.live, p, st.procs[p]).1])
    ensures st.procs[p].pc.Idle? ==> Next(st, Advance(p)) == st
  {
    assert st.procs[p := st.procs[p]] == st.procs;
  }

  lemma NextOther(st: State, step: Step, p: int)
    requires p in st.live && p in st.procs && step.pid != p
    ensures p in Next(st, step).live && p in Next(st, step).procs
    ensures Next(st, step).procs[p] == st.procs[p]
  {
    hide Effect;
  }

  lemma AgreesRest(w: World, n: nat, st: State, rest: seq<State>)
    requires Agrees(w, n, [st] + rest)
    ensures Meets(w, n, st) && Agrees(w, n + 1, rest)
  {
    assert ([st] + rest)[1..] == rest;
  }

  ghost predicate Over(st: State, run: seq<Step>, p: int) {
    p in Exec(st, run).procs && Exec(st, run).procs[p].pc.Idle?
  }

  /** The rest of an operation, from any of its calls on. */
  lemma {:induction false} FinishInRun(st: State, run: seq<Step>, p: int, w: World, n: nat, d: Disk)
    requires p in st.live && p in st.procs && Proceeds(run, p)
    requires Agrees(w, n, CallStates(st, run, p))
    requires Over(st, run, p)
    ensures Finish(w, n, d, p, st.procs[p])
         == (n + |CallStates(st, run, p)|, OwnDisk(st, run, p, d), Exec(st, run).procs[p])
    decreases |run|
  {
    hide Next, Act, Finish, Agrees;
    if run == [] {
      FinishIdle(w, n, d, p, st.procs[p]);
    } else {
      var st1, rest := Next(st, run[0]), run[1..];
      if run[0].pid != p {
        NextOther(st, run[0], p);
        assert [] + CallStates(st1, rest, p) == CallStates(st1, rest, p);
        FinishInRun(st1, rest, p, w, n, d);
      } else {
        NextAdvance(st, p);
        if st.procs[p].pc.Idle? {
          assert [] + CallStates(st1, rest, p) == CallStates(st1, rest, p);
          FinishInRun(st1, rest, p, w, n, d);
        } else {
          AgreesRest(w, n, st, CallStates(st1, rest, p));
          FinishInRun(st1, rest, p, w, n + 1, st1.disk);
          FinishGoesOn(w, n, d, p, st.procs[p]);
        }
      }
    }
  }

  lemma FinishIdle(w: World, n: nat, d: Disk, p: int, proc: Proc)
    ensures proc.pc.Idle? ==> Finish(w, n, d, p, proc) == (n, d, proc)
  {}

  lemma FinishGoesOn(w: World, n: nat, d: Disk, p: int, proc: Proc)
    requires !proc.pc.Idle?
    ensures var (d', proc') := Act(w.others(n, d), w.alive(n), p, proc);
            Finish(w, n, d, p, proc) == Finish(w, n + 1, d', p, proc')
  {
    hide Act;
  }

  predicate IsCall(step: Step) {
    step.CallAcquire? || step.CallRelease? || step.CallUpdatePort?
  }

  /** The states in which an operation that begins with `step` makes its calls. */
  function StatesIn(st: State, step: Step, run: seq<Step>): seq<State> {
    [st] + CallStates(Next(st, step), run, step.pid)
  }

  function WorldIn(st: State, step: Step, run: seq<Step>): World {
    WorldOf(StatesIn(st, step, run))
  }

  /** From the call that begins it to the process being idle again, an operation in a run is the
      operation in the world that the process sees there. */
  lemma OperationInRun(st: State, step: Step, run: seq<Step>)
    requires step.pid in st.live && step.pid in st.procs && st.procs[step.pid].pc.Idle?
    requires IsCall(step) && Proceeds(run, step.pid)
    requires Over(Next(st, step), run, step.pid)
    ensures Operation(WorldIn(st, step, run), 0, st.disk, st.procs[step.pid], step)
         == (|StatesIn(st, step, run)|, OwnDisk(Next(st, step), run, step.pid, Next(st, step).disk),
             Exec(Next(st, step), run).procs[step.pid])
  {
    var p, st1 := step.pid, Next(st, step);
    var states := [st] + CallStates(st1, run, p);
    WorldAgrees(states, 0);
    assert states[0..] == states;
    AgreesRest(WorldOf(states), 0, st, CallStates(st1, run, p));
    hide Effect, Finish;
    FinishInRun(st1, run, p, WorldOf(states), 1, st1.disk);
  }

  // ---- What else the process has ------------------------------------------------------------

  /** Handles and an error that an operation comes across without looking at them. */
  function Beside(kept: Proc, own: Proc): Proc {
    Proc(own.pc, kept.released + own.released,
         if own.refusal.Some? then own.refusal else kept.refusal)
  }

  lemma ActBeside(d: Disk, live: set<int>, p: int, kept: Proc, own: Proc)
    ensures Act(d, live, p, Beside(kept, own))
         == (Act(d, live, p, own).0, Beside(kept, Act(d, live, p, own).1))
  {
    assert kept.released + own.released + [false] == kept.released + (own.released + [false]);
  }

  lemma {:induction false} FinishBeside(w: World, n: nat, d: Disk, p: int, kept: Proc, own: Proc)
    ensures var (m, e, end) := Finish(w, n, d, p, own);
            Finish(w, n, d, p, Beside(kept, own)) == (m, e, Beside(kept, end))
    decreases Rank(own.pc)
  {
    hide Act, Rank;
    if own.pc.Idle? {
      FinishIdle(w, n, d, p, own);
      FinishIdle(w, n, d, p, Beside(kept, own));
    } else {
      var (d', own') := Act(w.others(n, d), w.alive(n), p, own);
      ActBeside(w.others(n, d), w.alive(n), p, kept, own);
      FinishGoesOn(w, n, d, p, own);
      FinishGoesOn(w, n, d, p, Beside(kept, own));
      ActLowersRank(w.others(n, d), w.alive(n), p, own);
      FinishBeside(w, n + 1, d', p, kept, own');
    }
  }

  lemma ActLowersRank(d: Disk, live: set<int>, p: int, proc: Proc)
    requires !proc.pc.Idle?
    ensures Rank(Act(d, live, p, proc).1.pc) < Rank(proc.pc)
  {}

  // ---- The code in a run --------------------------------------------------------------------

  lemma AcquireBeside(w: World, d: Disk, proc: Proc, mine: Contents)
    requires proc.pc.Idle?
    ensures var (n, e, end) := Operation(w, 0, d, NEWBORN, CallAcquire(mine.pid, mine));
            Operation(w, 0, d, proc, CallAcquire(mine.pid, mine)) == (n, e, Beside(proc, end))
  {
    hide Finish, Act;
    var own := Effect(w.others(0, d), w.alive(0), NEWBORN, CallAcquire(mine.pid, mine));
    assert proc.released + [] == proc.released;
    FinishBeside(w, 1, own.0, mine.pid, proc, own.1);
  }

  /** An acquisition in a run: `AcquireLock`, in the world it sees there, makes the same calls, leaves
      the same file, and returns a handle or the same error. */
  method AcquireInRun(st: State, mine: Contents, run: seq<Step>) returns (path: Path, r: Acquired)
    requires mine.pid in st.live && mine.pid in st.procs && st.procs[mine.pid].pc.Idle?
    requires Proceeds(run, mine.pid)
    requires Over(Next(st, CallAcquire(mine.pid, mine)), run, mine.pid)
    ensures var p, step := mine.pid, CallAcquire(mine.pid, mine);
            var st1 := Next(st, step);
            && path.calls == |StatesIn(st, step, run)|
            && path.disk == OwnDisk(st1, run, p, st1.disk)
            && Exec(st1, run).procs[p]
               == (if r.Handle?
                   then st.procs[p].(released := st.procs[p].released + [false])
                   else st.procs[p].(refusal := Some(r.existing)))
  {
    var step := CallAcquire(mine.pid, mine);
    var w := WorldIn(st, step, run);
    OperationInRun(st, step, run);
    AcquireBeside(w, st.disk, st.procs[mine.pid], mine);
    hide Operation, StatesIn, WorldIn, OwnDisk, Exec, Next;
    path := new Path(w, st.disk);
    r := AcquireLock(path, mine);
    assert st.procs[mine.pid].released + [] == st.procs[mine.pid].released;
  }

  /** Releases and updates give no handle and leave no error. */
  lemma {:induction false} FinishPlain(w: World, n: nat, d: Disk, p: int, pc: Pc)
    requires !pc.Opened? && !pc.MustInspect? && !pc.MustUnlink? && !pc.MustRetry?
    ensures Finish(w, n, d, p, Proc(pc, [], None)).2 == NEWBORN
    decreases Rank(pc)
  {
    if !pc.Idle? {
      var (d', own) := Act(w.others(n, d), w.alive(n), p, Proc(pc, [], None));
      FinishGoesOn(w, n, d, p, Proc(pc, [], None));
      FinishPlain(w, n + 1, d', p, own.pc);
    }
  }

  /** Hence what they do to the file does not depend on what else the process has. */
  lemma FinishAlike(w: World, n: nat, d: Disk, p: int, pc: Pc, a: Proc, b: Proc)
    requires !pc.Opened? && !pc.MustInspect? && !pc.MustUnlink? && !pc.MustRetry?
    requires a.pc == b.pc == pc
    ensures Finish(w, n, d, p, a).0 == Finish(w, n, d, p, b).0
    ensures Finish(w, n, d, p, a).1 == Finish(w, n, d, p, b).1
    ensures Finish(w, n, d, p, a).2 == a.(pc := Idle)
  {
    hide Finish, Act;
    var own := Proc(pc, [], None);
    FinishPlain(w, n, d, p, pc);
    FinishBeside(w, n, d, p, a, own);
    FinishBeside(w, n, d, p, b, own);
    assert a.released + [] == a.released && b.released + [] == b.released;
    assert Beside(a, own) == a && Beside(b, own) == b;
  }

  lemma ReleaseBeside(w: World, d: Disk, p: int, proc: Proc, h: nat)
    requires proc.pc.Idle? && h < |proc.released| && !proc.released[h]
    ensures var alone := Operation(w, 0, d, Proc(Idle, [false], None), CallRelease(p, 0));
            (Operation(w, 0, d, proc, CallRelease(p, h))
             == (alone.0, alone.1, proc.(released := proc.released[h := true])))
  {
    hide Finish, Act;
    assert [false][0 := true] == [true];
    var (d', own) := Effect(w.others(0, d), w.alive(0), Proc(Idle, [false], None),
                            CallRelease(p, 0));
    var (_, mine) := Effect(w.others(0, d), w.alive(0), proc, CallRelease(p, h));
    FinishAlike(w, 1, d', p, own.pc, mine, own);
  }

  lemma UpdateBeside(w: World, d: Disk, p: int, proc: Proc, flag: bool, port: int)
    requires proc.pc.Idle? && proc.released != []
    ensures var alone := Operation(w, 0, d, Proc(Idle, [flag], None), CallUpdatePort(p, port));
            Operation(w, 0, d, proc, CallUpdatePort(p, port)) == (alone.0, alone.1, proc)
  {
    hide Finish, Act;
    var (d', own) := Effect(w.others(0, d), w.alive(0), Proc(Idle, [flag], None),
                            CallUpdatePort(p, port));
    var (_, mine) := Effect(w.others(0, d), w.alive(0), proc, CallUpdatePort(p, port));
    FinishAlike(w, 1, d', p, own.pc, mine, own);
  }

  /** The first release of a handle in a run: `Release`, in the world the process sees there. */
  method ReleaseInRun(st: State, p: int, h: nat, run: seq<Step>) returns (path: Path)
    requires p in st.live && p in st.procs && st.procs[p].pc.Idle?
    requires h < |st.procs[p].released| && !st.procs[p].released[h]
    requires Proceeds(run, p) && Over(Next(st, CallRelease(p, h)), run, p)
    ensures var step := CallRelease(p, h);
            var st1 := Next(st, step);
            && path.calls == |StatesIn(st, step, run)|
            && path.disk == OwnDisk(st1, run, p, st1.disk)
            && Exec(st1, run).procs[p]
               == st.procs[p].(released := st.procs[p].released[h := true])
  {
    var step := CallRelease(p, h);
    var w := WorldIn(st, step, run);
    OperationInRun(st, step, run);
    ReleaseBeside(w, st.disk, p, st.procs[p], h);
    hide Operation, StatesIn, WorldIn, OwnDisk, Exec, Next;
    path := new Path(w, st.disk);
    var handle := new ReleaseHandle(path, p);
    handle.Release();
  }

  /** A port update in a run, through a handle released or not: `UpdatePort`, likewise. */
  method UpdateInRun(st: State, p: int, h: nat, port: int, run: seq<Step>) returns (path: Path)
    requires p in st.live && p in st.procs && st.procs[p].pc.Idle?
    requires h < |st.procs[p].released|
    requires Proceeds(run, p) && Over(Next(st, CallUpdatePort(p, port)), run, p)
    ensures var step := CallUpdatePort(p, port);
            var st1 := Next(st, step);
            && path.calls == |StatesIn(st, step, run)|
            && path.disk == OwnDisk(st1, run, p, st1.disk)
            && Exec(st1, run).procs[p] == st.procs[p]
  {
    var step := CallUpdatePort(p, port);
    var w := WorldIn(st, step, run);
    OperationInRun(st, step, run);
    UpdateBeside(w, st.disk, p, st.procs[p], st.procs[p].released[h], port);
    hide Operation, StatesIn, WorldIn, OwnDisk, Exec, Next;
    path := new Path(w, st.disk);
    var handle := new ReleaseHandle(path, p);
    handle.released := st.procs[p].released[h];
    handle.UpdatePort(port);
  }

  /** Releasing a handle again does nothing, here as in `Release`. */
  lemma SecondReleaseInRun(st: State, p: int, h: nat)
    requires p in st.procs && h < |st.procs[p].released| && st.procs[p].released[h]
    ensures Next(st, CallRelease(p, h)) == st
  {
    assert st.procs[p := st.procs[p]] == st.procs;
  }
}

/** The single-instance lock (packages/kap-server/src/lock.ts), one system call at a time: any
    number of processes, any of which may die between two of its calls. */
module LockFile {
  import opened Wrappers

  datatype Contents = Contents(pid: int, startedAt: string, port: int, host: Option<string>,
                               hostVersion: Option<string>, entry: Option<string>)

  // ---- The file -----------------------------------------------------------------------------

  /** The directory entry of the lock path, and for every file ever created what it parses to:
      None when it is empty, cut short or not a lock. An open descriptor keeps naming its file
      after the entry is gone. */
  datatype Disk = Disk(entry: Option<nat>, data: seq<Option<Contents>>)

  function Read(d: Disk): Option<Contents> {
    if d.entry.Some? && d.entry.value < |d.data| then d.data[d.entry.value] else None
  }

  function Create(d: Disk): Disk { Disk(Some(|d.data|), d.data + [None]) }

  /** Opening to overwrite empties the file, or makes one. */
  function Truncate(d: Disk): Disk {
    if d.entry.Some? && d.entry.value < |d.data|
    then d.(data := d.data[d.entry.value := None]) else Create(d)
  }

  function WriteTo(d: Disk, fd: nat, c: Contents): Disk {
    if fd < |d.data| then d.(data := d.data[fd := Some(c)]) else d
  }

  function Unlink(d: Disk): Disk { d.(entry := None) }

  // ---- Processes ----------------------------------------------------------------------------

  /** Where a process stands: what its next system call is. */
  datatype Pc =
    | Idle
    | Opened(fd: nat, mine: Contents)
    | MustInspect(mine: Contents)
    | MustUnlink(mine: Contents)
    | MustRetry(mine: Contents)
    | ReleaseRead
    | ReleaseUnlink
    | UpdateRead(port: int)
    | UpdateTruncate(next: Contents)
    | UpdateWrite(fd: nat, next: Contents)

  /** `released` has the flag of every handle the process has been given; `refusal` is the error
      its last failed acquisition threw. */
  datatype Proc = Proc(pc: Pc, released: seq<bool>, refusal: Option<Contents>)

  const NEWBORN := Proc(Idle, [], None)

  /** Processes in `procs` but not in `live` have ended; their pids are not used again. */
  datatype State = State(disk: Disk, live: set<int>, procs: map<int, Proc>)

  datatype Step =
    | Spawn(pid: int)
    | Crash(pid: int)
    | CallAcquire(pid: int, contents: Contents)
    | CallRelease(pid: int, handle: nat)
    | CallUpdatePort(pid: int, port: int)
    | Advance(pid: int)

  function TryOpen(d: Disk, proc: Proc, mine: Contents, otherwise: Proc): (Disk, Proc) {
    if d.entry.None? then (Create(d), proc.(pc := Opened(|d.data|, mine))) else (d, otherwise)
  }

  function StartRelease(d: Disk, proc: Proc, handle: nat): (Disk, Proc) {
    if handle >= |proc.released| || proc.released[handle] then (d, proc)
    else
      (d, proc.(released := proc.released[handle := true],
                pc := if d.entry.None? then Idle else ReleaseRead))
  }

  /** The system call a process is about to make. */
  function Act(d: Disk, live: set<int>, p: int, proc: Proc): (Disk, Proc) {
    match proc.pc
    case Idle => (d, proc)
    case Opened(fd, mine) =>
      (WriteTo(d, fd, mine), proc.(pc := Idle, released := proc.released + [false]))
    case MustInspect(mine) =>
      var existing := Read(d);
      if existing.Some? && existing.value.pid in live
      then (d, proc.(pc := Idle, refusal := existing))
      else (d, proc.(pc := MustUnlink(mine)))
    case MustUnlink(mine) => (Unlink(d), proc.(pc := MustRetry(mine)))
    case MustRetry(mine) =>
      var noWinner := Contents(-1, "", mine.port, None, None, None);
      TryOpen(d, proc, mine, proc.(pc := Idle, refusal := Some(Read(d).GetOr(noWinner))))
    case ReleaseRead =>
      var contents := Read(d);
      if contents.Some? && contents.value.pid != p then (d, proc.(pc := Idle))
      else (d, proc.(pc := ReleaseUnlink))
    case ReleaseUnlink => (Unlink(d), proc.(pc := Idle))
    case UpdateRead(port) =>
      var contents := Read(d);
      if contents.None? || contents.value.pid != p || contents.value.port == port
      then (d, proc.(pc := Idle))
      else (d, proc.(pc := UpdateTruncate(contents.value.(port := port))))
    case UpdateTruncate(next) =>
      (Truncate(d), proc.(pc := UpdateWrite(Truncate(d).entry.GetOr(0), next)))
    case UpdateWrite(fd, next) => (WriteTo(d, fd, next), proc.(pc := Idle))
  }

  /** What a step of a living process does to the disk and to the process. A call is made only
      when the previous one is over. */
  function Effect(d: Disk, live: set<int>, proc: Proc, step: Step): (Disk, Proc) {
    match step
    case CallAcquire(p, c) =>
      if proc.pc.Idle? then
        var mine := c.(pid := p);
        TryOpen(d, proc, mine, proc.(pc := MustInspect(mine)))
      else (d, proc)
    case CallRelease(p, h) => if proc.pc.Idle? then StartRelease(d, proc, h) else (d, proc)
    case CallUpdatePort(p, port) =>
      if proc.pc.Idle? && proc.released != [] && d.entry.Some?
      then (d, proc.(pc := UpdateRead(port))) else (d, proc)
    case Advance(p) => Act(d, live, p, proc)
    case _ => (d, proc)
  }

  function Next(st: State, step: Step): State {
    match step
    case Spawn(p) =>
      if p in st.procs then st
      else st.(live := st.live + {p}, procs := st.procs[p := NEWBORN])
    case Crash(p) => st.(live := st.live - {p})
    case _ =>
      var p := step.pid;
      if p !in st.live || p !in st.procs then st
      else
        var (d, proc) := Effect(st.disk, st.live, st.procs[p], step);
        st.(disk := d, procs := st.procs[p := proc])
  }

  function Exec(st: State, run: seq<Step>): State
    decreases |run|
  {
    if run == [] then st else Exec(Next(st, run[0]), run[1..])
  }

  // ---- Which schedules are safe -------------------------------------------------------------

  /** The pairs of calls between which the file does not say who has it: created but not yet
      written, found stale but not yet removed, emptied but not yet rewritten. */
  datatype Window = Creating | TakingOver | Rewriting

  const WINDOWS := {Creating, TakingOver, Rewriting}

  predicate Inside(pc: Pc, windows: set<Window>) {
    || (pc.Opened? && Creating in windows)
    || (pc.MustUnlink? && TakingOver in windows)
    || (pc.UpdateWrite? && Rewriting in windows)
  }

  /** No process makes a call while another is inside one of these windows. Processes may start,
      and may die inside a window. */
  ghost predicate Undisturbed(st: State, step: Step, windows: set<Window>) {
    step.Spawn? || step.Crash?
    || forall q :: q in st.live && q in st.procs && Inside(st.procs[q].pc, windows) ==>
         q == step.pid
  }

  ghost predicate UndisturbedRun(st: State, run: seq<Step>, windows: set<Window>)
    decreases |run|
  {
    run == [] || (Undisturbed(st, run[0], windows)
                  && UndisturbedRun(Next(st, run[0]), run[1..], windows))
  }

  /** A process that has been given the lock and has not begun to release it. */
  ghost predicate Holds(st: State, p: int) {
    p in st.live && p in st.procs && false in st.procs[p].released
  }

  /** Whatever was on disk, and whatever processes there were, before the first server. */
  ghost predicate Initial(st: State) {
    forall p :: p in st.live ==> p in st.procs && st.procs[p] == NEWBORN
  }

  // ---- The invariant ------------------------------------------------------------------------

  /** The process counts on the file being its own. */
  ghost predicate Claims(proc: Proc) {
    false in proc.released
    || proc.pc.ReleaseRead? || proc.pc.ReleaseUnlink?
    || proc.pc.UpdateTruncate? || proc.pc.UpdateWrite?
  }

  ghost predicate Names(d: Disk, p: int) { Read(d).Some? && Read(d).value.pid == p }

  ghost predicate Blank(d: Disk, fd: nat) { d.entry == Some(fd) && fd < |d.data| && Read(d).None? }

  ghost predicate Owns(d: Disk, p: int, proc: Proc) {
    if proc.pc.UpdateWrite? then Blank(d, proc.pc.fd) else Names(d, p)
  }

  ghost predicate PcSound(d: Disk, p: int, pc: Pc) {
    match pc
    case Opened(fd, mine) => mine.pid == p && Blank(d, fd)
    case MustInspect(mine) => mine.pid == p
    case MustUnlink(mine) => mine.pid == p
    case MustRetry(mine) => mine.pid == p
    case UpdateTruncate(next) => next.pid == p
    case UpdateWrite(_, next) => next.pid == p
    case _ => true
  }

  ghost predicate OneOpen(proc: Proc) {
    && (forall i, j :: 0 <= i < j < |proc.released| ==> proc.released[i] || proc.released[j])
    && (proc.pc.ReleaseRead? || proc.pc.ReleaseUnlink? ==> false !in proc.released)
  }

  ghost predicate Sound(d: Disk, p: int, proc: Proc) {
    (Claims(proc) ==> Owns(d, p, proc)) && PcSound(d, p, proc.pc) && OneOpen(proc)
  }

  /** Two processes stand in each other's way: both in a window, or one about to remove a file
      that the other counts on. */
  ghost predicate Clash(a: Proc, b: Proc) {
    Inside(a.pc, WINDOWS) && (Inside(b.pc, WINDOWS) || (a.pc.MustUnlink? && Claims(b)))
  }

  ghost predicate Inv(st: State) {
    && (forall p :: p in st.live ==> p in st.procs && Sound(st.disk, p, st.procs[p]))
    && (forall p :: p in st.live ==> !(st.procs[p].pc.MustUnlink? && Claims(st.procs[p])))
    && (forall p, q :: p in st.live && q in st.live && p != q ==>
          !Clash(st.procs[p], st.procs[q]))
  }

  lemma ReleaseSound(d: Disk, p: int, proc: Proc, handle: nat)
    requires Sound(d, p, proc) && proc.pc.Idle?
    ensures var (d', proc') := StartRelease(d, proc, handle);
            d' == d && Sound(d, p, proc')
  {
    if handle < |proc.released| && !proc.released[handle] {
      var after := proc.released[handle := true];
      assert false in proc.released;
      assert forall i :: 0 <= i < |after| ==> after[i];
    }
  }

  lemma CallSound(d: Disk, live: set<int>, p: int, proc: Proc)
    requires p in live && Sound(d, p, proc) && !(proc.pc.MustUnlink? && Claims(proc))
    ensures Sound(Act(d, live, p, proc).0, p, Act(d, live, p, proc).1)
  {
    if proc.pc.Opened? {
      assert !Claims(proc);
    }
  }

  lemma ActorSound(d: Disk, live: set<int>, proc: Proc, step: Step)
    requires step.pid in live && Sound(d, step.pid, proc)
    requires !(proc.pc.MustUnlink? && Claims(proc))
    ensures Sound(Effect(d, live, proc, step).0, step.pid, Effect(d, live, proc, step).1)
  {
    hide Act, StartRelease;
    if step.Advance? {
      CallSound(d, live, step.pid, proc);
    } else if step.CallRelease? && proc.pc.Idle? {
      ReleaseSound(d, step.pid, proc, step.handle);
    }
  }

  lemma ActorKeepsOut(d: Disk, live: set<int>, proc: Proc, step: Step)
    requires step.pid in live && Sound(d, step.pid, proc)
    requires !(proc.pc.MustUnlink? && Claims(proc))
    ensures var proc' := Effect(d, live, proc, step).1;
            !(proc'.pc.MustUnlink? && Claims(proc'))
  {}

  /** A process outside every window is not disturbed by anyone else's call. */
  lemma BystanderSound(d: Disk, live: set<int>, proc: Proc, step: Step, q: int, other: Proc)
    requires step.pid in live && q in live && q != step.pid
    requires Sound(d, step.pid, proc) && Sound(d, q, other)
    requires !Inside(other.pc, WINDOWS) && !Clash(proc, other)
    ensures var (d', proc') := Effect(d, live, proc, step);
            Sound(d', q, other) && !Clash(proc', other) && !Clash(other, proc')
    ensures Claims(other) ==> Effect(d, live, proc, step).0 == d
  {
    hide OneOpen;
  }

  lemma NextKeepsInv(st: State, step: Step)
    requires Inv(st) && Undisturbed(st, step, WINDOWS)
    ensures Inv(Next(st, step))
  {
    hide Effect, Sound, Clash, Claims;
    var p := step.pid;
    if step.Spawn? {
      SpawnKeepsInv(st, p);
    } else if !step.Crash? && p in st.live && p in st.procs {
      var proc := st.procs[p];
      ActorSound(st.disk, st.live, proc, step);
      ActorKeepsOut(st.disk, st.live, proc, step);
      forall q | q in st.live && q != p
        ensures var (d', proc') := Effect(st.disk, st.live, proc, step);
                && Sound(d', q, st.procs[q])
                && !Clash(proc', st.procs[q]) && !Clash(st.procs[q], proc')
      {
        BystanderSound(st.disk, st.live, proc, step, q, st.procs[q]);
      }
    }
  }

  lemma SpawnKeepsInv(st: State, p: int)
    requires Inv(st)
    ensures Inv(Next(st, Spawn(p)))
  {
    assert Sound(st.disk, p, NEWBORN);
    hide Names, OneOpen, Read;
  }

  lemma {:induction false} RunKeepsInv(st: State, run: seq<Step>)
    requires Inv(st) && UndisturbedRun(st, run, WINDOWS)
    ensures Inv(Exec(st, run))
    decreases |run|
  {
    hide Inv, Next, Undisturbed;
    if run != [] {
      NextKeepsInv(st, run[0]);
      RunKeepsInv(Next(st, run[0]), run[1..]);
    }
  }

  // ---- Mutual exclusion ---------------------------------------------------------------------

  /** Every living holder's pid is the one in the lock file, unless that holder is at this moment
      rewriting the port; hence there is at most one. */
  lemma AtMostOneHolder(st: State, run: seq<Step>, p: int, q: int)
    requires Initial(st) && UndisturbedRun(st, run, WINDOWS)
    requires Holds(Exec(st, run), p) && Holds(Exec(st, run), q)
    ensures p == q
    ensures var end := Exec(st, run);
            Names(end.disk, p) || end.procs[p].pc.UpdateWrite?
  {
    RunKeepsInv(st, run);
    hide Exec, UndisturbedRun, Initial;
    var end := Exec(st, run);
    assert Claims(end.procs[p]) && Claims(end.procs[q]);
    assert Sound(end.disk, p, end.procs[p]) && Sound(end.disk, q, end.procs[q]);
  }

  /** No call of another process, whether it acquires, releases an old handle or rewrites its
      port, changes the lock file under a living holder. */
  lemma OthersLeaveItAlone(st: State, run: seq<Step>, step: Step, q: int)
    requires Initial(st) && UndisturbedRun(st, run, WINDOWS)
    requires Holds(Exec(st, run), q) && step.pid != q && Undisturbed(Exec(st, run), step, WINDOWS)
    ensures Next(Exec(st, run), step).disk == Exec(st, run).disk
  {
    RunKeepsInv(st, run);
    var end := Exec(st, run);
    hide Exec, UndisturbedRun, Initial, Effect;
    var p := step.pid;
    if !step.Spawn? && !step.Crash? && p in end.live {
      BystanderSound(end.disk, end.live, end.procs[p], step, q, end.procs[q]);
    }
  }

  // ---- Why every window matters -------------------------------------------------------------

  lemma {:induction false} RunConcat(st: State, a: seq<Step>, b: seq<Step>, windows: set<Window>)
    ensures Exec(st, a + b) == Exec(Exec(st, a), b)
    ensures UndisturbedRun(st, a + b, windows)
       <==> UndisturbedRun(st, a, windows) && UndisturbedRun(Exec(st, a), b, windows)
    decreases |a|
  {
    hide Next, Undisturbed;
    if a == [] {
      assert a + b == b;
    } else {
      assert (a + b)[1..] == a[1..] + b;
      RunConcat(Next(st, a[0]), a[1..], b, windows);
    }
  }

  ghost predicate OthersOutside(st: State, p: int, windows: set<Window>) {
    forall q :: q in st.live && q in st.procs && q != p ==> !Inside(st.procs[q].pc, windows)
  }

  lemma {:induction false} AloneIsUndisturbed(st: State, run: seq<Step>, p: int,
                                              windows: set<Window>)
    requires forall i :: 0 <= i < |run| ==> run[i].pid == p
    requires OthersOutside(st, p, windows)
    ensures UndisturbedRun(st, run, windows)
    decreases |run|
  {
    hide Effect, Inside;
    if run != [] {
      AloneIsUndisturbed(Next(st, run[0]), run[1..], p, windows);
    }
  }

  lemma StepByStep(st: State, run: seq<Step>)
    ensures Exec(st, run[..0]) == st
    ensures forall i :: 0 <= i < |run| ==>
              Exec(st, run[..i + 1]) == Next(Exec(st, run[..i]), run[i])
    ensures run[..|run|] == run
  {
    hide Next;
    forall i | 0 <= i < |run|
      ensures Exec(st, run[..i + 1]) == Next(Exec(st, run[..i]), run[i])
    {
      RunConcat(st, run[..i], [run[i]], {});
      assert run[..i] + [run[i]] == run[..i + 1];
    }
  }

  function TakeOver(p: int, c: Contents): seq<Step> {
    [CallAcquire(p, c), Advance(p), Advance(p), Advance(p), Advance(p)]
  }

  /** A lock that is unreadable or names a dead process is taken over, in five calls. */
  lemma StaleLockIsTakenOver(st: State, p: int, c: Contents, windows: set<Window>)
    requires p in st.live && p in st.procs && st.procs[p].pc.Idle?
    requires st.disk.entry.Some?
    requires Read(st.disk).None? || Read(st.disk).value.pid !in st.live
    requires OthersOutside(st, p, windows)
    ensures var end := Exec(st, TakeOver(p, c));
            && UndisturbedRun(st, TakeOver(p, c), windows)
            && end == State(Disk(Some(|st.disk.data|), st.disk.data + [Some(c.(pid := p))]),
                            st.live,
                            st.procs[p := Proc(Idle, st.procs[p].released + [false],
                                               st.procs[p].refusal)])
  {
    var mine := c.(pid := p);
    var proc := st.procs[p];
    var s1 := st.(procs := st.procs[p := proc.(pc := MustInspect(mine))]);
    var s2 := st.(procs := st.procs[p := proc.(pc := MustUnlink(mine))]);
    var s3 := st.(disk := Unlink(st.disk), procs := st.procs[p := proc.(pc := MustRetry(mine))]);
    var s4 := st.(disk := Create(st.disk),
                  procs := st.procs[p := proc.(pc := Opened(|st.disk.data|, mine))]);
    assert Next(st, CallAcquire(p, c)) == s1;
    assert Next(s1, Advance(p)) == s2 && Next(s2, Advance(p)) == s3;
    assert Next(s3, Advance(p)) == s4;
    hide Exec, UndisturbedRun;
    StepByStep(st, TakeOver(p, c));
    AloneIsUndisturbed(st, TakeOver(p, c), p, windows);
  }

  ghost predicate Exclusive(windows: set<Window>) {
    forall st: State, run: seq<Step>, p: int, q: int ::
      (Initial(st) && UndisturbedRun(st, run, windows)
       && Holds(Exec(st, run), p) && Holds(Exec(st, run), q)) ==> p == q
  }

  lemma {:induction false} OthersAreKept(st: State, run: seq<Step>, p: int, q: int)
    requires forall i :: 0 <= i < |run| ==> run[i].pid == p
    requires p != q && q in st.live && q in st.procs
    ensures q in Exec(st, run).live && q in Exec(st, run).procs
    ensures Exec(st, run).procs[q] == st.procs[q]
    decreases |run|
  {
    hide Effect;
    if run != [] {
      OthersAreKept(Next(st, run[0]), run[1..], p, q);
    }
  }

  /** Two idle processes. */
  function Pair(d: Disk): State { State(d, {1, 2}, map[1 := NEWBORN, 2 := NEWBORN]) }

  function Draft(p: int): Contents { Contents(p, "", 0, None, None, None) }

  function AfterIntruder(st: State): State
    requires 2 in st.procs
  {
    State(Disk(Some(|st.disk.data|), st.disk.data + [Some(Draft(2))]), st.live,
          st.procs[2 := Proc(Idle, [false], None)])
  }

  /** The second process takes the lock over between two calls of the first, and the first goes
      on to hold it as well. */
  lemma IntruderBreaksIn(st: State, before: seq<Step>, after: seq<Step>, windows: set<Window>)
    requires Initial(st) && UndisturbedRun(st, before, windows)
    requires forall i :: 0 <= i < |after| ==> after[i].pid == 1
    requires var s1 := Exec(st, before);
             && 2 in s1.live && 2 in s1.procs && s1.procs[2] == NEWBORN
             && OthersOutside(s1, 2, windows)
             && s1.disk.entry.Some?
             && (Read(s1.disk).Some? ==> Read(s1.disk).value.pid !in s1.live)
             && OthersOutside(AfterIntruder(s1), 1, windows)
             && Holds(Exec(AfterIntruder(s1), after), 1)
    ensures !Exclusive(windows)
  {
    hide Exec, UndisturbedRun, Inside, Initial;
    var s1 := Exec(st, before);
    var takeOver := TakeOver(2, Draft(2));
    StaleLockIsTakenOver(s1, 2, Draft(2), windows);
    AloneIsUndisturbed(AfterIntruder(s1), after, 1, windows);
    OthersAreKept(AfterIntruder(s1), after, 1, 2);
    RunConcat(st, before, takeOver, windows);
    RunConcat(st, before + takeOver, after, windows);
    assert [] + [false] == [false];
    assert Exec(s1, takeOver) == AfterIntruder(s1);
    var run := before + takeOver + after;
    assert Exec(st, run) == Exec(AfterIntruder(s1), after);
    assert false in [false];
    assert Holds(Exec(st, run), 1) && Holds(Exec(st, run), 2);
  }

  /** The first process has made the file, which the second finds blank; the first then writes to
      the file it made. */
  lemma CreatingMatters(windows: set<Window>)
    requires Creating !in windows
    ensures !Exclusive(windows)
  {
    var st, before, after := Pair(Disk(None, [])), [CallAcquire(1, Draft(1))], [Advance(1)];
    var s1 := Next(st, before[0]);
    assert s1 == State(Disk(Some(0), [None]), {1, 2},
                       map[1 := Proc(Opened(0, Draft(1)), [], None), 2 := NEWBORN]);
    assert Next(AfterIntruder(s1), after[0]).procs[1].released == [false];
    assert false in [false];
    StepByStep(st, before);
    AloneIsUndisturbed(st, before, 1, windows);
    StepByStep(AfterIntruder(s1), after);
    hide Next, Exec, UndisturbedRun;
    IntruderBreaksIn(st, before, after, windows);
  }

  lemma LateTakeOver(st: State)
    requires 1 in st.live && 1 in st.procs && st.procs[1].pc.MustUnlink?
    ensures var end := Next(Next(Next(st, Advance(1)), Advance(1)), Advance(1));
            end.live == st.live && 1 in end.procs && false in end.procs[1].released
  {
    var proc, mine := st.procs[1], st.procs[1].pc.mine;
    var s1 := st.(disk := Unlink(st.disk), procs := st.procs[1 := proc.(pc := MustRetry(mine))]);
    assert Next(st, Advance(1)) == s1;
    var s2 := Next(s1, Advance(1));
    assert s2.procs[1] == proc.(pc := Opened(|st.disk.data|, mine));
    assert (proc.released + [false])[|proc.released|] == false;
  }

  /** Both have found the same stale lock; the first then removes what the second has just
      created. */
  lemma TakingOverMatters(windows: set<Window>)
    requires TakingOver !in windows
    ensures !Exclusive(windows)
  {
    var st := Pair(Disk(Some(0), [None]));
    var before := [CallAcquire(1, Draft(1)), Advance(1)];
    var after := [Advance(1), Advance(1), Advance(1)];
    var s1 := Next(Next(st, before[0]), before[1]);
    assert s1 == st.(procs := st.procs[1 := Proc(MustUnlink(Draft(1)), [], None)]);
    var t := AfterIntruder(s1);
    var t2 := Next(Next(t, Advance(1)), Advance(1));
    LateTakeOver(t);
    assert false in [false];
    StepByStep(st, before);
    AloneIsUndisturbed(st, before, 1, windows);
    StepByStep(t, after);
    hide Next, Exec, UndisturbedRun, Exclusive;
    assert Exec(st, before[..1 + 1]) == s1;
    assert Exec(t, after[..1 + 1]) == t2;
    IntruderBreaksIn(st, before, after, windows);
  }

  /** The first process holds the lock, in the course of changing its port. */
  function Rewriter(pc: Pc): State {
    State(Disk(Some(0), [if pc.UpdateWrite? then None else Some(Draft(1))]), {1, 2},
          map[1 := Proc(pc, [false], None), 2 := NEWBORN])
  }

  const MOVED := Draft(1).(port := 1)

  function RewriterRun(): seq<Step> {
    [CallAcquire(1, Draft(1)), Advance(1), CallUpdatePort(1, 1), Advance(1), Advance(1)]
  }

  lemma RewriterSteps()
    ensures Next(Next(Pair(Disk(None, [])), CallAcquire(1, Draft(1))), Advance(1))
         == Rewriter(Idle)
    ensures Next(Rewriter(Idle), CallUpdatePort(1, 1)) == Rewriter(UpdateRead(1))
    ensures Next(Rewriter(UpdateRead(1)), Advance(1)) == Rewriter(UpdateTruncate(MOVED))
    ensures Next(Rewriter(UpdateTruncate(MOVED)), Advance(1)) == Rewriter(UpdateWrite(0, MOVED))
  {
    var st := Pair(Disk(None, []));
    var s1 := Next(st, CallAcquire(1, Draft(1)));
    assert s1 == st.(disk := Disk(Some(0), [None]),
                     procs := st.procs[1 := Proc(Opened(0, Draft(1)), [], None)]);
    assert [] + [false] == [false];
  }

  lemma RewriterReached()
    ensures Exec(Pair(Disk(None, [])), RewriterRun()) == Rewriter(UpdateWrite(0, MOVED))
  {
    hide Next, Exec, Rewriter, Pair, Draft;
    var st, run := Pair(Disk(None, [])), RewriterRun();
    RewriterSteps();
    StepByStep(st, run);
    assert Exec(st, run[..0 + 1]) == Next(st, CallAcquire(1, Draft(1)));
    assert Exec(st, run[..1 + 1]) == Rewriter(Idle);
    assert Exec(st, run[..2 + 1]) == Rewriter(UpdateRead(1));
    assert Exec(st, run[..3 + 1]) == Rewriter(UpdateTruncate(MOVED));
    assert Exec(st, run[..4 + 1]) == Rewriter(UpdateWrite(0, MOVED));
  }

  /** The first holds the lock and has emptied the file to rewrite the port, when the second finds
      it blank. */
  lemma RewritingMatters(windows: set<Window>)
    requires Rewriting !in windows
    ensures !Exclusive(windows)
  {
    assert Exec(AfterIntruder(Rewriter(UpdateWrite(0, MOVED))), [])
        == AfterIntruder(Rewriter(UpdateWrite(0, MOVED)));
    hide Next, Exec, UndisturbedRun, Exclusive;
    var st := Pair(Disk(None, []));
    RewriterReached();
    AloneIsUndisturbed(st, RewriterRun(), 1, windows);
    assert false in [false];
    IntruderBreaksIn(st, RewriterRun(), [], windows);
  }

  lemma WindowsSuffice()
    ensures Exclusive(WINDOWS)
  {
    forall st: State, run: seq<Step>, p: int, q: int
      | Initial(st) && UndisturbedRun(st, run, WINDOWS)
        && Holds(Exec(st, run), p) && Holds(Exec(st, run), q)
      ensures p == q
    {
      AtMostOneHolder(st, run, p, q);
    }
  }

  /** At most one process holds the lock in every run, if and only if no one makes a call while
      another process is in one of the three windows. */
  lemma ExclusiveIff(windows: set<Window>)
    ensures Exclusive(windows) <==> windows == WINDOWS
  {
    hide Exclusive;
    if Creating !in windows {
      CreatingMatters(windows);
    } else if TakingOver !in windows {
      TakingOverMatters(windows);
    } else if Rewriting !in windows {
      RewritingMatters(windows);
    } else {
      forall w: Window
        ensures w in windows && w in WINDOWS
      {
        match w {
          case Creating =>
          case TakingOver =>
          case Rewriting =>
        }
      }
      assert windows == WINDOWS;
      WindowsSuffice();
    }
  }
}

/** The operations on the lock when nobody else comes in between: what each does to the file, and that
    a lock released is there for the next process. */
module LockAlone {
  import opened Wrappers
  import opened LockFile

  ghost predicate Ready(st: State, p: int) {
    p in st.live && p in st.procs && st.procs[p].pc.Idle?
  }

  /** The state after the process's next call. */
  lemma Advances(st: State, p: int, pc: Pc, disk: Disk, proc: Proc)
    requires p in st.live && p in st.procs && st.procs[p].pc == pc
    requires Act(st.disk, st.live, p, st.procs[p]) == (disk, proc)
    ensures Next(st, Advance(p)) == st.(disk := disk, procs := st.procs[p := proc])
  {}

  lemma AdvanceIdle(st: State, p: int)
    requires Ready(st, p)
    ensures Next(st, Advance(p)) == st
  {
    assert st.procs[p := st.procs[p]] == st.procs;
  }

  lemma ExecThree(st: State, a: Step, b: Step, c: Step)
    ensures Exec(st, [a, b]) == Next(Next(st, a), b)
    ensures Exec(st, [a, b, c]) == Next(Next(Next(st, a), b), c)
  {
    hide Next;
    StepByStep(st, [a, b, c]);
    StepByStep(st, [a, b]);
    assert Exec(st, [a, b, c][..0 + 1]) == Next(st, a);
    assert Exec(st, [a, b, c][..1 + 1]) == Next(Next(st, a), b);
    assert Exec(st, [a, b][..0 + 1]) == Next(st, a);
    assert Exec(st, [a, b][..1 + 1]) == Next(Next(st, a), b);
    assert Exec(st, [a, b, c][..2 + 1]) == Next(Next(Next(st, a), b), c);
  }

  // ---- Releasing ----------------------------------------------------------------------------

  /** There is a file, and it is no lock or names `p`. */
  predicate Removable(d: Disk, p: int) {
    d.entry.Some? && (Read(d).None? || Read(d).value.pid == p)
  }

  function ReleaseCalls(p: int, h: nat): seq<Step> { [CallRelease(p, h), Advance(p), Advance(p)] }

  /** A first release removes the file if it is the process's own or no lock, leaves any other alone,
      and in either case gives the handle up. */
  lemma ReleaseAlone(st: State, p: int, h: nat)
    requires Ready(st, p) && h < |st.procs[p].released| && !st.procs[p].released[h]
    ensures Exec(st, ReleaseCalls(p, h))
         == st.(disk := if Removable(st.disk, p) then st.disk.(entry := None) else st.disk,
                procs := st.procs[p := st.procs[p].(released := st.procs[p].released[h := true])])
  {
    ExecThree(st, CallRelease(p, h), Advance(p), Advance(p));
    hide Exec;
    var given := st.procs[p].(released := st.procs[p].released[h := true]);
    var s1 := Next(st, CallRelease(p, h));
    if st.disk.entry.None? {
      assert s1 == st.(procs := st.procs[p := given]);
      AdvanceIdle(s1, p);
    } else {
      assert s1 == st.(procs := st.procs[p := given.(pc := ReleaseRead)]);
      var s2 := Next(s1, Advance(p));
      if Removable(st.disk, p) {
        assert s2 == st.(procs := st.procs[p := given.(pc := ReleaseUnlink)]);
      } else {
        assert s2 == st.(procs := st.procs[p := given]);
        AdvanceIdle(s2, p);
      }
    }
  }

  // ---- Acquiring ----------------------------------------------------------------------------

  function AcquireCalls(q: int, c: Contents): seq<Step> { [CallAcquire(q, c), Advance(q)] }

  /** With no file there, two calls make one that names the process, and give it a handle. */
  lemma AcquireFree(st: State, q: int, c: Contents)
    requires Ready(st, q) && st.disk.entry.None?
    ensures Exec(st, AcquireCalls(q, c))
         == st.(disk := Disk(Some(|st.disk.data|), st.disk.data + [Some(c.(pid := q))]),
                procs := st.procs[q := st.procs[q].(released := st.procs[q].released + [false])])
  {
    ExecThree(st, CallAcquire(q, c), Advance(q), Advance(q));
    hide Exec;
    var mine := c.(pid := q);
    var s1 := Next(st, CallAcquire(q, c));
    assert s1 == st.(disk := Create(st.disk),
                     procs := st.procs[q := st.procs[q].(pc := Opened(|st.disk.data|, mine))]);
    assert Create(st.disk).data[|st.disk.data| := Some(mine)] == st.disk.data + [Some(mine)];
  }

  /** A lock of a living process is left alone, and its contents go into the error. */
  lemma AcquireHeld(st: State, q: int, c: Contents)
    requires Ready(st, q) && Read(st.disk).Some? && Read(st.disk).value.pid in st.live
    ensures Exec(st, AcquireCalls(q, c))
         == st.(procs := st.procs[q := st.procs[q].(refusal := Read(st.disk))])
  {
    ExecThree(st, CallAcquire(q, c), Advance(q), Advance(q));
    hide Exec;
    var s1 := Next(st, CallAcquire(q, c));
    assert s1 == st.(procs := st.procs[q := st.procs[q].(pc := MustInspect(c.(pid := q)))]);
  }

  /** What a release is for: once the owner has released its lock, the next process holds one after
      two calls. */
  lemma ReleasedLockIsFree(st: State, p: int, h: nat, q: int, c: Contents)
    requires Ready(st, p) && h < |st.procs[p].released| && !st.procs[p].released[h]
    requires Ready(st, q) && p != q && Names(st.disk, p)
    ensures var freed := Exec(st, ReleaseCalls(p, h));
            var end := Exec(freed, AcquireCalls(q, c));
            && freed.disk.entry.None?
            && Holds(end, q) && Read(end.disk) == Some(c.(pid := q))
  {
    ReleaseAlone(st, p, h);
    var freed := Exec(st, ReleaseCalls(p, h));
    hide Exec;
    AcquireFree(freed, q, c);
    var flags := freed.procs[q].released + [false];
    assert flags[|freed.procs[q].released|] == false;
  }

  // ---- Updating -----------------------------------------------------------------------------

  function UpdateCalls(p: int, port: int): seq<Step> {
    [CallUpdatePort(p, port), Advance(p), Advance(p), Advance(p)]
  }

  /** The file after an update: its own lock with another port gets that port, and keeps its pid, its
      start, its host, its version and its entry. */
  ghost function WithPort(d: Disk, p: int, port: int): Disk {
    if d.entry.Some? && d.entry.value < |d.data| && Names(d, p) then
      var c := Read(d).value;
      d.(data := d.data[d.entry.value := Some(Contents(c.pid, c.startedAt, port, c.host,
                                                       c.hostVersion, c.entry))])
    else d
  }

  lemma UpdateAlone(st: State, p: int, port: int)
    requires Ready(st, p) && st.procs[p].released != []
    ensures Exec(st, UpdateCalls(p, port)) == st.(disk := WithPort(st.disk, p, port))
  {
    var run := UpdateCalls(p, port);
    StepByStep(st, run);
    var s1 := Next(st, CallUpdatePort(p, port));
    var s2 := Next(s1, Advance(p));
    var s3 := Next(s2, Advance(p));
    assert Exec(st, run[..0 + 1]) == s1;
    assert Exec(st, run[..1 + 1]) == s2;
    assert Exec(st, run[..2 + 1]) == s3;
    assert Exec(st, run[..3 + 1]) == Next(s3, Advance(p));
    hide Exec;
    UpdateSteps(st, p, port);
  }

  lemma UpdateSteps(st: State, p: int, port: int)
    requires Ready(st, p) && st.procs[p].released != []
    ensures Next(Next(Next(Next(st, CallUpdatePort(p, port)), Advance(p)), Advance(p)), Advance(p))
         == st.(disk := WithPort(st.disk, p, port))
  {
    var s1 := Next(st, CallUpdatePort(p, port));
    var s2 := Next(s1, Advance(p));
    assert st.procs[p := st.procs[p]] == st.procs;
    if st.disk.entry.None? {
      assert s1 == st;
    } else {
      assert s1 == st.(procs := st.procs[p := st.procs[p].(pc := UpdateRead(port))]);
      if !Names(st.disk, p) || Read(st.disk).value.port == port {
        assert s2 == st;
        if Names(st.disk, p) {
          assert st.disk.data[st.disk.entry.value := Read(st.disk)] == st.disk.data;
        }
      } else {
        var next, fd := Read(st.disk).value.(port := port), st.disk.entry.value;
        var emptied := st.disk.(data := st.disk.data[fd := None]);
        assert s2 == st.(procs := st.procs[p := st.procs[p].(pc := UpdateTruncate(next))]);
        var s3 := Next(s2, Advance(p));
        assert s3 == st.(disk := emptied,
                         procs := st.procs[p := st.procs[p].(pc := UpdateWrite(fd, next))]);
        assert emptied.data[fd := Some(next)] == st.disk.data[fd := Some(next)];
      }
    }
  }
}

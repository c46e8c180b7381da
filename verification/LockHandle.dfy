/** Acquiring, releasing and updating the lock as the straight-line code of
    packages/kap-server/src/lock.ts, with other processes at work before every system call. Each
    method makes exactly the calls of its process in `LockFile`. */
module LockHandle {
  import opened Wrappers
  import opened LockFile

  /** What the rest of the machine does: to the path before our n-th call, and which pids exist
      at that moment. */
  datatype World = World(others: (nat, Disk) -> Disk, alive: nat -> set<int>)

  function Rank(pc: Pc): nat {
    match pc
    case Idle => 0
    case Opened(_, _) => 1
    case MustRetry(_) => 2
    case MustUnlink(_) => 3
    case MustInspect(_) => 4
    case ReleaseUnlink => 1
    case ReleaseRead => 2
    case UpdateWrite(_, _) => 1
    case UpdateTruncate(_) => 2
    case UpdateRead(_) => 3
  }

  /** A process goes on, from its n-th call, until its operation is over. */
  function Finish(w: World, n: nat, d: Disk, p: int, proc: Proc): (r: (nat, Disk, Proc))
    ensures r.2.pc.Idle? && n <= r.0 <= n + Rank(proc.pc)
    decreases Rank(proc.pc)
  {
    if proc.pc.Idle? then (n, d, proc)
    else
      var (d', proc') := Act(w.others(n, d), w.alive(n), p, proc);
      Finish(w, n + 1, d', p, proc')
  }

  function Operation(w: World, n: nat, d: Disk, proc: Proc, step: Step): (nat, Disk, Proc) {
    var (d', proc') := Effect(w.others(n, d), w.alive(n), proc, step);
    Finish(w, n + 1, d', step.pid, proc')
  }

  lemma FinishUnfolds(w: World, n: nat, d: Disk, p: int, proc: Proc)
    requires !proc.pc.Idle?
    ensures var (d', proc') := Act(w.others(n, d), w.alive(n), p, proc);
            Finish(w, n, d, p, proc) == (if proc'.pc.Idle? then (n + 1, d', proc')
                                         else Finish(w, n + 1, d', p, proc'))
  {
    hide Act;
  }

  lemma OperationUnfolds(w: World, n: nat, d: Disk, proc: Proc, step: Step)
    ensures var (d', proc') := Effect(w.others(n, d), w.alive(n), proc, step);
            Operation(w, n, d, proc, step) == (if proc'.pc.Idle? then (n + 1, d', proc')
                                               else Finish(w, n + 1, d', step.pid, proc'))
  {
    hide Effect;
  }

  /** The write that follows a successful create. */
  lemma UnfoldCreate(w: World, n: nat, d: Disk, proc: Proc, mine: Contents)
    ensures Finish(w, n + 1, Create(d), mine.pid, proc.(pc := Opened(|d.data|, mine)))
         == (n + 2, WriteTo(w.others(n + 1, Create(d)), |d.data|, mine),
             proc.(pc := Idle, released := proc.released + [false]))
  {
    FinishUnfolds(w, n + 1, Create(d), mine.pid, proc.(pc := Opened(|d.data|, mine)));
  }

  class Path {
    const world: World
    var calls: nat
    var disk: Disk

    constructor (w: World, d: Disk)
      ensures world == w && calls == 0 && disk == d
    {
      world, calls, disk := w, 0, d;
    }

    /** The others act, then it is our turn. */
    method Turn() returns (alive: set<int>)
      modifies this
      ensures disk == world.others(old(calls), old(disk)) && alive == world.alive(old(calls))
      ensures calls == old(calls) + 1
    {
      disk := world.others(calls, disk);
      alive := world.alive(calls);
      calls := calls + 1;
    }

    method ReadLockContents() returns (contents: Option<Contents>, alive: set<int>)
      modifies this
      ensures disk == world.others(old(calls), old(disk)) && alive == world.alive(old(calls))
      ensures calls == old(calls) + 1 && contents == Read(disk)
    {
      alive := Turn();
      contents := Read(disk);
    }

    method ExistsSync() returns (found: bool)
      modifies this
      ensures disk == world.others(old(calls), old(disk)) && calls == old(calls) + 1
      ensures found == disk.entry.Some?
    {
      var _ := Turn();
      found := disk.entry.Some?;
    }

    method UnlinkSync()
      modifies this
      ensures disk == Unlink(world.others(old(calls), old(disk))) && calls == old(calls) + 1
    {
      var _ := Turn();
      disk := Unlink(disk);
    }
  
    /** Exclusive create, then write; false for EEXIST. */
    method TryExclusiveCreate(contents: Contents) returns (created: bool)
      modifies this
      ensures var d := world.others(old(calls), old(disk));
              created == d.entry.None?
              && calls == old(calls) + (if created then 2 else 1)
              && disk == if created
                         then WriteTo(world.others(old(calls) + 1, Create(d)), |d.data|, contents)
                         else d
    {
      var _ := Turn();
      if disk.entry.Some? {
        return false;
      }
      var fd := |disk.data|;
      disk := Create(disk);
      var _ := Turn();
      disk := WriteTo(disk, fd, contents);
      return true;
    }

    /** Opens to overwrite, then writes. */
    method WriteFileSync(contents: Contents)
      modifies this
      ensures var d := Truncate(world.others(old(calls), old(disk)));
              disk == WriteTo(world.others(old(calls) + 1, d), d.entry.GetOr(0), contents)
      ensures calls == old(calls) + 2
    {
      var _ := Turn();
      disk := Truncate(disk);
      var fd := disk.entry.GetOr(0);
      var _ := Turn();
      disk := WriteTo(disk, fd, contents);
    }
  }

  // ---- What each call finds -----------------------------------------------------------------

  /** The path as a call finds it, the path having been left as `d` before its n-th call. */
  function Found(w: World, n: nat, d: Disk): Disk { w.others(n, d) }

  /** Created by the n-th call and written by the next, with the others at work in between. */
  function Made(w: World, n: nat, found: Disk, mine: Contents): Disk {
    WriteTo(Found(w, n + 1, Create(found)), |found.data|, mine)
  }

  /** An acquisition: with nothing there the lock is ours; if a living process is named, it is refused
      with what was read and the file left alone; anything else is removed, and then whoever creates
      first has the lock. `refusal` is None for a handle. */
  ghost predicate Acquires(w: World, n: nat, d: Disk, mine: Contents, refusal: Option<Contents>,
                           calls: nat, left: Disk)
  {
    var first := Found(w, n, d);
    var read := Found(w, n + 1, first);
    var again := Found(w, n + 3, Unlink(Found(w, n + 2, read)));
    if first.entry.None? then
      refusal == None && calls == n + 2 && left == Made(w, n, first, mine)
    else if Read(read).Some? && Read(read).value.pid in w.alive(n + 1) then
      refusal == Read(read) && calls == n + 2 && left == read
    else if again.entry.None? then
      refusal == None && calls == n + 5 && left == Made(w, n + 3, again, mine)
    else
      && refusal.Some? && calls == n + 4 && left == again
      && (if Read(again).Some? then refusal == Read(again)
          else refusal.value.pid == -1 && refusal.value.port == mine.port)
  }

  /** A release: the entry is removed if and only if it is there at the first look and what is then
      read is no lock or names the owner. */
  ghost predicate Releases(w: World, n: nat, d: Disk, owner: int, calls: nat, left: Disk) {
    var look := Found(w, n, d);
    var read := Found(w, n + 1, look);
    if look.entry.None? then calls == n + 1 && left == look
    else if Read(read).None? || Read(read).value.pid == owner then
      calls == n + 3 && left == Found(w, n + 2, read).(entry := None)
    else calls == n + 2 && left == read
  }

  /** A port update: a lock of the owner's with another port is rewritten, with the port changed and
      the rest as it was read; anything else is left alone. */
  ghost predicate Updates(w: World, n: nat, d: Disk, owner: int, port: int, calls: nat, left: Disk) {
    var look := Found(w, n, d);
    var read := Found(w, n + 1, look);
    if look.entry.None? then calls == n + 1 && left == look
    else if Read(read).Some? && Read(read).value.pid == owner && Read(read).value.port != port then
      var emptied := Truncate(Found(w, n + 2, read));
      && calls == n + 4
      && left == WriteTo(Found(w, n + 3, emptied), emptied.entry.GetOr(0),
                         Read(read).value.(port := port))
    else calls == n + 2 && left == read
  }

  lemma AcquireMeans(w: World, n: nat, d: Disk, mine: Contents)
    ensures var (m, e, proc) := Operation(w, n, d, NEWBORN, CallAcquire(mine.pid, mine));
            Acquires(w, n, d, mine, proc.refusal, m, e)
  {
    hide Finish, Create, WriteTo, Unlink, Read;
    var p, first := mine.pid, Found(w, n, d);
    var read := Found(w, n + 1, first);
    OperationUnfolds(w, n, d, NEWBORN, CallAcquire(p, mine));
    UnfoldCreate(w, n, first, NEWBORN, mine);
    if first.entry.Some? {
      FinishUnfolds(w, n + 1, first, p, Proc(MustInspect(mine), [], None));
      if !(Read(read).Some? && Read(read).value.pid in w.alive(n + 1)) {
        var removed := Unlink(Found(w, n + 2, read));
        FinishUnfolds(w, n + 2, read, p, Proc(MustUnlink(mine), [], None));
        FinishUnfolds(w, n + 3, removed, p, Proc(MustRetry(mine), [], None));
        UnfoldCreate(w, n + 3, Found(w, n + 3, removed), NEWBORN, mine);
      }
    }
  }

  lemma ReleaseMeans(w: World, n: nat, d: Disk, owner: int)
    ensures var (m, e, _) := Operation(w, n, d, Proc(Idle, [false], None), CallRelease(owner, 0));
            Releases(w, n, d, owner, m, e)
  {
    hide Finish, Read;
    var look := Found(w, n, d);
    var read := Found(w, n + 1, look);
    assert [false][0 := true] == [true];
    OperationUnfolds(w, n, d, Proc(Idle, [false], None), CallRelease(owner, 0));
    if look.entry.Some? {
      FinishUnfolds(w, n + 1, look, owner, Proc(ReleaseRead, [true], None));
      FinishUnfolds(w, n + 2, read, owner, Proc(ReleaseUnlink, [true], None));
    }
  }

  lemma UpdateMeans(w: World, n: nat, d: Disk, owner: int, port: int, flag: bool)
    ensures var (m, e, _) := Operation(w, n, d, Proc(Idle, [flag], None),
                                       CallUpdatePort(owner, port));
            Updates(w, n, d, owner, port, m, e)
  {
    hide Finish, Read, WriteTo, Truncate;
    var look := Found(w, n, d);
    var read := Found(w, n + 1, look);
    OperationUnfolds(w, n, d, Proc(Idle, [flag], None), CallUpdatePort(owner, port));
    if look.entry.Some? {
      FinishUnfolds(w, n + 1, look, owner, Proc(UpdateRead(port), [flag], None));
      if Read(read).Some? {
        var next := Read(read).value.(port := port);
        var emptied := Truncate(Found(w, n + 2, read));
        FinishUnfolds(w, n + 2, read, owner, Proc(UpdateTruncate(next), [flag], None));
        FinishUnfolds(w, n + 3, emptied, owner,
                      Proc(UpdateWrite(emptied.entry.GetOr(0), next), [flag], None));
      }
    }
  }

  /** An error carrying the contents found, or a handle. */
  datatype Acquired = Handle(handle: ReleaseHandle) | ServerLocked(existing: Contents)

  /** The re-read that tells who won is taken together with the failed create. */
  method AcquireLock(path: Path, mine: Contents) returns (r: Acquired)
    modifies path
    ensures var (n, d, proc) := Operation(path.world, old(path.calls), old(path.disk), NEWBORN,
                                          CallAcquire(mine.pid, mine));
            && path.calls == n && path.disk == d
            && proc.released == (if r.Handle? then [false] else [])
            && proc.refusal == if r.Handle? then None else Some(r.existing)
    ensures Acquires(path.world, old(path.calls), old(path.disk), mine,
                     if r.Handle? then None else Some(r.existing), path.calls, path.disk)
    ensures r.Handle? ==> fresh(r.handle) && r.handle.path == path
                          && r.handle.ownerPid == mine.pid && !r.handle.released
  {
    hide Finish, Operation, Create, WriteTo, Unlink, Read, Acquires;
    AcquireMeans(path.world, path.calls, path.disk, mine);
    ghost var p, w, d := mine.pid, path.world, path.world.others(path.calls, path.disk);
    OperationUnfolds(w, path.calls, path.disk, NEWBORN, CallAcquire(p, mine));
    UnfoldCreate(w, path.calls, d, NEWBORN, mine);
    var created := path.TryExclusiveCreate(mine);
    if created {
      var handle := new ReleaseHandle(path, mine.pid);
      return Handle(handle);
    }
    FinishUnfolds(w, path.calls, path.disk, p, Proc(MustInspect(mine), [], None));
    var existing, alive := path.ReadLockContents();
    if existing.Some? && existing.value.pid in alive {
      return ServerLocked(existing.value);
    }
    FinishUnfolds(w, path.calls, path.disk, p, Proc(MustUnlink(mine), [], None));
    path.UnlinkSync();
    FinishUnfolds(w, path.calls, path.disk, p, Proc(MustRetry(mine), [], None));
    UnfoldCreate(w, path.calls, w.others(path.calls, path.disk), NEWBORN, mine);
    created := path.TryExclusiveCreate(mine);
    if !created {
      var winner := Read(path.disk);
      return ServerLocked(if winner.Some? then winner.value
                          else Contents(-1, "", mine.port, None, None, None));
    }
    var handle := new ReleaseHandle(path, mine.pid);
    return Handle(handle);
  }

  class ReleaseHandle {
    const path: Path
    const ownerPid: int
    var released: bool

    constructor (path: Path, ownerPid: int)
      ensures this.path == path && this.ownerPid == ownerPid && !released
    {
      this.path, this.ownerPid, released := path, ownerPid, false;
    }

    /** Once: a second release makes no call at all. */
    method Release()
      modifies this, path
      ensures released
      ensures old(released) ==> path.disk == old(path.disk) && path.calls == old(path.calls)
      ensures !old(released) ==>
                var (n, d, proc) := Operation(path.world, old(path.calls), old(path.disk),
                                              Proc(Idle, [false], None), CallRelease(ownerPid, 0));
                path.calls == n && path.disk == d && proc.released == [true]
      ensures !old(released) ==> Releases(path.world, old(path.calls), old(path.disk), ownerPid,
                                          path.calls, path.disk)
    {
      if released {
        return;
      }
      hide Finish, Releases;
      ghost var w := path.world;
      ReleaseMeans(w, path.calls, path.disk, ownerPid);
      assert [false][0 := true] == [true];
      OperationUnfolds(w, path.calls, path.disk, Proc(Idle, [false], None),
                       CallRelease(ownerPid, 0));
      released := true;
      var found := path.ExistsSync();
      if !found {
        return;
      }
      FinishUnfolds(w, path.calls, path.disk, ownerPid, Proc(ReleaseRead, [true], None));
      var contents, _ := path.ReadLockContents();
      if contents.Some? && contents.value.pid != ownerPid {
        return;
      }
      FinishUnfolds(w, path.calls, path.disk, ownerPid, Proc(ReleaseUnlink, [true], None));
      path.UnlinkSync();
    }

    /** Also after the release, and only on a file that names this process. */
    method UpdatePort(port: int)
      modifies path
      ensures var (n, d, proc) := Operation(path.world, old(path.calls), old(path.disk),
                                            Proc(Idle, [released], None),
                                            CallUpdatePort(ownerPid, port));
              path.calls == n && path.disk == d
      ensures Updates(path.world, old(path.calls), old(path.disk), ownerPid, port,
                      path.calls, path.disk)
    {
      hide Finish, Updates;
      ghost var w, flag := path.world, [released];
      UpdateMeans(w, path.calls, path.disk, ownerPid, port, released);
      OperationUnfolds(w, path.calls, path.disk, Proc(Idle, flag, None),
                       CallUpdatePort(ownerPid, port));
      var found := path.ExistsSync();
      if !found {
        return;
      }
      FinishUnfolds(w, path.calls, path.disk, ownerPid, Proc(UpdateRead(port), flag, None));
      var contents, _ := path.ReadLockContents();
      if contents.None? || contents.value.pid != ownerPid || contents.value.port == port {
        return;
      }
      var next := contents.value.(port := port);
      ghost var emptied := Truncate(w.others(path.calls, path.disk));
      FinishUnfolds(w, path.calls, path.disk, ownerPid, Proc(UpdateTruncate(next), flag, None));
      FinishUnfolds(w, path.calls + 1, emptied, ownerPid,
                    Proc(UpdateWrite(emptied.entry.GetOr(0), next), flag, None));
      path.WriteFileSync(next);
    }
  }
}

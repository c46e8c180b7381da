/** The registry of running servers (packages/kap-server/src/instanceRegistry.ts): one file for
    each instance, rewritten by its own process through overlapping atomic writes, and swept by
    its peers. Every await is a point where any other step may come in between. */
module InstanceRegistry {
  import opened Wrappers

  datatype Info = Info(serverId: string, pid: int, host: string, port: int, startedAt: int,
                       heartbeatAt: int, hostVersion: Option<string>)

  // ---- One registration ---------------------------------------------------------------------

  /** An atomic write under way: `landed` once its rename has happened. */
  datatype Write = Write(info: Info, landed: bool)

  /** How far `release` has got: not called, waiting for writes, about to unlink, resolved, or
      rejected because the unlink failed. */
  datatype Phase = Serving | Draining | Unlinking | Resolved | Rejected

  /** `inflight` is the code's counter; `writes` are the writes that are in fact under way. */
  datatype Reg = Reg(info: Info, port: int, released: bool, inflight: int, writes: seq<Write>,
                     phase: Phase)

  function NewReg(info: Info): Reg { Reg(info, info.port, false, 0, [], Serving) }

  /** What `write` does before its first await. */
  function BeginWrite(r: Reg, now: int): Reg {
    if r.released then r
    else
      r.(inflight := r.inflight + 1,
         writes := r.writes + [Write(r.info.(port := r.port, heartbeatAt := now), false)])
  }

  /** What `write` does after it, the rename having happened or not. */
  function EndWrite(r: Reg, k: nat): Reg {
    if k >= |r.writes| then r
    else
      r.(inflight := r.inflight - 1,
         writes := r.writes[..k] + r.writes[k + 1..],
         phase := if r.inflight == 1 && r.phase.Draining? then Unlinking else r.phase)
  }

  function Update(r: Reg, port: Option<int>, now: int): Reg {
    if r.released then r else BeginWrite(r.(port := port.GetOr(r.port)), now)
  }

  function BeginRelease(r: Reg): Reg {
    if r.released then r
    else r.(released := true, phase := if r.inflight > 0 then Draining else Unlinking)
  }

  // ---- All instances ------------------------------------------------------------------------

  /** A peer that has read the file of `id` and found `pid` in it; `condemned` once it has also
      found that process gone. */
  datatype Sweep = Sweep(owner: int, id: string, pid: int, condemned: bool)

  /** `files` is the directory, None standing for a file that does not decode; `used` has every
      pid there ever was. */
  datatype State = State(files: Directory, live: set<int>, used: set<int>,
                         regs: map<string, Reg>, sweeps: seq<Sweep>)

  datatype Step =
    | Spawn(pid: int)
    | Crash(pid: int)
    | Register(info: Info)
    | Heartbeat(id: string, now: int)
    | CallUpdate(id: string, port: Option<int>, now: int)
    | CallRelease(id: string)
    | Rename(id: string, k: nat)
    | Finish(id: string, k: nat)
    | UnlinkOwn(id: string)
    | UnlinkFails(id: string)
    | SweepRead(owner: int, id: string)
    | SweepProbe(k: nat)
    | SweepUnlink(k: nat)

  predicate CanRun(st: State, id: string) { id in st.regs && st.regs[id].info.pid in st.live }

  function SetReg(st: State, id: string, r: Reg): State { st.(regs := st.regs[id := r]) }

  /** Server ids are unique: never registered, on disk or being swept before. */
  predicate NewId(st: State, id: string) {
    id !in st.regs && id !in st.files && forall k :: 0 <= k < |st.sweeps| ==> st.sweeps[k].id != id
  }

  function Without(sweeps: seq<Sweep>, k: nat): seq<Sweep>
    requires k < |sweeps|
  {
    sweeps[..k] + sweeps[k + 1..]
  }

  /** What a step of its own process does to a registration. */
  function OwnReg(r: Reg, step: Step): Reg {
    match step
    case Heartbeat(_, now) => BeginWrite(r, now)
    case CallUpdate(_, port, now) => Update(r, port, now)
    case CallRelease(_) => BeginRelease(r)
    case Rename(_, k) =>
      if k < |r.writes| then r.(writes := r.writes[k := r.writes[k].(landed := true)]) else r
    case Finish(_, k) => EndWrite(r, k)
    case UnlinkOwn(_) => if r.phase.Unlinking? then r.(phase := Resolved) else r
    case UnlinkFails(_) => if r.phase.Unlinking? then r.(phase := Rejected) else r
    case _ => r
  }

  /** And to its file. */
  function OwnFile(r: Reg, file: Option<Option<Info>>, step: Step): Option<Option<Info>> {
    match step
    case Rename(_, k) =>
      if k < |r.writes| && !r.writes[k].landed then Some(Some(r.writes[k].info)) else file
    case UnlinkOwn(_) => if r.phase.Unlinking? then None else file
    case _ => file
  }

  type Directory = map<string, Option<Info>>

  function File(files: Directory, id: string): Option<Option<Info>> {
    if id in files then Some(files[id]) else None
  }

  function SetFile(files: Directory, id: string, file: Option<Option<Info>>): Directory {
    match file
    case None => files - {id}
    case Some(content) => files[id := content]
  }

  function OwnStep(st: State, id: string, step: Step): State
    requires id in st.regs
  {
    var r := st.regs[id];
    SetReg(st.(files := SetFile(st.files, id, OwnFile(r, File(st.files, id), step))), id,
           OwnReg(r, step))
  }

  function SweepStep(st: State, step: Step): State {
    match step
    case SweepRead(owner, id) =>
      if owner in st.live && id in st.files && st.files[id].Some?
      then st.(sweeps := st.sweeps + [Sweep(owner, id, st.files[id].value.pid, false)]) else st
    case SweepProbe(k) =>
      if k >= |st.sweeps| || st.sweeps[k].owner !in st.live || st.sweeps[k].condemned then st
      else if st.sweeps[k].pid in st.live then st.(sweeps := Without(st.sweeps, k))
      else st.(sweeps := st.sweeps[k := st.sweeps[k].(condemned := true)])
    case SweepUnlink(k) =>
      if k >= |st.sweeps| || st.sweeps[k].owner !in st.live || !st.sweeps[k].condemned then st
      else st.(files := st.files - {st.sweeps[k].id}, sweeps := Without(st.sweeps, k))
    case _ => st
  }

  /** A step that is not possible in a state leaves it as it is. */
  function Next(st: State, step: Step): State {
    match step
    case Spawn(p) =>
      if p in st.used then st else st.(live := st.live + {p}, used := st.used + {p})
    case Crash(p) => st.(live := st.live - {p})
    case Register(info) =>
      if info.pid in st.live && NewId(st, info.serverId)
      then SetReg(st, info.serverId, NewReg(info)) else st
    case SweepRead(_, _) => SweepStep(st, step)
    case SweepProbe(_) => SweepStep(st, step)
    case SweepUnlink(_) => SweepStep(st, step)
    case _ => if CanRun(st, step.id) then OwnStep(st, step.id, step) else st
  }

  function Exec(st: State, run: seq<Step>): State
    decreases |run|
  {
    if run == [] then st else Exec(Next(st, run[0]), run[1..])
  }

  /** Any directory and any processes; pids that have been used before are not used again. */
  ghost predicate Initial(st: State) { st.live <= st.used && st.regs == map[] && st.sweeps == [] }

  // ---- The invariant ------------------------------------------------------------------------

  ghost predicate RegSound(r: Reg) {
    && r.inflight == |r.writes|
    && (forall k :: 0 <= k < |r.writes| ==> r.writes[k].info.pid == r.info.pid)
    && (r.released <==> !r.phase.Serving?)
    && (r.phase.Draining? ==> r.writes != [])
    && (r.phase.Unlinking? || r.phase.Resolved? || r.phase.Rejected? ==> r.writes == [])
  }

  ghost predicate FileSound(file: Option<Option<Info>>, r: Reg) {
    && (file.Some? ==> file.value.Some? && file.value.value.pid == r.info.pid)
    && (r.phase.Resolved? ==> file.None?)
  }

  ghost predicate SweepSound(st: State, s: Sweep) {
    s.id in st.regs ==> s.pid == st.regs[s.id].info.pid && (s.condemned ==> s.pid !in st.live)
  }

  ghost predicate Inv(st: State) {
    && st.live <= st.used
    && (forall id :: id in st.regs ==>
          && RegSound(st.regs[id]) && FileSound(File(st.files, id), st.regs[id])
          && st.regs[id].info.pid in st.used)
    && (forall k :: 0 <= k < |st.sweeps| ==> SweepSound(st, st.sweeps[k]))
  }

  lemma EndWriteSound(r: Reg, k: nat)
    requires RegSound(r)
    ensures RegSound(EndWrite(r, k)) && EndWrite(r, k).info == r.info
    ensures EndWrite(r, k).phase.Resolved? <==> r.phase.Resolved?
  {
    if k < |r.writes| {
      var rest := r.writes[..k] + r.writes[k + 1..];
      assert forall i :: 0 <= i < |rest| ==> rest[i] == r.writes[if i < k then i else i + 1];
    }
  }

  lemma OwnRegSound(r: Reg, step: Step)
    requires RegSound(r)
    ensures RegSound(OwnReg(r, step)) && OwnReg(r, step).info == r.info
  {
    hide EndWrite;
    if step.Finish? {
      EndWriteSound(r, step.k);
    }
  }

  lemma OwnFileSound(r: Reg, file: Option<Option<Info>>, step: Step)
    requires RegSound(r) && FileSound(file, r)
    ensures FileSound(OwnFile(r, file, step), OwnReg(r, step))
  {
    hide EndWrite;
    if step.Finish? {
      EndWriteSound(r, step.k);
    }
  }

  lemma OwnStepKeepsInv(st: State, id: string, step: Step)
    requires Inv(st) && id in st.regs
    ensures Inv(OwnStep(st, id, step))
  {
    hide RegSound, FileSound, OwnReg, OwnFile;
    var r, st1 := st.regs[id], OwnStep(st, id, step);
    OwnRegSound(r, step);
    OwnFileSound(r, File(st.files, id), step);
    forall k | 0 <= k < |st.sweeps|
      ensures SweepSound(st1, st.sweeps[k])
    {
      assert SweepSound(st, st.sweeps[k]);
    }
  }

  lemma SweepStepKeepsInv(st: State, step: Step)
    requires Inv(st)
    ensures Inv(SweepStep(st, step))
  {
    hide RegSound;
    var st1 := SweepStep(st, step);
    forall k | 0 <= k < |st1.sweeps|
      ensures SweepSound(st1, st1.sweeps[k])
    {
      assert k < |st.sweeps| ==> SweepSound(st, st.sweeps[k]);
      assert k + 1 < |st.sweeps| ==> SweepSound(st, st.sweeps[k + 1]);
    }
  }

  lemma NewRegSound(info: Info)
    ensures RegSound(NewReg(info))
  {}

  lemma NextKeepsInv(st: State, step: Step)
    requires Inv(st)
    ensures Inv(Next(st, step))
  {
    hide OwnStep, SweepStep, RegSound;
    match step
    case Spawn(p) =>
    case Crash(p) =>
    case Register(info) =>
      NewRegSound(info);
    case SweepRead(_, _) => SweepStepKeepsInv(st, step);
    case SweepProbe(_) => SweepStepKeepsInv(st, step);
    case SweepUnlink(_) => SweepStepKeepsInv(st, step);
    case _ =>
      if CanRun(st, step.id) {
        OwnStepKeepsInv(st, step.id, step);
      }
  }

  lemma {:induction false} RunKeepsInv(st: State, run: seq<Step>)
    requires Inv(st)
    ensures Inv(Exec(st, run))
    decreases |run|
  {
    hide Inv, Next;
    if run != [] {
      NextKeepsInv(st, run[0]);
      RunKeepsInv(Next(st, run[0]), run[1..]);
    }
  }

  // ---- Release ------------------------------------------------------------------------------

  lemma NextKeepsReg(st: State, step: Step, id: string)
    requires Inv(st) && id in st.regs
    ensures id in Next(st, step).regs && Next(st, step).regs[id].info == st.regs[id].info
    ensures st.regs[id].released ==> Next(st, step).regs[id].released
    ensures st.regs[id].phase.Resolved? ==> Next(st, step).regs[id].phase.Resolved?
  {
    hide FileSound;
    assert RegSound(st.regs[id]);
  }

  lemma {:induction false} RunKeepsResolved(st: State, run: seq<Step>, id: string)
    requires Inv(st) && id in st.regs && st.regs[id].phase.Resolved?
    ensures id in Exec(st, run).regs && Exec(st, run).regs[id].phase.Resolved?
    decreases |run|
  {
    hide Inv, Next;
    if run != [] {
      NextKeepsInv(st, run[0]);
      NextKeepsReg(st, run[0], id);
      RunKeepsResolved(Next(st, run[0]), run[1..], id);
    }
  }

  lemma InitialInv(st: State)
    requires Initial(st)
    ensures Inv(st)
  {}

  /** Once a release has resolved, the file is gone for good: whatever heartbeats and updates were
      overlapping it, no rename that could bring the file back is under way. */
  lemma ReleasedStaysGone(st: State, before: seq<Step>, after: seq<Step>, id: string)
    requires Initial(st)
    requires id in Exec(st, before).regs && Exec(st, before).regs[id].phase.Resolved?
    ensures id !in Exec(Exec(st, before), after).files
    ensures id in Exec(Exec(st, before), after).regs
    ensures Exec(Exec(st, before), after).regs[id].writes == []
  {
    InitialInv(st);
    RunKeepsInv(st, before);
    var mid := Exec(st, before);
    RunKeepsInv(mid, after);
    RunKeepsResolved(mid, after, id);
    hide Exec, Initial, SweepSound;
    assert RegSound(Exec(mid, after).regs[id]);
    assert FileSound(File(Exec(mid, after).files, id), Exec(mid, after).regs[id]);
  }

  lemma {:induction false} DeadForGood(st: State, run: seq<Step>, id: string)
    requires Inv(st) && id in st.regs && !CanRun(st, id)
    ensures id in Exec(st, run).regs && !CanRun(Exec(st, run), id)
    decreases |run|
  {
    if run != [] {
      NextKeepsInv(st, run[0]);
      NextKeepsReg(st, run[0], id);
      hide RegSound, FileSound, SweepSound, OwnStep, SweepStep;
      DeadForGood(Next(st, run[0]), run[1..], id);
    }
  }

  predicate EndsWrite(st: State, step: Step, id: string) {
    CanRun(st, id) && step.Finish? && step.id == id && step.k < |st.regs[id].writes|
  }

  /** How many writes of an instance end in a run. */
  function Ended(st: State, run: seq<Step>, id: string): nat
    decreases |run|
  {
    if run == [] then 0
    else (if EndsWrite(st, run[0], id) then 1 else 0) + Ended(Next(st, run[0]), run[1..], id)
  }

  lemma ReleasedReg(r: Reg, step: Step)
    requires r.released
    ensures |OwnReg(r, step).writes|
         == |r.writes| - if step.Finish? && step.k < |r.writes| then 1 else 0
  {}

  lemma ReleasedStep(st: State, step: Step, id: string)
    requires Inv(st) && id in st.regs && st.regs[id].released
    ensures |Next(st, step).regs[id].writes|
         == |st.regs[id].writes| - if EndsWrite(st, step, id) then 1 else 0
  {
    ReleasedReg(st.regs[id], step);
    hide FileSound, SweepSound, RegSound, OwnReg, OwnFile;
  }

  /** A waiting release is never left waiting: whatever else happens meanwhile, it waits exactly as
      long as not all of the writes that were under way have ended. */
  lemma {:induction false} DrainsWhenWritesEnd(st: State, run: seq<Step>, id: string)
    requires Inv(st) && id in st.regs && st.regs[id].released
    ensures id in Exec(st, run).regs
    ensures |Exec(st, run).regs[id].writes| == |st.regs[id].writes| - Ended(st, run, id)
    ensures Exec(st, run).regs[id].phase.Draining? <==> Ended(st, run, id) < |st.regs[id].writes|
    decreases |run|
  {
    hide SweepSound, FileSound, Next, EndsWrite;
    assert RegSound(st.regs[id]);
    if run != [] {
      NextKeepsInv(st, run[0]);
      NextKeepsReg(st, run[0], id);
      ReleasedStep(st, run[0], id);
      DrainsWhenWritesEnd(Next(st, run[0]), run[1..], id);
    }
  }

  // ---- Staying listed -----------------------------------------------------------------------

  /** Its process is alive and has not begun to release it. */
  ghost predicate InService(st: State, id: string) { CanRun(st, id) && !st.regs[id].released }

  /** While an instance is in service only its own renames touch its file; in particular no sweep
      of a peer does, even one that read the file long ago. */
  lemma OnlyOwnRenames(st: State, step: Step, id: string)
    requires Inv(st) && InService(Next(st, step), id) && id in st.regs
    ensures File(Next(st, step).files, id) == File(st.files, id)
            || (step.Rename? && step.id == id && step.k < |st.regs[id].writes|
                && !st.regs[id].writes[step.k].landed
                && File(Next(st, step).files, id) == Some(Some(st.regs[id].writes[step.k].info)))
  {
    hide FileSound, EndWrite, BeginWrite;
    assert RegSound(st.regs[id]);
    if step.SweepUnlink? && step.k < |st.sweeps| {
      assert SweepSound(st, st.sweeps[step.k]);
    }
  }

  lemma {:induction false} OutOfServiceForGood(st: State, run: seq<Step>, id: string)
    requires Inv(st) && id in st.regs && !InService(st, id)
    ensures id in Exec(st, run).regs && !InService(Exec(st, run), id)
    decreases |run|
  {
    if run != [] {
      NextKeepsInv(st, run[0]);
      NextKeepsReg(st, run[0], id);
      hide RegSound, FileSound, SweepSound, OwnStep, SweepStep;
      OutOfServiceForGood(Next(st, run[0]), run[1..], id);
    }
  }

  /** From its first landed write until its release or its process's end, an instance is on disk
      under its own pid, so every peer that lists the directory finds it. */
  lemma {:induction false} StaysListed(st: State, run: seq<Step>, id: string)
    requires Inv(st) && id in st.regs && id in st.files
    requires InService(Exec(st, run), id)
    ensures id in Exec(st, run).files && Exec(st, run).files[id].Some?
    ensures Exec(st, run).files[id].value.pid == st.regs[id].info.pid
    decreases |run|
  {
    hide RegSound, SweepSound, Next;
    assert FileSound(File(st.files, id), st.regs[id]);
    if run != [] {
      var st1 := Next(st, run[0]);
      NextKeepsInv(st, run[0]);
      NextKeepsReg(st, run[0], id);
      if !InService(st1, id) {
        OutOfServiceForGood(st1, run[1..], id);
      }
      OnlyOwnRenames(st, run[0], id);
      StaysListed(st1, run[1..], id);
    }
  }

  /** Over all runs: a step that changes the file of an instance in service is one of its own
      renames. */
  lemma NoPeerTouchesIt(st: State, run: seq<Step>, step: Step, id: string)
    requires Initial(st) && id in Exec(st, run).regs
    requires InService(Next(Exec(st, run), step), id)
    requires File(Next(Exec(st, run), step).files, id) != File(Exec(st, run).files, id)
    ensures step.Rename? && step.id == id
  {
    InitialInv(st);
    RunKeepsInv(st, run);
    hide Exec, Initial, Next;
    OnlyOwnRenames(Exec(st, run), step, id);
  }

  lemma ListedWhileInService(st: State, before: seq<Step>, after: seq<Step>, id: string)
    requires Initial(st) && id in Exec(st, before).regs && id in Exec(st, before).files
    requires InService(Exec(Exec(st, before), after), id)
    ensures var end := Exec(Exec(st, before), after);
            id in end.files && end.files[id].Some? && end.files[id].value.pid in end.live
  {
    InitialInv(st);
    RunKeepsInv(st, before);
    var mid := Exec(st, before);
    RunKeepsInfo(mid, after, id);
    hide Exec, Initial, Inv;
    StaysListed(mid, after, id);
  }

  lemma {:induction false} RunKeepsInfo(st: State, run: seq<Step>, id: string)
    requires Inv(st) && id in st.regs
    ensures id in Exec(st, run).regs && Exec(st, run).regs[id].info == st.regs[id].info
    decreases |run|
  {
    hide Inv, Next;
    if run != [] {
      NextKeepsInv(st, run[0]);
      NextKeepsReg(st, run[0], id);
      RunKeepsInfo(Next(st, run[0]), run[1..], id);
    }
  }

  // ---- When an updated port sticks ----------------------------------------------------------

  ghost predicate NoneStale(r: Reg, port: int) {
    forall k :: 0 <= k < |r.writes| && !r.writes[k].landed ==> r.writes[k].info.port == port
  }

  ghost predicate NoUpdate(run: seq<Step>, id: string) {
    forall i :: 0 <= i < |run| ==> !(run[i].CallUpdate? && run[i].id == id)
  }

  ghost predicate Shows(st: State, id: string, port: int) {
    id in st.files && st.files[id].Some? && st.files[id].value.port == port
  }

  /** From the moment that a write with the new port has landed, the file shows that port for as
      long as the instance is in service and is not updated again. */
  ghost predicate Sticks(st: State, id: string, port: int, now: int) {
    forall a: seq<Step>, k: nat, b: seq<Step> ::
      var mid := Exec(Next(st, CallUpdate(id, Some(port), now)), a);
      var end := Exec(Next(mid, Rename(id, k)), b);
      (NoUpdate(a, id) && NoUpdate(b, id) && InService(end, id)
       && id in mid.regs && k < |mid.regs[id].writes| && !mid.regs[id].writes[k].landed
       && mid.regs[id].writes[k].info.port == port)
      ==> Shows(end, id, port)
  }

  ghost predicate Current(st: State, id: string, port: int) {
    id in st.regs && st.regs[id].port == port && NoneStale(st.regs[id], port)
  }

  lemma EndWriteCurrent(r: Reg, k: nat, port: int)
    requires NoneStale(r, port)
    ensures NoneStale(EndWrite(r, k), port)
  {
    if k < |r.writes| {
      var rest := r.writes[..k] + r.writes[k + 1..];
      assert forall i :: 0 <= i < |rest| ==> rest[i] == r.writes[if i < k then i else i + 1];
    }
  }

  lemma NextKeepsCurrent(st: State, step: Step, id: string, port: int)
    requires Current(st, id, port) && !(step.CallUpdate? && step.id == id)
    ensures Current(Next(st, step), id, port)
  {
    if step.Finish? {
      EndWriteCurrent(st.regs[id], step.k, port);
    }
  }

  lemma {:induction false} RunKeepsCurrent(st: State, run: seq<Step>, id: string, port: int)
    requires Current(st, id, port) && NoUpdate(run, id)
    ensures Current(Exec(st, run), id, port)
    decreases |run|
  {
    hide Current, Next;
    if run != [] {
      NextKeepsCurrent(st, run[0], id, port);
      RunKeepsCurrent(Next(st, run[0]), run[1..], id, port);
    }
  }

  lemma {:induction false} RunKeepsShowing(st: State, run: seq<Step>, id: string, port: int)
    requires Inv(st) && Current(st, id, port) && NoUpdate(run, id) && Shows(st, id, port)
    requires InService(Exec(st, run), id)
    ensures Shows(Exec(st, run), id, port)
    decreases |run|
  {
    hide RegSound, SweepSound, FileSound, Next;
    if run != [] {
      var st1 := Next(st, run[0]);
      NextKeepsInv(st, run[0]);
      NextKeepsReg(st, run[0], id);
      NextKeepsCurrent(st, run[0], id, port);
      if !InService(st1, id) {
        OutOfServiceForGood(st1, run[1..], id);
      }
      OnlyOwnRenames(st, run[0], id);
      RunKeepsShowing(st1, run[1..], id, port);
    }
  }

  lemma SticksIfNoneStale(st: State, id: string, port: int, now: int)
    requires Inv(st) && InService(st, id) && NoneStale(st.regs[id], port)
    ensures Sticks(st, id, port, now)
  {
    var st1 := Next(st, CallUpdate(id, Some(port), now));
    NextKeepsInv(st, CallUpdate(id, Some(port), now));
    assert Current(st1, id, port);
    forall a: seq<Step>, k: nat, b: seq<Step>
      | var mid := Exec(st1, a);
        var end := Exec(Next(mid, Rename(id, k)), b);
        NoUpdate(a, id) && NoUpdate(b, id) && InService(end, id)
        && id in mid.regs && k < |mid.regs[id].writes| && !mid.regs[id].writes[k].landed
        && mid.regs[id].writes[k].info.port == port
      ensures Shows(Exec(Next(Exec(st1, a), Rename(id, k)), b), id, port)
    {
      LandedPortShows(st1, a, k, b, id, port);
    }
  }

  lemma LandedPortShows(st: State, a: seq<Step>, k: nat, b: seq<Step>, id: string, port: int)
    requires Inv(st) && Current(st, id, port) && NoUpdate(a, id) && NoUpdate(b, id)
    requires var mid := Exec(st, a);
             && id in mid.regs && k < |mid.regs[id].writes| && !mid.regs[id].writes[k].landed
             && mid.regs[id].writes[k].info.port == port
             && InService(Exec(Next(mid, Rename(id, k)), b), id)
    ensures Shows(Exec(Next(Exec(st, a), Rename(id, k)), b), id, port)
  {
    RunKeepsInv(st, a);
    RunKeepsCurrent(st, a, id, port);
    var mid := Exec(st, a);
    var landed := Next(mid, Rename(id, k));
    NextKeepsInv(mid, Rename(id, k));
    NextKeepsCurrent(mid, Rename(id, k), id, port);
    NextKeepsReg(mid, Rename(id, k), id);
    hide Exec, Inv, Current, NoUpdate;
    if !InService(mid, id) {
      OutOfServiceForGood(landed, b, id);
    }
    assert Shows(landed, id, port);
    RunKeepsShowing(landed, b, id, port);
  }

  /** The smallest case: a heartbeat under way when the port is updated. */
  lemma StaleHeartbeatExample(info: Info, port: int, now: int)
    requires port != info.port
    ensures var st := State(map[], {}, {}, map[], []);
            var id := info.serverId;
            var before := [Spawn(info.pid), Register(info), Heartbeat(id, now)];
            && Initial(st) && InService(Exec(st, before), id)
            && !Sticks(Exec(st, before), id, port, now)
  {
    var st, id := State(map[], {}, {}, map[], []), info.serverId;
    var before := [Spawn(info.pid), Register(info), Heartbeat(id, now)];
    var s1 := Next(st, before[0]);
    var s2 := Next(s1, before[1]);
    var s3 := Next(s2, before[2]);
    assert s3.regs[id].writes == [Write(info.(heartbeatAt := now), false)];
    RunKeepsInv(st, before);
    hide Next, Sticks, Inv;
    var later, last := [before[1], before[2]], [before[2]];
    assert before[1..] == later && later[1..] == last && last[1..] == [];
    assert Exec(s3, []) == s3;
    assert Exec(s2, last) == Exec(s3, []);
    assert Exec(s1, later) == Exec(s2, last);
    assert Exec(st, before) == Exec(s1, later);
    StaleWriteWins(s3, id, port, now, 0);
  }

  /** A write that was under way at the update can land after the update's own. */
  lemma StaleWriteWins(st: State, id: string, port: int, now: int, k: nat)
    requires Inv(st) && InService(st, id)
    requires k < |st.regs[id].writes| && !st.regs[id].writes[k].landed
    requires st.regs[id].writes[k].info.port != port
    ensures !Sticks(st, id, port, now)
  {
    var n := |st.regs[id].writes|;
    var st1 := Next(st, CallUpdate(id, Some(port), now));
    var st2 := Next(st1, Rename(id, n));
    var b := [Rename(id, k)];
    var st3 := Next(st2, b[0]);
    assert Exec(st1, []) == st1;
    assert Exec(st2, b) == st3 by { assert b[1..] == []; }
    assert InService(st3, id) && !Shows(st3, id, port);
    assert NoUpdate([], id) && NoUpdate(b, id);
    assert !Sticks(st, id, port, now) by {
      assert Exec(Next(Exec(st1, []), Rename(id, n)), b) == st3;
    }
  }

  /** An update sticks exactly when no write with another port was still on its way. */
  lemma UpdateSticksIff(st: State, before: seq<Step>, id: string, port: int, now: int)
    requires Initial(st) && InService(Exec(st, before), id)
    ensures Sticks(Exec(st, before), id, port, now)
       <==> NoneStale(Exec(st, before).regs[id], port)
  {
    InitialInv(st);
    RunKeepsInv(st, before);
    hide Exec, Sticks, Initial, Inv;
    var now0 := Exec(st, before);
    if NoneStale(now0.regs[id], port) {
      SticksIfNoneStale(now0, id, port, now);
    } else {
      var k :| 0 <= k < |now0.regs[id].writes| && !now0.regs[id].writes[k].landed
               && now0.regs[id].writes[k].info.port != port;
      StaleWriteWins(now0, id, port, now, k);
    }
  }
}

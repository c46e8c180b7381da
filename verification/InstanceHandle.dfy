/** The closure behind one registration (packages/kap-server/src/instanceRegistry.ts), updated in
    place, and why nothing but its own steps has a say in it while its process lives. */
module InstanceHandle {
  import opened Wrappers
  import opened InstanceRegistry

  // ---- In place -----------------------------------------------------------------------------

  class Registration {
    const info: Info
    var port: int
    var released: bool
    var inflightWrites: int
    var writes: seq<Write>
    var phase: Phase

    function Abs(): Reg
      reads this
    {
      Reg(info, port, released, inflightWrites, writes, phase)
    }

    /** The counter is the number of writes under way, and a release waits only for such. */
    ghost predicate Valid()
      reads this
    {
      RegSound(Abs())
    }

    constructor (info: Info)
      ensures Valid() && Abs() == NewReg(info)
    {
      this.info, port, released, inflightWrites := info, info.port, false, 0;
      writes, phase := [], Serving;
    }

    /** A write gets under way, with the port of this moment, unless release has been called. */
    method StartWrite(now: int) returns (started: bool)
      requires Valid()
      modifies this
      ensures Valid() && Abs() == BeginWrite(old(Abs()), now)
      ensures started == !old(released)
      ensures started ==> writes == old(writes) + [Write(info.(port := port, heartbeatAt := now),
                                                         false)]
      ensures !started ==> writes == old(writes)
      ensures inflightWrites == |writes| && port == old(port)
    {
      if released {
        return false;
      }
      inflightWrites := inflightWrites + 1;
      writes := writes + [Write(info.(port := port, heartbeatAt := now), false)];
      return true;
    }

    /** The rename of a write under way; `content` is what the file holds from now on. */
    method RenameLands(k: nat) returns (content: Info)
      requires Valid() && k < |writes|
      modifies this`writes
      ensures Valid() && Abs() == OwnReg(old(Abs()), Rename(info.serverId, k))
      ensures content == old(writes[k].info) && content.pid == info.pid
    {
      content := writes[k].info;
      writes := writes[k := writes[k].(landed := true)];
    }

    /** The `finally` of a write. A release is woken exactly by the end of the last write it was
        waiting for. */
    method FinishWrite(k: nat) returns (woken: bool)
      requires Valid() && k < |writes|
      modifies this
      ensures Valid() && Abs() == EndWrite(old(Abs()), k)
      ensures woken <==> old(phase).Draining? && writes == []
      ensures phase == if woken then Unlinking else old(phase)
    {
      ghost var was := Abs();
      EndWriteSound(was, k);
      writes := writes[..k] + writes[k + 1..];
      inflightWrites := inflightWrites - 1;
      woken := inflightWrites == 0 && phase.Draining?;
      if woken {
        phase := Unlinking;
      }
    }

    /** The port changes, and the write that carries it gets under way. */
    method UpdatePort(newPort: Option<int>, now: int) returns (started: bool)
      requires Valid()
      modifies this
      ensures Valid() && Abs() == Update(old(Abs()), newPort, now)
      ensures started == !old(released)
      ensures started ==> port == newPort.GetOr(old(port)) && writes != []
                          && writes[|writes| - 1].info.port == port
      ensures !started ==> port == old(port) && writes == old(writes)
    {
      if released {
        return false;
      }
      if newPort.Some? {
        port := newPort.value;
      }
      started := StartWrite(now);
    }

    /** The first call closes the instance to new writes, and waits exactly when there are writes
        under way; a second call does neither. */
    method Release() returns (waits: bool)
      requires Valid()
      modifies this
      ensures Valid() && Abs() == BeginRelease(old(Abs()))
      ensures released && writes == old(writes)
      ensures waits <==> !old(released) && writes != []
      ensures !old(released) ==> phase == if waits then Draining else Unlinking
    {
      if released {
        return false;
      }
      released := true;
      waits := inflightWrites > 0;
      phase := if waits then Draining else Unlinking;
    }

    /** The unlink at the end of a release; it comes only when no write is left to undo it. */
    method Unlinked(failed: bool)
      requires Valid() && phase.Unlinking?
      modifies this`phase
      ensures Valid() && writes == [] && phase == if failed then Rejected else Resolved
      ensures Abs() == OwnReg(old(Abs()), if failed then UnlinkFails(info.serverId)
                                          else UnlinkOwn(info.serverId))
    {
      phase := if failed then Rejected else Resolved;
    }
  }

  // ---- Driven by its own steps --------------------------------------------------------------

  type Content = Option<Option<Info>>

  /** A registration and its file, after steps of the instance itself. */
  function Drive(r: Reg, file: Content, steps: seq<Step>): (Reg, Content)
    decreases |steps|
  {
    if steps == [] then (r, file)
    else Drive(OwnReg(r, steps[0]), OwnFile(r, file, steps[0]), steps[1..])
  }

  /** From registration on, the closure goes through any steps of its own; those that are not
      possible when they come up are passed over. */
  method RunInstance(info: Info, steps: seq<Step>) returns (r: Registration, file: Content)
    ensures fresh(r) && r.Valid() && (r.Abs(), file) == Drive(NewReg(info), None, steps)
  {
    hide OwnReg, OwnFile, RegSound;
    r := new Registration(info);
    file := None;
    for i := 0 to |steps|
      invariant fresh(r) && r.Valid()
      invariant Drive(r.Abs(), file, steps[i..]) == Drive(NewReg(info), None, steps)
    {
      assert steps[i..][1..] == steps[i + 1..];
      file := Perform(r, file, steps[i]);
    }
  }

  method Perform(r: Registration, file: Content, step: Step) returns (next: Content)
    requires r.Valid()
    modifies r
    ensures r.Valid() && (r.Abs(), next) == (OwnReg(old(r.Abs()), step),
                                             OwnFile(old(r.Abs()), file, step))
  {
    hide BeginWrite, EndWrite, Update, BeginRelease, RegSound;
    next := file;
    match step {
      case Heartbeat(_, now) => var _ := r.StartWrite(now);
      case CallUpdate(_, port, now) => var _ := r.UpdatePort(port, now);
      case CallRelease(_) => var _ := r.Release();
      case Rename(_, k) =>
        if k < |r.writes| {
          var first := !r.writes[k].landed;
          var content := r.RenameLands(k);
          if first {
            next := Some(Some(content));
          }
        }
      case Finish(_, k) =>
        if k < |r.writes| {
          var _ := r.FinishWrite(k);
        } else {
          NothingToEnd(r.Abs(), k);
        }
      case UnlinkOwn(_) =>
        if r.phase.Unlinking? {
          r.Unlinked(false);
          next := None;
        }
      case UnlinkFails(_) =>
        if r.phase.Unlinking? {
          r.Unlinked(true);
        }
      case _ =>
    }
  }

  lemma NothingToEnd(r: Reg, k: nat)
    requires k >= |r.writes|
    ensures EndWrite(r, k) == r
  {}

  // ---- In the company of others -------------------------------------------------------------

  predicate IsOwn(step: Step, id: string) {
    match step
    case Heartbeat(i, _) => i == id
    case CallUpdate(i, _, _) => i == id
    case CallRelease(i) => i == id
    case Rename(i, _) => i == id
    case Finish(i, _) => i == id
    case UnlinkOwn(i) => i == id
    case UnlinkFails(i) => i == id
    case _ => false
  }

  function OwnSteps(run: seq<Step>, id: string): seq<Step>
    decreases |run|
  {
    if run == [] then []
    else (if IsOwn(run[0], id) then [run[0]] else []) + OwnSteps(run[1..], id)
  }

  lemma StepProjects(st: State, step: Step, id: string)
    requires Inv(st) && id in st.regs && CanRun(Next(st, step), id)
    ensures CanRun(st, id)
    ensures var st1 := Next(st, step);
            (st1.regs[id], File(st1.files, id)) ==
            (if IsOwn(step, id)
             then (OwnReg(st.regs[id], step), OwnFile(st.regs[id], File(st.files, id), step))
             else (st.regs[id], File(st.files, id)))
  {
    hide RegSound, FileSound, OwnReg, OwnFile;
    NextKeepsReg(st, step, id);
    if step.SweepUnlink? && step.k < |st.sweeps| {
      assert SweepSound(st, st.sweeps[step.k]);
    }
  }

  /** In every run, as long as its process lives, the registration and the file of an instance are
      what its own steps alone make of them: no peer, no sweep and no crash elsewhere matters. */
  lemma {:induction false} OnlyOwnStepsMatter(st: State, run: seq<Step>, id: string)
    requires Inv(st) && id in st.regs && CanRun(Exec(st, run), id)
    ensures (Exec(st, run).regs[id], File(Exec(st, run).files, id))
         == Drive(st.regs[id], File(st.files, id), OwnSteps(run, id))
    decreases |run|
  {
    hide Inv, Next, OwnReg, OwnFile, IsOwn, File;
    if run != [] {
      var st1 := Next(st, run[0]);
      NextKeepsInv(st, run[0]);
      NextKeepsReg(st, run[0], id);
      if !CanRun(st1, id) {
        DeadForGood(st1, run[1..], id);
      }
      StepProjects(st, run[0], id);
      OnlyOwnStepsMatter(st1, run[1..], id);
      DriveFirst(st.regs[id], File(st.files, id), run, id);
    }
  }

  lemma DriveFirst(r: Reg, file: Content, run: seq<Step>, id: string)
    requires run != []
    ensures Drive(r, file, OwnSteps(run, id))
         == if IsOwn(run[0], id)
            then Drive(OwnReg(r, run[0]), OwnFile(r, file, run[0]), OwnSteps(run[1..], id))
            else Drive(r, file, OwnSteps(run[1..], id))
  {
    hide OwnReg, OwnFile, IsOwn;
    var rest := OwnSteps(run[1..], id);
    if IsOwn(run[0], id) {
      assert ([run[0]] + rest)[1..] == rest;
    } else {
      assert [] + rest == rest;
    }
  }

  /** An instance in a run is `RunInstance` on its own steps, from its registration on. */
  lemma InstanceInRun(st: State, before: seq<Step>, info: Info, after: seq<Step>)
    requires Initial(st)
    requires info.pid in Exec(st, before).live && NewId(Exec(st, before), info.serverId)
    requires CanRun(Exec(Next(Exec(st, before), Register(info)), after), info.serverId)
    ensures var end := Exec(Next(Exec(st, before), Register(info)), after);
            && end.regs[info.serverId] == Drive(NewReg(info), None,
                                                OwnSteps(after, info.serverId)).0
            && File(end.files, info.serverId) == Drive(NewReg(info), None,
                                                       OwnSteps(after, info.serverId)).1
  {
    InitialInv(st);
    RunKeepsInv(st, before);
    var mid := Exec(st, before);
    NextKeepsInv(mid, Register(info));
    var registered := Next(mid, Register(info));
    hide Exec, Inv, Initial, Drive, OwnSteps;
    assert registered.regs[info.serverId] == NewReg(info);
    assert File(registered.files, info.serverId) == None;
    OnlyOwnStepsMatter(registered, after, info.serverId);
  }
}

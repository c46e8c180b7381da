/** What it means that a call of `release` has resolved (packages/kap-server/src/instanceRegistry.ts):
    the first call resolves when it has removed the file, a later one at once. */
module InstanceRelease {
  import opened Wrappers
  import opened InstanceRegistry

  /** Not on disk, and it will not be. */
  ghost predicate GoneForGood(st: State, id: string) {
    forall run: seq<Step> :: id !in Exec(st, run).files
  }

  predicate AllLanded(r: Reg) { forall k :: 0 <= k < |r.writes| ==> r.writes[k].landed }

  ghost predicate Quiet(st: State, id: string) {
    id in st.regs && st.regs[id].released && id !in st.files
    && (CanRun(st, id) ==> AllLanded(st.regs[id]))
  }

  lemma OwnStepStaysLanded(r: Reg, step: Step)
    requires r.released && AllLanded(r)
    ensures AllLanded(OwnReg(r, step)) && OwnReg(r, step).released
  {
    if step.Finish? && step.k < |r.writes| {
      var k, rest := step.k, r.writes[..step.k] + r.writes[step.k + 1..];
      assert forall i :: 0 <= i < |rest| ==> rest[i] == r.writes[if i < k then i else i + 1];
    }
  }

  lemma NextStaysQuiet(st: State, step: Step, id: string)
    requires Inv(st) && Quiet(st, id)
    ensures Quiet(Next(st, step), id)
  {
    NextKeepsReg(st, step, id);
    if CanRun(st, id) {
      OwnStepStaysLanded(st.regs[id], step);
    }
    hide RegSound, FileSound, SweepSound, OwnReg;
  }

  lemma {:induction false} RunStaysQuiet(st: State, run: seq<Step>, id: string)
    requires Inv(st) && Quiet(st, id)
    ensures id !in Exec(st, run).files
    decreases |run|
  {
    hide Inv, Next;
    if run != [] {
      NextKeepsInv(st, run[0]);
      NextStaysQuiet(st, run[0], id);
      RunStaysQuiet(Next(st, run[0]), run[1..], id);
    }
  }

  /** After any call of release: the file is gone for good exactly when it is not there and no write
      whose rename is still to come can run. */
  lemma GoneForGoodIff(st: State, before: seq<Step>, id: string)
    requires Initial(st) && id in Exec(st, before).regs && Exec(st, before).regs[id].released
    ensures GoneForGood(Exec(st, before), id)
       <==> id !in Exec(st, before).files
            && (CanRun(Exec(st, before), id) ==> AllLanded(Exec(st, before).regs[id]))
  {
    InitialInv(st);
    RunKeepsInv(st, before);
    var mid := Exec(st, before);
    assert Exec(mid, []) == mid;
    if id !in mid.files && CanRun(mid, id) && !AllLanded(mid.regs[id]) {
      var k :| 0 <= k < |mid.regs[id].writes| && !mid.regs[id].writes[k].landed;
      var last := Next(mid, Rename(id, k));
      assert id in last.files;
      assert Exec(mid, [Rename(id, k)]) == last by { assert [Rename(id, k)][1..] == []; }
    }
    if Quiet(mid, id) {
      forall run: seq<Step>
        ensures id !in Exec(mid, run).files
      {
        RunStaysQuiet(mid, run, id);
      }
    }
  }

  /** A call of release that finds an earlier one returns at once, whatever that one has come to. */
  lemma SecondReleaseReturnsAtOnce(st: State, id: string)
    requires id in st.regs && st.regs[id].released
    ensures Next(st, CallRelease(id)) == st
  {
    var r := st.regs[id];
    assert st.regs[id := r] == st.regs;
    assert SetFile(st.files, id, File(st.files, id)) == st.files;
  }

  /** Whenever the release of an instance has come to this, its file is gone for good. */
  ghost predicate MeansGone(phase: Phase) {
    forall st: State, run: seq<Step>, id: string ::
      (Initial(st) && id in Exec(st, run).regs && Exec(st, run).regs[id].phase == phase) ==>
        GoneForGood(Exec(st, run), id)
  }

  /** One heartbeat, and a release whose unlink fails. */
  function FailingRelease(info: Info): seq<Step> {
    var id := info.serverId;
    [Spawn(info.pid), Register(info), Heartbeat(id, 0), Rename(id, 0), CallRelease(id),
     Finish(id, 0), UnlinkFails(id)]
  }

  const EMPTY := State(map[], {}, {}, map[], [])

  /** How many of those steps bring the release to a phase. */
  function StepsTo(phase: Phase): nat {
    match phase
    case Serving => 4
    case Draining => 5
    case Unlinking => 6
    case _ => 7
  }

  function OnDisk(info: Info, writes: seq<Write>, phase: Phase): State {
    var reg := Reg(info, info.port, !phase.Serving?, |writes|, writes, phase);
    State(map[info.serverId := Some(info.(heartbeatAt := 0))], {info.pid}, {info.pid},
          map[info.serverId := reg], [])
  }

  lemma {:induction false} ExecPrefix(st: State, run: seq<Step>, k: nat)
    requires k < |run|
    ensures Exec(st, run[..k + 1]) == Next(Exec(st, run[..k]), run[k])
    decreases k
  {
    hide Next;
    if k > 0 {
      assert run[..k + 1][1..] == run[1..][..k] && run[..k][1..] == run[1..][..k - 1];
      ExecPrefix(Next(st, run[0]), run[1..], k - 1);
    } else {
      assert run[..1][1..] == [];
    }
  }

  lemma FirstSteps(info: Info)
    ensures Next(Next(Next(Next(EMPTY, Spawn(info.pid)), Register(info)),
                      Heartbeat(info.serverId, 0)), Rename(info.serverId, 0))
         == OnDisk(info, [Write(info.(heartbeatAt := 0), true)], Serving)
  {
    var id, w := info.serverId, Write(info.(heartbeatAt := 0), false);
    var s2 := Next(Next(EMPTY, Spawn(info.pid)), Register(info));
    assert s2.regs == map[id := NewReg(info)] && s2.files == map[] && s2.live == {info.pid};
    var s3 := Next(s2, Heartbeat(id, 0));
    assert [] + [w] == [w];
    assert s3.regs == map[id := NewReg(info).(inflight := 1, writes := [w])];
    assert s3.files == map[] && s3.sweeps == [];
    var s4 := Next(s3, Rename(id, 0));
    assert s4.regs[id].writes == [w.(landed := true)];
    assert s4.files == map[id := Some(w.info)];
    assert s4.regs == OnDisk(info, [w.(landed := true)], Serving).regs;
  }

  lemma ReleaseCalled(info: Info, w: Write)
    ensures Next(OnDisk(info, [w], Serving), CallRelease(info.serverId))
         == OnDisk(info, [w], Draining)
  {}

  lemma WriteFinished(info: Info, w: Write)
    ensures Next(OnDisk(info, [w], Draining), Finish(info.serverId, 0))
         == OnDisk(info, [], Unlinking)
  {
    assert [w][..0] + [w][1..] == [];
  }

  lemma UnlinkFailed(info: Info)
    ensures Next(OnDisk(info, [], Unlinking), UnlinkFails(info.serverId))
         == OnDisk(info, [], Rejected)
  {}

  /** Before it resolves, or when it does not, the file can still be there. */
  lemma StillOnDisk(info: Info, phase: Phase)
    requires !phase.Resolved?
    ensures var mid := Exec(EMPTY, FailingRelease(info)[..StepsTo(phase)]);
            && info.serverId in mid.regs && mid.regs[info.serverId].phase == phase
            && info.serverId in mid.files
  {
    var run, w := FailingRelease(info), Write(info.(heartbeatAt := 0), true);
    FirstSteps(info);
    ReleaseCalled(info, w);
    WriteFinished(info, w);
    UnlinkFailed(info);
    hide Next, Exec;
    Prefixes(run);
    assert Exec(EMPTY, run[..4]) == OnDisk(info, [w], Serving);
    assert Exec(EMPTY, run[..5]) == OnDisk(info, [w], Draining);
    assert Exec(EMPTY, run[..6]) == OnDisk(info, [], Unlinking);
    assert Exec(EMPTY, run[..7]) == OnDisk(info, [], Rejected);
  }

  lemma Prefixes(run: seq<Step>)
    requires |run| == 7
    ensures Exec(EMPTY, run[..4]) == Next(Next(Next(Next(EMPTY, run[0]), run[1]), run[2]), run[3])
    ensures Exec(EMPTY, run[..5]) == Next(Exec(EMPTY, run[..4]), run[4])
    ensures Exec(EMPTY, run[..6]) == Next(Exec(EMPTY, run[..5]), run[5])
    ensures Exec(EMPTY, run[..7]) == Next(Exec(EMPTY, run[..6]), run[6])
  {
    hide Next;
    assert Exec(EMPTY, run[..0]) == EMPTY;
    ExecPrefix(EMPTY, run, 0);
    ExecPrefix(EMPTY, run, 1);
    ExecPrefix(EMPTY, run, 2);
    ExecPrefix(EMPTY, run, 3);
    ExecPrefix(EMPTY, run, 4);
    ExecPrefix(EMPTY, run, 5);
    ExecPrefix(EMPTY, run, 6);
  }

  /** That a release call has returned says that the file is gone for good if and only if the first
      call has resolved. */
  lemma ReleaseMeansGoneIff(phase: Phase)
    ensures MeansGone(phase) <==> phase.Resolved?
  {
    if phase.Resolved? {
      forall st: State, run: seq<Step>, id: string
        | Initial(st) && id in Exec(st, run).regs && Exec(st, run).regs[id].phase == phase
        ensures GoneForGood(Exec(st, run), id)
      {
        forall after: seq<Step>
          ensures id !in Exec(Exec(st, run), after).files
        {
          ReleasedStaysGone(st, run, after, id);
        }
      }
    } else {
      var info := Info("", 0, "", 0, 0, 0, None);
      StillOnDisk(info, phase);
      var mid := Exec(EMPTY, FailingRelease(info)[..StepsTo(phase)]);
      assert Exec(mid, []) == mid;
      assert !GoneForGood(mid, "");
    }
  }
}

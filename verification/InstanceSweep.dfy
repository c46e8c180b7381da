/** What a sweep of the instance directory leaves (packages/kap-server/src/instanceRegistry.ts): the
    files of dead processes go, everything else stays. */
module InstanceSweep {
  import opened Wrappers
  import opened InstanceRegistry

  /** The file decodes and names a process that is gone. */
  predicate NamesDead(st: State, id: string) {
    id in st.files && st.files[id].Some? && st.files[id].value.pid !in st.live
  }

  /** What a sweep does about one file: read it, look for the process, and perhaps remove it. `n` is
      where the sweep of this file stands. */
  function SweepOne(owner: int, id: string, n: nat): seq<Step> {
    [SweepRead(owner, id), SweepProbe(n), SweepUnlink(n)]
  }

  lemma ExecThree(st: State, a: Step, b: Step, c: Step)
    ensures Exec(st, [a, b, c]) == Next(Next(Next(st, a), b), c)
  {
    hide Next;
    assert [a, b, c][1..] == [b, c] && [b, c][1..] == [c] && [c][1..] == [];
    assert Exec(st, [a, b, c]) == Exec(Next(st, a), [b, c]) == Exec(Next(Next(st, a), b), [c]);
  }

  /** Undisturbed, it removes the file exactly if it names a dead process; a file that does not decode
      may belong to a peer in the middle of a write and is left alone. */
  lemma OneIsSwept(st: State, owner: int, id: string)
    requires owner in st.live
    ensures Exec(st, SweepOne(owner, id, |st.sweeps|))
         == st.(files := if NamesDead(st, id) then st.files - {id} else st.files)
  {
    var n := |st.sweeps|;
    ExecThree(st, SweepRead(owner, id), SweepProbe(n), SweepUnlink(n));
    hide Exec;
    var s1 := Next(st, SweepRead(owner, id));
    if id in st.files && st.files[id].Some? {
      var sweep := Sweep(owner, id, st.files[id].value.pid, false);
      assert s1 == st.(sweeps := st.sweeps + [sweep]);
      assert Without(s1.sweeps, n) == st.sweeps;
      var s2 := Next(s1, SweepProbe(n));
      if NamesDead(st, id) {
        var condemned := sweep.(condemned := true);
        assert s1.sweeps[n := condemned] == st.sweeps + [condemned];
        assert Without(s2.sweeps, n) == st.sweeps;
      } else {
        assert s2 == st;
      }
    } else {
      assert s1 == st;
    }
  }

  function SweepAll(owner: int, names: seq<string>, n: nat): seq<Step>
    decreases |names|
  {
    if names == [] then [] else SweepOne(owner, names[0], n) + SweepAll(owner, names[1..], n)
  }

  lemma {:induction false} ExecConcat(st: State, a: seq<Step>, b: seq<Step>)
    ensures Exec(st, a + b) == Exec(Exec(st, a), b)
    decreases |a|
  {
    hide Next;
    if a == [] {
      assert a + b == b;
    } else {
      assert (a + b)[1..] == a[1..] + b;
      ExecConcat(Next(st, a[0]), a[1..], b);
    }
  }

  /** A whole sweep, undisturbed: of the files listed, those that name a dead process are gone, and
      nothing else has changed. */
  lemma {:induction false} DeadAreSwept(st: State, owner: int, names: seq<string>)
    requires owner in st.live
    ensures var end := Exec(st, SweepAll(owner, names, |st.sweeps|));
            && end == st.(files := end.files)
            && forall id :: File(end.files, id)
                            == if id in names && NamesDead(st, id) then None else File(st.files, id)
    decreases |names|
  {
    if names != [] {
      var n, id := |st.sweeps|, names[0];
      var mid := Exec(st, SweepOne(owner, id, n));
      OneIsSwept(st, owner, id);
      ExecConcat(st, SweepOne(owner, id, n), SweepAll(owner, names[1..], n));
      DeadAreSwept(mid, owner, names[1..]);
      assert names == [names[0]] + names[1..];
      hide Exec;
    }
  }

  /** Whatever comes between, and whatever has become of the file: a sweep that has found its process
      gone removes it when it gets there. */
  lemma CondemnedIsRemoved(st: State, k: nat)
    requires k < |st.sweeps| && st.sweeps[k].condemned && st.sweeps[k].owner in st.live
    ensures File(Next(st, SweepUnlink(k)).files, st.sweeps[k].id) == None
    ensures forall id :: id != st.sweeps[k].id ==>
              File(Next(st, SweepUnlink(k)).files, id) == File(st.files, id)
  {}
}

// The scull device that only one process may have open (ldd/scull/access.c). An atomic
// counter guards it; a process that loses the race puts back what it took in a second step.
module SingleOpen {
  datatype Pc = Opened | Refused      // Refused: decremented, not yet incremented back

  datatype State = State(available: int, procs: map<nat, Pc>)

  datatype Label = Open | PutBack | Release

  predicate Enabled(s: State, p: nat, l: Label) {
    match l
    case Open => p !in s.procs
    case PutBack => p in s.procs && s.procs[p].Refused?
    case Release => p in s.procs && s.procs[p].Opened?
  }

  function Next(s: State, p: nat, l: Label): State {
    match l
    case Open =>
      State(s.available - 1, s.procs[p := if s.available - 1 == 0 then Opened else Refused])
    case PutBack => State(s.available + 1, s.procs - {p})
    case Release => State(s.available + 1, s.procs - {p})
  }

  ghost function Holders(s: State): set<nat> {
    set p | p in s.procs && s.procs[p].Opened?
  }

  ghost predicate Inv(s: State) {
    && s.available == 1 - |s.procs|
    && |Holders(s)| <= 1
  }

  lemma StepKeepsInv(s: State, p: nat, l: Label)
    requires Inv(s) && Enabled(s, p, l)
    ensures Inv(Next(s, p, l))
  {
    var t := Next(s, p, l);
    if l.Open? {
      assert t.procs.Keys == s.procs.Keys + {p};
      assert |t.procs| == |t.procs.Keys| && |s.procs| == |s.procs.Keys|;
      if s.available == 1 {
        assert s.procs.Keys == {};
        assert Holders(t) == {p};
      } else {
        assert Holders(t) == Holders(s);
      }
    } else {
      assert t.procs.Keys == s.procs.Keys - {p};
      assert |t.procs| == |t.procs.Keys| && |s.procs| == |s.procs.Keys|;
      assert Holders(t) == Holders(s) - {p};
    }
  }

  ghost predicate Reaches(s: State, run: seq<(nat, Label)>, t: State)
    decreases |run|
  {
    if run == [] then s == t else
      Enabled(s, run[0].0, run[0].1) && Reaches(Next(s, run[0].0, run[0].1), run[1..], t)
  }

  lemma {:induction false} RunKeepsInv(s: State, run: seq<(nat, Label)>, t: State)
    requires Inv(s) && Reaches(s, run, t)
    ensures Inv(t)
    decreases |run|
  {
    if run != [] {
      StepKeepsInv(s, run[0].0, run[0].1);
      RunKeepsInv(Next(s, run[0].0, run[0].1), run[1..], t);
    }
  }

  // At most one process has the device open, and an open succeeds exactly when no other
  // process holds the device or is in the middle of being refused.
  lemma OneHolder(s: State, run: seq<(nat, Label)>, t: State, p: nat)
    requires s == State(1, map[]) && Reaches(s, run, t) && Enabled(t, p, Open)
    ensures |Holders(t)| <= 1
    ensures Next(t, p, Open).procs[p].Opened? <==> t.procs == map[]
  {
    RunKeepsInv(s, run, t);
    assert |t.procs| == |t.procs.Keys|;
    if t.available == 1 { assert t.procs.Keys == {}; }
  }

  // So a refusal does not mean that the device is open: here process 3 is refused
  // because of process 2, itself refused because of process 1, which has closed.
  lemma RefusedThoughFree() returns (run: seq<(nat, Label)>, t: State)
    ensures Reaches(State(1, map[]), run, t)
    ensures Holders(t) == {} && Enabled(t, 3, Open) && Next(t, 3, Open).procs[3].Refused?
  {
    run := [(1, Open), (2, Open), (1, Release)];
    var s0 := State(1, map[]);
    var s1 := Next(s0, 1, Open);
    var s2 := Next(s1, 2, Open);
    t := Next(s2, 1, Release);
    assert run[1..] == [(2, Open), (1, Release)];
    assert run[1..][1..] == [(1, Release)];
    assert run[1..][1..][1..] == [];
    assert Reaches(t, [], t);
    assert Reaches(s2, run[1..][1..], t);
    assert Reaches(s1, run[1..], t);
  }
}

/** The handler's walk along the list while it takes finished jobs out of it. */
module JobTraversal {
  import opened JobTable
  import opened JobTableTheorems

  /** What the handler relies on while it works: groups are distinct, the job at p has
      processes, and those moved have none. */
  ghost predicate Ready(t: Table, p: nat) {
    && p < |t.current| && DistinctPgids(t.current) && t.current[p].unreaped >= 1
    && (forall i :: 0 <= i < |t.current| ==> t.current[i].pgid >= 1)
    && (forall i :: 0 <= i < |t.removed| ==> t.removed[i].unreaped == 0)
  }

  /** The handler's work on the job at position p, and where it continues. */
  function ChldOne(t: Table, p: nat, script: seq<Event>): Table
    requires p < |t.current|
  {
    var j := TakeAll(t.current[p], script);
    if j.size == 0 then t.(current := Without(t.current, p), removed := t.removed + [j])
    else t.(current := t.current[p := j])
  }

  function Passed(t: Table, p: nat, script: seq<Event>): nat
    requires p < |t.current|
  {
    if TakeAll(t.current[p], script).size == 0 then p else p + 1
  }

  /** The first i jobs taken care of. */
  function Walked(t: Table, scripts: seq<seq<Event>>, i: nat): seq<Job>
    requires i <= |scripts| == |t.current|
  {
    TakeEach(t.current[..i], scripts[..i])
  }

  function Midway(t: Table, scripts: seq<seq<Event>>, i: nat): Table
    requires i <= |scripts| == |t.current|
  {
    t.(current := Live(Walked(t, scripts, i)) + t.current[i..], removed := t.removed + Finished(Walked(t, scripts, i)))
  }

  /** Where the walk stands: behind the jobs that stayed. */
  function MidwayAt(t: Table, scripts: seq<seq<Event>>, i: nat): nat
    requires i <= |scripts| == |t.current|
  {
    |Live(Walked(t, scripts, i))|
  }

  lemma MidwayStart(t: Table, scripts: seq<seq<Event>>)
    requires |scripts| == |t.current|
    ensures Midway(t, scripts, 0) == t && MidwayAt(t, scripts, 0) == 0
  {
    assert Walked(t, scripts, 0) == [];
    assert t.removed + [] == t.removed;
  }

  lemma WalkedNext(t: Table, scripts: seq<seq<Event>>, i: nat)
    requires i < |scripts| == |t.current|
    ensures Walked(t, scripts, i + 1) == Walked(t, scripts, i) + [TakeAll(t.current[i], scripts[i])]
  {
  }

  lemma MidwayNext(t: Table, scripts: seq<seq<Event>>, i: nat)
    requires i < |scripts| == |t.current|
    ensures var m := Midway(t, scripts, i); var p := MidwayAt(t, scripts, i);
            && p < |m.current| && ChldOne(m, p, scripts[i]) == Midway(t, scripts, i + 1)
            && Passed(m, p, scripts[i]) == MidwayAt(t, scripts, i + 1)
  {
    WalkedNext(t, scripts, i);
    var w, j := Walked(t, scripts, i), TakeAll(t.current[i], scripts[i]);
    var m, p := Midway(t, scripts, i), MidwayAt(t, scripts, i);
    assert (w + [j])[..|w|] == w;
    assert m.current[p] == t.current[i];
    if j.size == 0 {
      assert Without(m.current, p) == Live(w) + t.current[i + 1..];
      assert (t.removed + Finished(w)) + [j] == t.removed + (Finished(w) + [j]);
    } else {
      assert m.current[p := j] == (Live(w) + [j]) + t.current[i + 1..];
    }
  }

  lemma MidwayEnd(t: Table, scripts: seq<seq<Event>>, i: nat)
    requires i <= |scripts| == |t.current| && MidwayAt(t, scripts, i) >= |Midway(t, scripts, i).current|
    ensures i == |scripts| && Midway(t, scripts, i) == Chld(t, scripts)
  {
    assert t.current[..i] == t.current && scripts[..i] == scripts;
    assert Live(Walked(t, scripts, i)) + [] == Live(Walked(t, scripts, i));
  }

  lemma WalkedFacts(t: Table, scripts: seq<seq<Event>>, i: nat)
    requires Sound(t) && Possible(t, StepChld(scripts)) && i <= |scripts|
    ensures var w := Walked(t, scripts, i);
            && DistinctPgids(w) && (forall k :: 0 <= k < |w| ==> w[k].pgid == t.current[k].pgid)
            && forall k :: 0 <= k < |w| ==> w[k].size == w[k].unreaped >= 0 && w[k].pgid >= 1 && !w[k].fg
  {
    var cs, w := t.current[..i], Walked(t, scripts, i);
    TakeEachFacts(cs, scripts[..i]);
    forall k | 0 <= k < |w| ensures w[k].pgid == t.current[k].pgid {
      TakeAllCounts(cs[k], scripts[k]);
    }
  }

  lemma MidwayDistinct(t: Table, w: seq<Job>, i: nat)
    requires Sound(t) && i <= |t.current| && |w| == i && DistinctPgids(w)
    requires forall k :: 0 <= k < |w| ==> w[k].pgid == t.current[k].pgid
    ensures DistinctPgids(Live(w) + t.current[i..])
  {
    LiveDistinct(w);
    LiveMembers(w);
    forall a, b | 0 <= a < |Live(w)| && i <= b < |t.current| ensures Live(w)[a].pgid != t.current[b].pgid {
      var k :| 0 <= k < |w| && w[k] == Live(w)[a];
    }
  }

  lemma MidwayReady(t: Table, scripts: seq<seq<Event>>, i: nat)
    requires Sound(t) && Possible(t, StepChld(scripts)) && i < |scripts|
    ensures Ready(Midway(t, scripts, i), MidwayAt(t, scripts, i))
  {
    WalkedFacts(t, scripts, i);
    var w := Walked(t, scripts, i);
    MidwayDistinct(t, w, i);
    SplitCounts(w);
  }

  /** One turn of the walk. */
  lemma MidwayTurn(t: Table, scripts: seq<seq<Event>>, i: nat)
    requires Sound(t) && Possible(t, StepChld(scripts)) && i <= |scripts|
    requires MidwayAt(t, scripts, i) < |Midway(t, scripts, i).current|
    ensures i < |scripts|
    ensures var m := Midway(t, scripts, i); var p := MidwayAt(t, scripts, i);
            && Ready(m, p) && ChldOne(m, p, scripts[i]) == Midway(t, scripts, i + 1)
            && Passed(m, p, scripts[i]) == MidwayAt(t, scripts, i + 1)
  {
    MidwayReady(t, scripts, i);
    MidwayNext(t, scripts, i);
  }
}

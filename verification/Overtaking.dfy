/** The condition of the exclusion theorem is exact: when a machine gets its turn with someone ahead
    of it, or someone joins the line ahead of it, another can always take its turn too
    (internal/teardown/reconciler.go:294-310). */
module Overtaking {
  import opened Wrappers
  import opened Machines
  import opened Ordering
  import opened Protocol
  import opened Exclusion
  import opened Runs
  import Always
  import PowerOff

  ghost predicate InLine(m: Machine) {
    m.controlPlane && m.deletion.Some? && HasHook(m) && Unconcluded(m)
  }

  /** `j` is first in line, and yet it is `a`'s turn. */
  ghost predicate Overtakes(w: World, j: string, a: string) {
    && Always.Inv(w) && a in w.cells && j in w.cells && a != j
    && Holder(w.cells[a]) && w.cells[a].live.cluster == w.cells[j].live.cluster
    && InLine(w.cells[j].live) && !SomeoneAhead(w, j)
  }

  // --------------------------------------------------------------------- someone ahead

  /** The first of the machines of a cluster with their etcd phase to do. */
  lemma FirstOfAll(w: World, cluster: string, x: string) returns (j: string)
    requires Always.Inv(w) && x in w.cells && InLine(w.cells[x].live) && w.cells[x].live.cluster == cluster
    ensures j in w.cells && InLine(w.cells[j].live) && w.cells[j].live.cluster == cluster && !SomeoneAhead(w, j)
  {
    var names := set n | n in w.cells && InLine(w.cells[n].live) && w.cells[n].live.cluster == cluster;
    var machines := set n | n in names :: w.cells[n].live;
    assert x in names && forall n | n in names :: w.cells[n].live in machines;
    var m := SomeonePasses(machines);
    j :| j in names && w.cells[j].live == m;
    assert forall b :: Goes(w, b, j) ==> b in names;
  }

  /** If it is the turn of a machine that has someone ahead of it, the first of all overtakes it. */
  lemma AheadOvertakes(w: World, a: string, b: string) returns (j: string)
    requires Always.Inv(w) && a in w.cells && Holder(w.cells[a]) && Goes(w, b, a)
    ensures Overtakes(w, j, a)
  {
    j := FirstOfAll(w, w.cells[a].live.cluster, b);
    assert j == a ==> !Goes(w, b, a);
  }

  lemma JumperIsLive(w: World, l: Label, m: Machine)
    requires JoinsLine(w, l, m)
    ensures l.name in Apply(w, l).cells && Apply(w, l).cells[l.name].live == m
    ensures forall p | p in w.cells && p != l.name :: p in Apply(w, l).cells && Apply(w, l).cells[p] == w.cells[p]
  {
  }

  lemma JumpOvertakes(w: World, l: Label) returns (j: string, a: string)
    requires Always.Inv(w) && !JoinsBehind(w, l)
    ensures Overtakes(Apply(w, l), j, a) && l.name in w.cells
    ensures a in w.cells && w.cells[a].live.cluster == w.cells[l.name].live.cluster && Apply(w, l).cells[a] == w.cells[a]
  {
    var m, b :| JoinsLine(w, l, m) && Unconcluded(m) && b in w.cells && Holder(w.cells[b])
                && Siblings(w.cells[b], w.cells[l.name]) && GoesBefore(m, w.cells[b].live);
    a := b;
    Always.ApplyInv(w, l);
    JumperIsLive(w, l, m);
    assert Goes(Apply(w, l), l.name, a);
    j := AheadOvertakes(Apply(w, l), a, l.name);
  }

  /** A list that does not hold a machine back gives it its turn. */
  lemma TurnGiven(w: World, l: Label)
    requires AtPoint(w, l, ListTurn) && l.act.answer.Picks?
    requires !Held(w.cells[l.name].pc.m, Listing(w.cells, w.cells[l.name].pc.m.cluster, l.act.answer.picks))
    ensures Apply(w, l).cells.Keys == w.cells.Keys
    ensures Apply(w, l).cells[l.name].turn && Apply(w, l).cells[l.name].live == w.cells[l.name].live
    ensures forall p | p in w.cells && p != l.name :: Apply(w, l).cells[p] == w.cells[p]
  {
  }

  lemma MissOvertakes(w: World, l: Label) returns (j: string)
    requires Always.Inv(w) && !HoldsBack(w, l)
    ensures l.On? && l.name in w.cells && Overtakes(Apply(w, l), j, l.name)
    ensures Apply(w, l).cells[l.name].live == w.cells[l.name].live
  {
    var b :| Goes(w, b, l.name);
    Always.ApplyInv(w, l);
    TurnGiven(w, l);
    assert Goes(Apply(w, l), b, l.name);
    j := AheadOvertakes(Apply(w, l), l.name, b);
  }

  // ------------------------------------------------------------------------- orderly steps

  ghost predicate CanGo(w0: World, w: World, cluster: string) {
    exists ls :: Throughout(w0, ls, OrderlyIn(cluster)) && Run(w0, ls) == w
  }

  lemma GoOn(w0: World, w: World, l: Label, cluster: string)
    requires CanGo(w0, w, cluster) && Orderly(w, l, cluster)
    ensures CanGo(w0, Apply(w, l), cluster)
  {
    var ls :| Throughout(w0, ls, OrderlyIn(cluster)) && Run(w0, ls) == w;
    Extended(Apply, w0, ls, OrderlyIn(cluster), l);
    assert Throughout(w0, ls + [l], OrderlyIn(cluster)) && Run(w0, ls + [l]) == Apply(w, l);
  }

  /** An orderly act on `p`. */
  ghost predicate Calm(w: World, p: string, act: Act) {
    && p in w.cells && !act.Delete?
    && (act.Reply? && w.cells[p].pc.Active? ==> !w.cells[p].pc.at.StampHook?)
    && HoldsBack(w, On(p, act))
  }

  /** Only `p` moved, and kept its place. */
  ghost predicate Moved(w: World, w': World, p: string) {
    && p in w.cells && w'.cells.Keys == w.cells.Keys
    && (forall n | n in w.cells && n != p :: w'.cells[n] == w.cells[n])
    && var m, m' := w.cells[p].live, w'.cells[p].live;
       && m'.name == m.name && m'.cluster == m.cluster && m'.controlPlane == m.controlPlane && m'.deletion == m.deletion
       && (!Unconcluded(m) ==> !Unconcluded(m'))
  }

  /** Reached by orderly steps, with only `p` moved since `w1`. */
  ghost predicate At(w0: World, w1: World, w: World, p: string, cluster: string) {
    CanGo(w0, w, cluster) && Always.Inv(w) && Moved(w1, w, p) && w.cells[p].live.deletion.Some?
  }

  lemma Step(w0: World, w1: World, w: World, p: string, act: Act, cluster: string)
    requires At(w0, w1, w, p, cluster) && Calm(w, p, act)
    ensures At(w0, w1, Apply(w, On(p, act)), p, cluster)
  {
    CalmIsOrderly(w, p, act, cluster);
    GoOn(w0, w, On(p, act), cluster);
    Always.ApplyInv(w, On(p, act));
    StaysInPlace(w1, w, p, act);
  }

  lemma CalmIsOrderly(w: World, p: string, act: Act, cluster: string)
    requires Calm(w, p, act)
    ensures Orderly(w, On(p, act), cluster)
  {
  }

  lemma StaysInPlace(w1: World, w: World, p: string, act: Act)
    requires Moved(w1, w, p) && Calm(w, p, act)
    ensures Moved(w1, Apply(w, On(p, act)), p)
  {
    PlaceInLine(w.cfg, w.now, w.cells[p], HeardAct(w, w.cells[p], act));
  }

  /** `ok` survives every orderly act on `p`. */
  ghost predicate Closed(ok: World -> bool, p: string) {
    forall w, act | ok(w) && Calm(w, p, act) :: ok(Apply(w, On(p, act)))
  }

  lemma AtIsClosed(w0: World, w1: World, p: string, cluster: string)
    ensures Closed(w => At(w0, w1, w, p, cluster), p)
  {
    forall w, act | At(w0, w1, w, p, cluster) && Calm(w, p, act) ensures At(w0, w1, Apply(w, On(p, act)), p, cluster) {
      Step(w0, w1, w, p, act, cluster);
    }
  }

  // ------------------------------------------------------------------- up to the gate

  /** The reconcile of `p` works on the object as it is. */
  ghost predicate Synced(w: World, p: string, m: Machine, obs: int, at: Point) {
    p in w.cells && w.cells[p].live == m && w.cells[p].pc == Active(m, obs, at)
  }

  lemma Answer(ok: World -> bool, w: World, p: string, m: Machine, obs: int, at: Point, a: Answer) returns (w': World)
    requires Closed(ok, p) && ok(w) && Synced(w, p, m, obs, at)
    requires !at.StampHook? && !at.ListTurn? && !a.Picks? && !a.Machines? && (a.ClusterIs? ==> !a.deleting)
    ensures ok(w') && p in w'.cells && w'.cells[p].live == if IsPatch(at) && Effective(a) then Patched(m, at) else m
    ensures w'.cells[p].pc == Advance(w.cfg, w.now, m, obs, at, a)
  {
    assert Calm(w, p, Reply(a));
    w' := Apply(w, On(p, Reply(a)));
  }

  /** The machine as it waits at the gate with no foreign hook. */
  function AtWait(m: Machine): Machine {
    m.(conditions := [Condition(true, true, WaitingForPreTerminateHook)],
       annotations := map k | k in m.annotations && !k.PreTerminate? :: m.annotations[k])
  }

  lemma AtWaitGate(m: Machine)
    requires m.deletion.Some? && HasHook(m)
    ensures Decide(AtWait(m)) == AtGate(AtWait(m)) && AtGate(AtWait(m)).Active? && AtGate(AtWait(m)).m == AtWait(m)
    ensures AtGate(AtWait(m)).at == ObserveClock || AtGate(AtWait(m)).at == ReadCluster
    ensures ForeignEdit(m, AtWait(m), false)
  {
  }

  /** Hooked, deleting, and with its etcd phase as far as it was. */
  ghost predicate SameLine(m: Machine, m': Machine) {
    HasHook(m') && m'.deletion.Some? && m'.controlPlane == m.controlPlane && Unconcluded(m') == Unconcluded(m)
  }

  lemma Crashes(ok: World -> bool, w: World, p: string) returns (w': World)
    requires Closed(ok, p) && ok(w) && p in w.cells
    ensures ok(w') && p in w'.cells && w'.cells[p].pc.Idle? && w'.cells[p].live == w.cells[p].live
  {
    assert Calm(w, p, Crash);
    w' := Apply(w, On(p, Crash));
  }

  lemma Edited(ok: World -> bool, w: World, p: string, m: Machine) returns (w': World)
    requires Closed(ok, p) && ok(w) && p in w.cells && w.cells[p].pc.Idle? && ForeignEdit(w.cells[p].live, m, false)
    ensures ok(w') && p in w'.cells && w'.cells[p].pc.Idle? && w'.cells[p].live == m
  {
    assert Calm(w, p, Edit(m));
    w' := Apply(w, On(p, Edit(m)));
  }

  lemma ReadsLive(ok: World -> bool, w: World, p: string) returns (w': World)
    requires Closed(ok, p) && ok(w) && p in w.cells && w.cells[p].pc.Idle?
    ensures ok(w') && p in w'.cells && w'.cells[p].live == w.cells[p].live && w'.cells[p].pc == Decide(w.cells[p].live)
  {
    var act := Read(|w.cells[p].past|);
    assert Calm(w, p, act);
    w' := Apply(w, On(p, act));
  }

  lemma Waits(ok: World -> bool, w: World, p: string) returns (w': World, m: Machine, obs: int, at: Point)
    requires Closed(ok, p) && ok(w) && p in w.cells && w.cells[p].live.deletion.Some? && HasHook(w.cells[p].live)
    ensures ok(w') && Synced(w', p, m, obs, at) && (at.ObserveClock? || at.ReadCluster?) && SameLine(w.cells[p].live, m)
  {
    m := AtWait(w.cells[p].live);
    AtWaitGate(w.cells[p].live);
    w' := Crashes(ok, w, p);
    w' := Edited(ok, w', p, m);
    w' := ReadsLive(ok, w', p);
    obs, at := AtGate(m).obs, AtGate(m).at;
  }

  lemma ReachesCluster(ok: World -> bool, w: World, p: string) returns (w': World, m: Machine, obs: int)
    requires Closed(ok, p) && ok(w) && p in w.cells && w.cells[p].live.deletion.Some? && HasHook(w.cells[p].live)
    ensures ok(w') && Synced(w', p, m, obs, ReadCluster) && SameLine(w.cells[p].live, m)
  {
    var at;
    w', m, obs, at := Waits(ok, w, p);
    if at.ObserveClock? {
      w', m, obs := Observes(ok, w', p, m, obs);
    }
  }

  lemma Observes(ok: World -> bool, w: World, p: string, m: Machine, obs: int) returns (w': World, m': Machine, obs': int)
    requires Closed(ok, p) && ok(w) && Synced(w, p, m, obs, ObserveClock) && HasHook(m) && m.deletion.Some?
    ensures ok(w') && Synced(w', p, m', obs', ReadCluster) && SameLine(m, m')
  {
    w' := Answer(ok, w, p, m, obs, ObserveClock, Ok);
    obs' := w.now / NANOS;
    w' := Answer(ok, w', p, m, obs, StampObserved(obs'), Ok);
    m' := Patched(m, StampObserved(obs'));
  }

  // --------------------------------------------------- those with their phase behind them go

  /** A machine whose etcd phase is concluded can go on to its release. */
  lemma Leaves(ok: World -> bool, w: World, p: string) returns (w': World)
    requires Closed(ok, p) && ok(w) && p in w.cells && w.cells[p].live.deletion.Some? && HasHook(w.cells[p].live)
    requires !Unconcluded(w.cells[p].live)
    ensures ok(w') && p in w'.cells && !HasHook(w'.cells[p].live)
  {
    var m, obs;
    w', m, obs := ReachesCluster(ok, w, p);
    w' := Answer(ok, w', p, m, obs, ReadCluster, ClusterIs(false));
    if ResetConclusion !in m.annotations {
      w', m := Concludes(ok, w', p, m, obs);
    }
    w' := Answer(ok, w', p, m, obs, Release, Ok);
  }

  lemma Concludes(ok: World -> bool, w: World, p: string, m: Machine, obs: int) returns (w': World, m': Machine)
    requires Closed(ok, p) && ok(w) && Synced(w, p, m, obs, ResolveReset) && HasHook(m)
    ensures ok(w') && Synced(w', p, m', obs, Release)
  {
    w' := Answer(ok, w, p, m, obs, ResolveReset, NoAddress);
    w' := Answer(ok, w', p, m, obs, StampReset(SkippedNoAddress), Ok);
    m' := Patched(m, StampReset(SkippedNoAddress));
  }

  /** Those that still go before `j`. */
  ghost function Ahead(w: World, j: string): set<string>
    requires j in w.cells
  {
    set p | p in w.cells && Siblings(w.cells[j], w.cells[p]) && GoesBefore(w.cells[p].live, w.cells[j].live)
  }

  lemma OneLess(w: World, w': World, j: string, a: string, p: string)
    requires Overtakes(w, j, a) && p in Ahead(w, j) && Moved(w, w', p) && Always.Inv(w') && !HasHook(w'.cells[p].live)
    ensures Overtakes(w', j, a) && Ahead(w', j) < Ahead(w, j)
  {
    assert !Goes(w, p, j) && p != a;
    GoesOff(w, w', j, p);
    assert p !in Ahead(w', j);
  }

  lemma GoesOff(w: World, w': World, j: string, p: string)
    requires Always.Inv(w) && j in w.cells && p != j && Moved(w, w', p) && Always.Inv(w') && !HasHook(w'.cells[p].live)
    ensures Ahead(w', j) <= Ahead(w, j) - {p}
    ensures forall q :: Goes(w', q, j) ==> Goes(w, q, j)
  {
  }

  lemma {:induction false} Clears(w0: World, w: World, j: string, a: string, cluster: string) returns (w': World)
    requires CanGo(w0, w, cluster) && Overtakes(w, j, a) && w.cells[a].live.cluster == cluster
    ensures CanGo(w0, w', cluster) && Overtakes(w', j, a) && Ahead(w', j) == {} && w'.cells[a] == w.cells[a]
    decreases Ahead(w, j)
  {
    if Ahead(w, j) == {} {
      w' := w;
    } else {
      var p :| p in Ahead(w, j);
      assert !Goes(w, p, j);
      AtIsClosed(w0, w, p, cluster);
      w' := Leaves(v => At(w0, w, v, p, cluster), w, p);
      OneLess(w, w', j, a, p);
      w' := Clears(w0, w', j, a, cluster);
    }
  }

  // ------------------------------------------------------------------- taking the turn

  lemma StillOvertakes(w: World, w': World, j: string, a: string)
    requires Overtakes(w, j, a) && Ahead(w, j) == {} && Moved(w, w', j) && Always.Inv(w') && SameLine(w.cells[j].live, w'.cells[j].live)
    ensures Overtakes(w', j, a) && Ahead(w', j) == {}
  {
    forall p | p in w'.cells && Siblings(w'.cells[j], w'.cells[p]) ensures !GoesBefore(w'.cells[p].live, w'.cells[j].live) {
      assert p !in Ahead(w, j);
    }
  }

  lemma ToTurn(ok: World -> bool, w: World, p: string) returns (w': World, obs: int)
    requires Closed(ok, p) && ok(w) && p in w.cells && InLine(w.cells[p].live)
    ensures ok(w') && p in w'.cells && Synced(w', p, w'.cells[p].live, obs, ListTurn) && SameLine(w.cells[p].live, w'.cells[p].live)
  {
    var m;
    w', m, obs := ReachesCluster(ok, w, p);
    w' := Answer(ok, w', p, m, obs, ReadCluster, ClusterIs(false));
  }

  lemma ReachesTurn(w0: World, w: World, j: string, a: string, cluster: string) returns (w': World, obs: int)
    requires CanGo(w0, w, cluster) && Overtakes(w, j, a) && Ahead(w, j) == {}
    ensures CanGo(w0, w', cluster) && Overtakes(w', j, a) && Ahead(w', j) == {} && w'.cells[a] == w.cells[a]
    ensures Synced(w', j, w'.cells[j].live, obs, ListTurn)
  {
    AtIsClosed(w0, w, j, cluster);
    w', obs := ToTurn(v => At(w0, w, v, j, cluster), w, j);
    StillOvertakes(w, w', j, a);
  }

  /** Every machine, as it is now. */
  lemma Everyone(cells: map<string, Cell>) returns (picks: seq<(string, nat)>)
    ensures forall b | b in cells :: (b, |cells[b].past|) in picks
    ensures forall x | x in picks :: x.0 in cells && x.1 == |cells[x.0].past|
  {
    picks := [];
    var rest := cells.Keys;
    while rest != {}
      invariant rest <= cells.Keys
      invariant forall b | b in cells && b !in rest :: (b, |cells[b].past|) in picks
      invariant forall x | x in picks :: x.0 in cells && x.1 == |cells[x.0].past|
      decreases rest
    {
      var b :| b in rest;
      picks, rest := picks + [(b, |cells[b].past|)], rest - {b};
    }
  }

  lemma NotHeld(w: World, j: string, picks: seq<(string, nat)>)
    requires Always.Inv(w) && j in w.cells && Ahead(w, j) == {}
    requires forall x | x in picks && x.0 in w.cells :: x.1 >= |w.cells[x.0].past|
    ensures !Held(w.cells[j].live, Listing(w.cells, w.cells[j].live.cluster, picks))
  {
    var m := w.cells[j].live;
    forall p | p in Listing(w.cells, m.cluster, picks) ensures !GoesBefore(p, m) {
      ListedIsLive(w, m.cluster, picks, p);
      var b :| b in w.cells && p == w.cells[b].live && p.cluster == m.cluster && p.controlPlane;
      assert b !in Ahead(w, j);
    }
  }

  lemma TurnCell(w: World, j: string, obs: int, picks: seq<(string, nat)>)
    requires j in w.cells && Synced(w, j, w.cells[j].live, obs, ListTurn)
    requires !Held(w.cells[j].live, Listing(w.cells, w.cells[j].live.cluster, picks))
    ensures var c := StepCell(w.cfg, w.now, w.cells[j], HeardAct(w, w.cells[j], Reply(Picks(picks))));
            c.turn && c.live == w.cells[j].live
  {
  }

  lemma BothHold(w: World, j: string, a: string, obs: int, picks: seq<(string, nat)>)
    requires Overtakes(w, j, a) && Synced(w, j, w.cells[j].live, obs, ListTurn)
    requires !Held(w.cells[j].live, Listing(w.cells, w.cells[j].live.cluster, picks))
    ensures !AtMostOneHolder(Apply(w, On(j, Reply(Picks(picks)))), w.cells[a].live.cluster)
  {
    TurnCell(w, j, obs, picks);
    var w' := Apply(w, On(j, Reply(Picks(picks))));
    assert Holder(w'.cells[j]) && Holder(w'.cells[a]);
  }

  lemma TakesTurn(w0: World, w: World, j: string, a: string, obs: int, cluster: string) returns (w': World)
    requires CanGo(w0, w, cluster) && Overtakes(w, j, a) && Ahead(w, j) == {} && Synced(w, j, w.cells[j].live, obs, ListTurn)
    requires w.cells[a].live.cluster == cluster
    ensures CanGo(w0, w', cluster) && !AtMostOneHolder(w', cluster)
  {
    var picks := Everyone(w.cells);
    NotHeld(w, j, picks);
    BothHold(w, j, a, obs, picks);
    assert Calm(w, j, Reply(Picks(picks)));
    CalmIsOrderly(w, j, Reply(Picks(picks)), cluster);
    GoOn(w0, w, On(j, Reply(Picks(picks))), cluster);
    w' := Apply(w, On(j, Reply(Picks(picks))));
  }

  lemma TwoHolders(w: World, j: string, a: string, cluster: string) returns (ls: seq<Label>)
    requires Overtakes(w, j, a) && w.cells[a].live.cluster == cluster
    ensures Throughout(w, ls, OrderlyIn(cluster)) && !AtMostOneHolder(Run(w, ls), cluster)
  {
    assert Run(w, []) == w && Throughout(w, [], OrderlyIn(cluster));
    var w' := Clears(w, w, j, a, cluster);
    var obs;
    w', obs := ReachesTurn(w, w', j, a, cluster);
    w' := TakesTurn(w, w', j, a, obs, cluster);
    ls :| Throughout(w, ls, OrderlyIn(cluster)) && Run(w, ls) == w';
  }

  lemma DisorderBreaks(w: World, l: Label, cluster: string) returns (ls: seq<Label>)
    requires Always.Inv(w) && !Orderly(w, l, cluster)
    ensures Throughout(Apply(w, l), ls, OrderlyIn(cluster)) && !AtMostOneHolder(Run(Apply(w, l), ls), cluster)
  {
    var j, a;
    if !HoldsBack(w, l) {
      j := MissOvertakes(w, l);
      a := l.name;
    } else {
      j, a := JumpOvertakes(w, l);
    }
    ls := TwoHolders(Apply(w, l), j, a, cluster);
  }

  /** After any orderly run, a step keeps every orderly continuation to one holder if and only if it
      is orderly itself: it gives no machine with its etcd phase to do its turn while another is
      ahead, and puts none ahead of one whose turn it is. */
  lemma OrderIsExact(cfg: Config, before: seq<Label>, l: Label, cluster: string)
    requires Throughout(Start(cfg), before, OrderlyIn(cluster))
    ensures var w := Run(Start(cfg), before);
            Orderly(w, l, cluster)
            <==> forall ls | Throughout(Apply(w, l), ls, OrderlyIn(cluster)) :: AtMostOneHolder(Run(Apply(w, l), ls), cluster)
  {
    RunKeeps(Start(cfg), before, cluster);
    var w := Run(Start(cfg), before);
    if Orderly(w, l, cluster) {
      ApplyKeeps(w, l, cluster);
      forall ls | Throughout(Apply(w, l), ls, OrderlyIn(cluster)) ensures AtMostOneHolder(Run(Apply(w, l), ls), cluster) {
        RunKeeps(Apply(w, l), ls, cluster);
      }
    } else {
      var ls := DisorderBreaks(w, l, cluster);
    }
  }
}

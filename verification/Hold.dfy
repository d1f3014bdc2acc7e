/** The hold of `serializeControlPlane` (reconciler.go:294-310) has no deadline: why the liveness
    theorem wants every machine of the line at the gate. */
module Hold {
  import opened Wrappers
  import opened Machines
  import opened Protocol
  import opened Runs
  import PowerOff
  import Exclusion

  /** Calls a reconcile makes before it takes part in etcd. */
  predicate Early(at: Point) {
    PowerOff.BeforeGate(at) || at.ObserveClock? || at.StampObserved? || at.ReadCluster? || at.ListTurn?
  }

  /** `b` waits behind its sibling `a`, which is hooked. */
  ghost predicate Behind(w: World, a: string, b: string) {
    && a in w.cells && b in w.cells && a != b
    && Exclusion.Siblings(w.cells[b], w.cells[a]) && GoesBefore(w.cells[a].live, w.cells[b].live)
  }

  ghost predicate Stuck(c: Cell) {
    && c.live.controlPlane && c.live.deletion.Some? && HasHook(c.live) && EtcdConclusion !in c.live.annotations
    && (c.pc.Active? ==> Early(c.pc.at))
  }

  ghost predicate HeldInv(w: World, a: string, b: string) {
    PowerOff.Inv(w) && Behind(w, a, b) && Stuck(w.cells[b]) && w.cells[b].live.cluster !in w.collapsing
  }

  /** The lists `b` gets are current and complete, the cluster is not being deleted, and `a` keeps
      its hook. */
  ghost predicate Holds(w: World, l: Label, a: string, b: string) {
    && (l.On? && l.name == b ==> Exclusion.CompleteList(w, l))
    && (b in w.cells ==> l != Collapse(w.cells[b].live.cluster))
    && a in Apply(w, l).cells && HasHook(Apply(w, l).cells[a].live)
  }

  lemma HeldBack(w: World, a: string, b: string, answer: Answer)
    requires HeldInv(w, a, b) && w.cells[b].pc.Active? && w.cells[b].pc.at.ListTurn? && answer.Picks?
    requires Exclusion.CompleteList(w, On(b, Reply(answer)))
    ensures Held(w.cells[b].pc.m, Listing(w.cells, w.cells[b].pc.m.cluster, answer.picks))
  {
    var m := w.cells[b].pc.m;
    assert PowerOff.PointInv(m, ListTurn);
    var k :| (a, k) in answer.picks && k >= |w.cells[a].past|;
    Exclusion.Listed(w.cells, m.cluster, answer.picks, a, k);
    assert GoesBefore(w.cells[a].live, m);
  }

  lemma AdvanceStaysEarly(cfg: Config, now: nat, m: Machine, obs: int, at: Point, a: Answer)
    requires Early(at) && m.controlPlane && EtcdConclusion !in m.annotations
    requires at.ReadCluster? && a.ClusterIs? ==> !a.deleting
    requires at.ListTurn? && a.Machines? ==> Held(m, a.machines)
    ensures var pc := Advance(cfg, now, m, obs, at, a); pc.Active? ==> Early(pc.at)
  {
  }

  lemma EarlyPatch(live: Machine, m: Machine, at: Point)
    requires IsPatch(at) && Early(at) && HasHook(live) && EtcdConclusion !in live.annotations
    ensures var merged := Merge(live, PatchAt(m, at)); HasHook(merged) && EtcdConclusion !in merged.annotations
  {
  }

  lemma StuckReply(w: World, a: string, b: string, answer: Answer)
    requires HeldInv(w, a, b) && Holds(w, On(b, Reply(answer)), a, b) && w.cells[b].pc.Active?
    ensures Stuck(StepReply(w.cfg, w.now, w.cells[b], Heard(w, w.cells[b].pc.m, answer)))
  {
    var c := w.cells[b];
    if c.pc.at.ListTurn? && answer.Picks? {
      HeldBack(w, a, b, answer);
    }
    StuckAnswered(w.cfg, w.now, c, Heard(w, c.pc.m, answer));
  }

  lemma StuckAnswered(cfg: Config, now: nat, c: Cell, a: Answer)
    requires Stuck(c) && c.pc.Active? && c.pc.m.controlPlane && EtcdConclusion !in c.pc.m.annotations
    requires c.pc.at.ReadCluster? && a.ClusterIs? ==> !a.deleting
    requires c.pc.at.ListTurn? && a.Machines? ==> Held(c.pc.m, a.machines)
    ensures Stuck(StepReply(cfg, now, c, a))
  {
    AdvanceStaysEarly(cfg, now, c.pc.m, c.pc.obs, c.pc.at, a);
    if IsPatch(c.pc.at) {
      EarlyPatch(c.live, c.pc.m, c.pc.at);
    }
  }

  lemma StuckAct(cfg: Config, now: nat, c: Cell, act: Act)
    requires Stuck(c) && !(act.Reply? && c.pc.Active?)
    ensures Stuck(StepCell(cfg, now, c, act))
  {
    if act.Read? {
      DecideEarly(Version(c, act.k));
    }
  }

  lemma DecideEarly(m: Machine)
    ensures Decide(m).Active? ==> Early(Decide(m).at)
  {
  }

  lemma StuckStep(w: World, l: Label, a: string, b: string)
    requires HeldInv(w, a, b) && Holds(w, l, a, b) && l.On? && l.name == b
    ensures Stuck(Apply(w, l).cells[b])
  {
    if l.act.Reply? && w.cells[b].pc.Active? {
      StuckReply(w, a, b, l.act.answer);
    } else {
      StuckAct(w.cfg, w.now, w.cells[b], l.act);
    }
  }

  lemma HeldStep(w: World, l: Label, a: string, b: string)
    requires HeldInv(w, a, b) && Holds(w, l, a, b)
    ensures HeldInv(Apply(w, l), a, b)
  {
    PowerOff.ApplyInv(w, l);
    if l.On? && l.name in w.cells {
      var c := w.cells[l.name];
      Exclusion.PlaceInLine(w.cfg, w.now, c, HeardAct(w, c, l.act));
      if l.name == b {
        StuckStep(w, l, a, b);
      }
    }
  }

  /** As long as an older sibling keeps its hook, a control-plane machine behind it that has not
      reached its etcd phase is never released, however far past its deadlines it is and whatever
      versions are read. */
  lemma NoDeadlineOnHold(cfg: Config, before: seq<Label>, ls: seq<Label>, a: string, b: string)
    requires var w := Run(Start(cfg), before);
             && Behind(w, a, b) && Stuck(w.cells[b]) && w.cells[b].live.cluster !in w.collapsing
             && Throughout(w, ls, (v, l) => Holds(v, l, a, b))
    ensures var w := Run(Run(Start(cfg), before), ls);
            && b in w.cells && HasHook(w.cells[b].live) && !GateOpen(w.cells[b].live)
            && EtcdConclusion !in w.cells[b].live.annotations
  {
    PowerOff.RunInv(cfg, before);
    var w := Run(Start(cfg), before);
    forall v, l | HeldInv(v, a, b) && Holds(v, l, a, b) ensures HeldInv(Apply(v, l), a, b) {
      HeldStep(v, l, a, b);
    }
    KeptThroughout(Apply, w, ls, (v, l) => Holds(v, l, a, b), v => HeldInv(v, a, b));
  }

  function Sibling(n: string): Machine {
    Machine(n, "c", true, TalosConfig, BootstrapGroup, TinkerbellMachine, InfrastructureGroup, n, 0, None,
            map[Hook := Owner], [], "", [])
  }

  lemma TwoSiblings(cfg: Config, a: string, b: string) returns (ls: seq<Label>)
    requires a != b
    ensures var w := Run(Start(cfg), ls);
            w.cells == map[a := NewCell(Sibling(a)), b := NewCell(Sibling(b))] && w.collapsing == {}
  {
    BothCreated(cfg, a, b);
    ls := [Create(Sibling(a))] + [] + [Create(Sibling(b))];
    FoldAround(Apply, Start(cfg), Create(Sibling(a)), [], Create(Sibling(b)));
    assert Fold(Apply, Apply(Start(cfg), Create(Sibling(a))), []) == Apply(Start(cfg), Create(Sibling(a)));
  }

  lemma BothCreated(cfg: Config, a: string, b: string)
    requires a != b
    ensures var w := Apply(Apply(Start(cfg), Create(Sibling(a))), Create(Sibling(b)));
            w.cells == map[a := NewCell(Sibling(a)), b := NewCell(Sibling(b))] && w.collapsing == {}
  {
  }

  lemma DeletedCell(n: string, t: int, cfg: Config, now: nat)
    ensures var c := StepCell(cfg, now, NewCell(Sibling(n)), Delete(t));
            && c.live == Sibling(n).(deletion := Some(t)) && c.pc.Idle?
  {
  }

  /** For any two names, such a hold is reachable: two siblings, deleted one after the other. */
  lemma SomeoneIsHeld(cfg: Config, a: string, b: string) returns (ls: seq<Label>)
    requires a != b
    ensures var w := Run(Start(cfg), ls); Behind(w, a, b) && Stuck(w.cells[b]) && w.cells[b].live.cluster !in w.collapsing
  {
    ls := TwoSiblings(cfg, a, b);
    var l1, l2 := On(a, Delete(1)), On(b, Delete(2));
    DeletesInTurn(Run(Start(cfg), ls), a, b);
    Extended(Apply, Start(cfg), ls, (v, m) => true, l1);
    Extended(Apply, Start(cfg), ls + [l1], (v, m) => true, l2);
    ls := ls + [l1] + [l2];
  }

  lemma DeletesInTurn(w: World, a: string, b: string)
    requires a != b && w.cells == map[a := NewCell(Sibling(a)), b := NewCell(Sibling(b))] && w.collapsing == {}
    ensures var w' := Apply(Apply(w, On(a, Delete(1))), On(b, Delete(2)));
            Behind(w', a, b) && Stuck(w'.cells[b]) && w'.cells[b].live.cluster !in w'.collapsing
  {
    DeletedCell(a, 1, w.cfg, w.now);
    DeletedCell(b, 2, w.cfg, w.now);
  }
}

/** When reads show the annotations this controller owns as they are, a running reconcile's copy
    agrees with the object on them all along.  Everything that needs such reads rests on this. */
module Agreement {
  import opened Wrappers
  import opened Machines
  import opened Protocol
  import opened Runs
  import PowerOff

  /** The version the reconcile reads carries the owned annotations as the object does; it may be
      stale in everything else. */
  ghost predicate FreshRead(c: Cell, act: Act) {
    act.Read? ==> SameOwned(c.live.annotations, Version(c, act.k).annotations)
  }

  ghost predicate Agrees(live: Machine, m: Machine) {
    && m.name == live.name && m.cluster == live.cluster && m.controlPlane == live.controlPlane
    && (m.deletion.Some? ==> live.deletion == m.deletion)
    && SameOwned(live.annotations, m.annotations)
  }

  predicate InEtcdPhase(at: Point) {
    || at.ListTurn? || at.EtcdConfig? || at.ListPeers? || at.Probe? || at.DialVictim? || at.Forfeit?
    || at.Leave? || at.Remove? || at.EtcdDeadline? || at.StampEtcd?
  }

  /** What a reconcile's copy says about hook and conclusions at each call. */
  ghost predicate PhaseInv(m: Machine, obs: int, at: Point) {
    && (at.StampHook? ==> !HasHook(m) && ResetConclusion !in m.annotations)
    && (!at.StampHook? ==> HasHook(m))
    && (InEtcdPhase(at) ==> EtcdConclusion !in m.annotations)
    && (InEtcdPhase(at) && !at.StampEtcd? ==> m.controlPlane)
    && (PowerOff.InResetPhase(at) && !at.Release? ==> ResetConclusion !in m.annotations)
    && ((at.ReadCluster? || InEtcdPhase(at) || PowerOff.InResetPhase(at)) ==>
          ObservedAt in m.annotations && m.annotations[ObservedAt] == Timestamp(obs))
    && (at.ObserveClock? || at.StampObserved? ==>
          !(ObservedAt in m.annotations && m.annotations[ObservedAt].Timestamp?))
  }

  /** What an object in the model carries, apart from the reconcile working on it. */
  ghost predicate LiveInv(live: Machine, turn: bool) {
    && (EtcdConclusion in live.annotations ==> live.deletion.Some? && (HasHook(live) || ResetConclusion in live.annotations))
    && (ResetConclusion in live.annotations ==> live.deletion.Some?)
    && (turn ==> live.deletion.Some? && live.controlPlane && (HasHook(live) || EtcdConclusion in live.annotations))
  }

  ghost predicate CellInv(c: Cell) {
    && PowerOff.CellInv(c)
    && LiveInv(c.live, c.turn)
    && (forall v | v in c.past && ResetConclusion in v.annotations :: v.deletion.Some?)
    && (c.pc.Active? ==> Agrees(c.live, c.pc.m) && PhaseInv(c.pc.m, c.pc.obs, c.pc.at))
  }

  lemma DecideInv(m: Machine)
    requires ResetConclusion in m.annotations ==> m.deletion.Some?
    ensures var pc := Decide(m); pc.Active? ==> pc.m == m && PhaseInv(m, pc.obs, pc.at)
  {
  }

  lemma AdvanceCallInv(cfg: Config, now: nat, m: Machine, obs: int, at: Point, a: Answer)
    requires PowerOff.PointInv(m, at) && PhaseInv(m, obs, at) && !IsPatch(at)
    ensures var pc := Advance(cfg, now, m, obs, at, a); pc.Active? ==> PhaseInv(m, pc.obs, pc.at)
  {
  }

  lemma AdvancePatchInv(cfg: Config, now: nat, m: Machine, obs: int, at: Point, a: Answer)
    requires PowerOff.PointInv(m, at) && PhaseInv(m, obs, at) && IsPatch(at)
    ensures var pc := Advance(cfg, now, m, obs, at, a);
            pc.Active? ==> PhaseInv(Patched(m, at), pc.obs, pc.at)
  {
  }

  lemma MergeAgrees(live: Machine, m: Machine, p: Patch)
    requires Agrees(live, m)
    ensures Agrees(Merge(live, p), Merge(m, p))
  {
  }

  lemma PatchLive(c: Cell)
    requires CellInv(c) && c.pc.Active? && IsPatch(c.pc.at)
    ensures LiveInv(Merge(c.live, PatchAt(c.pc.m, c.pc.at)), c.turn)
  {
  }

  lemma ReplyInv(cfg: Config, now: nat, c: Cell, a: Answer)
    requires CellInv(c) && c.pc.Active?
    ensures CellInv(StepReply(cfg, now, c, a))
  {
    PowerOff.ReplyInv(cfg, now, c, a);
    PowerOff.AdvanceInv(cfg, now, c.pc.m, c.pc.obs, c.pc.at, a);
    if IsPatch(c.pc.at) {
      PatchLive(c);
      AdvancePatchInv(cfg, now, c.pc.m, c.pc.obs, c.pc.at, a);
      MergeAgrees(c.live, c.pc.m, PatchAt(c.pc.m, c.pc.at));
    } else {
      AdvanceCallInv(cfg, now, c.pc.m, c.pc.obs, c.pc.at, a);
    }
  }

  lemma EditInv(c: Cell, m: Machine)
    requires CellInv(c) && ForeignEdit(c.live, m, c.passed)
    ensures PowerOff.CellInv(Write(c, m)) ==> CellInv(Write(c, m))
  {
  }

  lemma VersionAgrees(c: Cell, k: nat)
    requires CellInv(c) && FreshRead(c, Read(k))
    ensures Agrees(c.live, Version(c, k))
    ensures ResetConclusion in Version(c, k).annotations ==> Version(c, k).deletion.Some?
  {
    if k < |c.past| {
      assert c.past[k] in c.past;
    }
  }

  lemma StepInv(cfg: Config, now: nat, c: Cell, act: Act)
    requires CellInv(c) && FreshRead(c, act)
    ensures CellInv(StepCell(cfg, now, c, act))
  {
    PowerOff.StepInv(cfg, now, c, act);
    match act
    case Read(k) => VersionAgrees(c, k); DecideInv(Version(c, k));
    case Reply(a) => if c.pc.Active? { ReplyInv(cfg, now, c, a); }
    case Crash =>
    case Edit(m) => if ForeignEdit(c.live, m, c.passed) { EditInv(c, m); }
    case Delete(t) =>
    case Pass =>
  }

  ghost predicate Inv(w: World) {
    forall n | n in w.cells :: CellInv(w.cells[n]) && w.cells[n].live.name == n
  }

  ghost predicate FreshReads(w: World, l: Label) {
    l.On? && l.name in w.cells ==> FreshRead(w.cells[l.name], l.act)
  }

  lemma ApplyInv(w: World, l: Label)
    requires Inv(w) && FreshReads(w, l)
    ensures Inv(Apply(w, l))
  {
    if l.On? && l.name in w.cells {
      var c := w.cells[l.name];
      StepInv(w.cfg, w.now, c, HeardAct(w, c, l.act));
      PowerOff.StepName(w.cfg, w.now, c, HeardAct(w, c, l.act));
    }
  }

  lemma RunInv(cfg: Config, ls: seq<Label>)
    requires Throughout(Start(cfg), ls, FreshReads)
    ensures Inv(Run(Start(cfg), ls))
  {
    forall w, l | Inv(w) && FreshReads(w, l) ensures Inv(Apply(w, l)) {
      ApplyInv(w, l);
    }
    KeptThroughout(Apply, Start(cfg), ls, FreshReads, Inv);
  }
}

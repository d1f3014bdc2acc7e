/** What every run keeps of a machine, whatever versions the reconciles read. */
module Always {
  import opened Wrappers
  import opened Machines
  import opened Protocol
  import opened Runs
  import PowerOff

  /** The machine is still in line, or its etcd phase is concluded. */
  ghost predicate Answered(m: Machine) {
    HasHook(m) || EtcdConclusion in m.annotations
  }

  /** A conclusion is only ever drawn of a machine that is being deleted. */
  ghost predicate ConcludedIsDeleting(m: Machine) {
    EtcdConclusion in m.annotations || ResetConclusion in m.annotations ==> m.deletion.Some?
  }

  /** A control-plane machine seen with the hook keeps it until its etcd phase is concluded. */
  ghost predicate HookStays(live: Machine, m: Machine) {
    live.controlPlane && HasHook(m) ==> Answered(live)
  }

  ghost predicate RunningInv(live: Machine, pc: Pc) {
    pc.Active? ==> (!pc.at.StampHook? ==> HasHook(pc.m)) && HookStays(live, pc.m)
  }

  ghost predicate TurnInv(live: Machine, turn: bool) {
    turn ==> live.controlPlane && live.deletion.Some? && Answered(live)
  }

  ghost predicate CellInv(c: Cell) {
    && PowerOff.CellInv(c)
    && ConcludedIsDeleting(c.live)
    && (forall v | v in c.past :: ConcludedIsDeleting(v) && HookStays(c.live, v))
    && RunningInv(c.live, c.pc)
    && TurnInv(c.live, c.turn)
  }

  lemma DecideHooked(m: Machine)
    ensures Decide(m).Active? ==> Decide(m).m == m && (!Decide(m).at.StampHook? ==> HasHook(m))
  {
  }

  lemma AdvanceHooked(cfg: Config, now: nat, m: Machine, obs: int, at: Point, a: Answer)
    requires !at.StampHook? ==> HasHook(m)
    ensures var pc := Advance(cfg, now, m, obs, at, a);
            pc.Active? ==> && !pc.at.StampHook? && HasHook(pc.m)
                           && (at.StampHook? ==> a.Ok?)
  {
  }

  /** A patch takes the hook off a control-plane machine only once its etcd phase is concluded. */
  lemma PatchKeeps(c: Cell)
    requires CellInv(c) && c.pc.Active? && IsPatch(c.pc.at)
    ensures var live := Merge(c.live, PatchAt(c.pc.m, c.pc.at));
            && ConcludedIsDeleting(live) && (c.live.controlPlane && Answered(c.live) ==> Answered(live))
            && (c.pc.at.StampHook? ==> HasHook(live))
            && live == c.live.(annotations := live.annotations)
  {
  }

  lemma ReplyInv(cfg: Config, now: nat, c: Cell, a: Answer)
    requires CellInv(c) && c.pc.Active?
    ensures CellInv(StepReply(cfg, now, c, a))
  {
    var c' := StepReply(cfg, now, c, a);
    PowerOff.ReplyInv(cfg, now, c, a);
    AdvanceHooked(cfg, now, c.pc.m, c.pc.obs, c.pc.at, a);
    if IsPatch(c.pc.at) {
      PatchKeeps(c);
    }
    LiveMoves(c, c');
    assert RunningInv(c'.live, c'.pc);
  }

  /** The history of an object after a step of its own reconcile. */
  lemma LiveMoves(c: Cell, c': Cell)
    requires CellInv(c) && (c'.past == c.past || c'.past == c.past + [c.live])
    requires c'.live.controlPlane == c.live.controlPlane && (c.live.controlPlane && Answered(c.live) ==> Answered(c'.live))
    ensures forall v | v in c'.past :: ConcludedIsDeleting(v) && HookStays(c'.live, v)
  {
    forall v | v in c'.past ensures ConcludedIsDeleting(v) && HookStays(c'.live, v) {
      assert v in c.past || v == c.live;
    }
  }

  lemma AsideInv(cfg: Config, now: nat, c: Cell, act: Act)
    requires CellInv(c) && !(act.Reply? && c.pc.Active?) && !(act.Read? && c.pc.Idle?)
    ensures CellInv(StepCell(cfg, now, c, act))
  {
    PowerOff.StepInv(cfg, now, c, act);
    LiveMoves(c, StepCell(cfg, now, c, act));
  }

  lemma ReadInv(cfg: Config, now: nat, c: Cell, k: nat)
    requires CellInv(c) && c.pc.Idle?
    ensures CellInv(StepCell(cfg, now, c, Read(k)))
  {
    PowerOff.StepInv(cfg, now, c, Read(k));
    DecideHooked(Version(c, k));
    assert k < |c.past| ==> Version(c, k) in c.past;
  }

  lemma StepInv(cfg: Config, now: nat, c: Cell, act: Act)
    requires CellInv(c)
    ensures CellInv(StepCell(cfg, now, c, act))
  {
    if act.Reply? && c.pc.Active? {
      ReplyInv(cfg, now, c, act.answer);
    } else if act.Read? && c.pc.Idle? {
      ReadInv(cfg, now, c, act.k);
    } else {
      AsideInv(cfg, now, c, act);
    }
  }

  ghost predicate Inv(w: World) {
    forall n | n in w.cells :: CellInv(w.cells[n]) && w.cells[n].live.name == n
  }

  lemma ApplyInv(w: World, l: Label)
    requires Inv(w)
    ensures Inv(Apply(w, l))
  {
    if l.On? && l.name in w.cells {
      var c := w.cells[l.name];
      StepInv(w.cfg, w.now, c, HeardAct(w, c, l.act));
      PowerOff.StepName(w.cfg, w.now, c, HeardAct(w, c, l.act));
    }
  }

  lemma RunInv(cfg: Config, ls: seq<Label>)
    ensures Inv(Run(Start(cfg), ls))
  {
    forall w, l | Inv(w) ensures Inv(Apply(w, l)) {
      ApplyInv(w, l);
    }
    KeptThroughout(Apply, Start(cfg), ls, (w, l) => true, Inv);
  }
}

/** Teardown before power-off, under arbitrarily stale reads. */
module PowerOff {
  import opened Wrappers
  import opened Machines
  import opened Protocol
  import opened Runs

  /** `live` is a later version of the object `m` is a version (or a patched copy) of. */
  ghost predicate Descends(live: Machine, m: Machine) {
    && m.name == live.name && m.cluster == live.cluster && m.controlPlane == live.controlPlane
    && (m.deletion.Some? ==> live.deletion == m.deletion)
    && (EtcdConclusion in m.annotations ==> EtcdConclusion in live.annotations)
    && (ResetConclusion in m.annotations ==> ResetConclusion in live.annotations)
  }

  predicate BeforeGate(at: Point) {
    at.StampHook? || at.RefreshCreds?
  }

  predicate InResetPhase(at: Point) {
    at.ResolveReset? || at.DialReset? || at.CallReset? || at.ResetDeadline? || at.StampReset? || at.Release?
  }

  /** What a reconcile knows about its own copy by the time it makes a call. */
  ghost predicate PointInv(m: Machine, at: Point) {
    && (!BeforeGate(at) ==> m.deletion.Some?)
    && (InResetPhase(at) && m.controlPlane ==> EtcdConclusion in m.annotations)
    && (at.Release? ==> ResetConclusion in m.annotations)
    && ((at.ListTurn? || at.EtcdConfig? || at.ListPeers? || at.Probe?) ==> m.controlPlane)
  }

  /** Some version carried the etcd conclusion and not yet the reset conclusion. */
  ghost predicate EtcdCameFirst(c: Cell) {
    exists v :: v in c.past && EtcdConclusion in v.annotations && ResetConclusion !in v.annotations
  }

  ghost predicate CellInv(c: Cell) {
    && (forall v | v in c.past :: Descends(c.live, v))
    && (c.live.controlPlane && ResetConclusion in c.live.annotations ==> EtcdCameFirst(c) && EtcdConclusion in c.live.annotations)
    && (c.armed ==> c.live.deletion.Some? && (HasHook(c.live) || ResetConclusion in c.live.annotations))
    && (c.passed ==> c.live.deletion.Some?)
    && (c.armed && c.passed ==> ResetConclusion in c.live.annotations)
    && (c.pc.Active? ==> Descends(c.live, c.pc.m) && PointInv(c.pc.m, c.pc.at))
  }

  lemma DecideInv(m: Machine)
    ensures Decide(m).Active? ==> Decide(m).m == m && PointInv(m, Decide(m).at)
  {
  }

  /** The reconcile's own copy follows the object through every call. */
  lemma AdvanceInv(cfg: Config, now: nat, m: Machine, obs: int, at: Point, a: Answer)
    requires PointInv(m, at)
    ensures var pc := Advance(cfg, now, m, obs, at, a);
            pc.Active? ==>
              && PointInv(pc.m, pc.at)
              && (if IsPatch(at) then a.Ok? && pc.m == Patched(m, at) else pc.m == m)
  {
    if IsPatch(at) {
      AdvancePatch(cfg, now, m, obs, at, a);
    } else {
      AdvanceCall(cfg, now, m, obs, at, a);
    }
  }

  lemma AdvancePatch(cfg: Config, now: nat, m: Machine, obs: int, at: Point, a: Answer)
    requires PointInv(m, at) && IsPatch(at)
    ensures var pc := Advance(cfg, now, m, obs, at, a); pc.Active? ==> PointInv(pc.m, pc.at) && a.Ok? && pc.m == Patched(m, at)
  {
  }

  lemma AdvanceCall(cfg: Config, now: nat, m: Machine, obs: int, at: Point, a: Answer)
    requires PointInv(m, at) && !IsPatch(at)
    ensures var pc := Advance(cfg, now, m, obs, at, a); pc.Active? ==> PointInv(pc.m, pc.at) && pc.m == m
  {
  }

  lemma WriteInv(c: Cell, m: Machine)
    requires CellInv(c)
    requires Descends(m, c.live)
    requires c.passed ==> m.deletion.Some?
    requires c.armed ==> m.deletion.Some? && (HasHook(m) || ResetConclusion in m.annotations)
    requires m.controlPlane && ResetConclusion in m.annotations ==> EtcdConclusion in c.live.annotations
    ensures CellInv(Write(c, m))
  {
    var c' := Write(c, m);
    forall v | v in c'.past ensures Descends(m, v) {
      assert v in c.past || v == c.live;
    }
    if m.controlPlane && ResetConclusion in m.annotations {
      if ResetConclusion in c.live.annotations {
        var v :| v in c.past && EtcdConclusion in v.annotations && ResetConclusion !in v.annotations;
        assert v in c'.past;
      } else {
        assert c.live in c'.past;
      }
    }
  }

  lemma PatchInv(c: Cell)
    requires CellInv(c) && c.pc.Active? && IsPatch(c.pc.at)
    ensures var m := Merge(c.live, PatchAt(c.pc.m, c.pc.at));
            CellInv(Write(c, m)) && Descends(m, Patched(c.pc.m, c.pc.at))
  {
    WriteInv(c, Merge(c.live, PatchAt(c.pc.m, c.pc.at)));
  }

  lemma MovesOn(c: Cell, pc: Pc, turn: bool, trace: seq<Entry>)
    requires CellInv(c) && (pc.Active? ==> Descends(c.live, pc.m) && PointInv(pc.m, pc.at))
    ensures CellInv(c.(pc := pc, turn := turn, trace := trace))
  {
    SameButBookkeeping(c, c.(pc := pc, turn := turn, trace := trace));
  }

  lemma ReplyInv(cfg: Config, now: nat, c: Cell, a: Answer)
    requires CellInv(c) && c.pc.Active?
    ensures CellInv(StepReply(cfg, now, c, a))
  {
    var m, at, after := c.pc.m, c.pc.at, StepReply(cfg, now, c, a);
    AdvanceInv(cfg, now, m, c.pc.obs, at, a);
    if IsPatch(at) && Effective(a) {
      PatchInv(c);
      MovesOn(Write(c, Merge(c.live, PatchAt(m, at))), after.pc, after.turn, after.trace);
    } else {
      MovesOn(c, after.pc, after.turn, after.trace);
    }
  }

  lemma SameButBookkeeping(c: Cell, c': Cell)
    ensures c.past == c'.past ==> EtcdCameFirst(c) == EtcdCameFirst(c')
  {
  }

  lemma StepInv(cfg: Config, now: nat, c: Cell, act: Act)
    requires CellInv(c)
    ensures CellInv(StepCell(cfg, now, c, act))
  {
    match act
    case Read(k) => DecideInv(Version(c, k)); SameButBookkeeping(c, StepCell(cfg, now, c, act));
    case Reply(a) => if c.pc.Active? { ReplyInv(cfg, now, c, a); }
    case Crash => SameButBookkeeping(c, StepCell(cfg, now, c, act));
    case Edit(m) => if ForeignEdit(c.live, m, c.passed) { WriteInv(c, m); }
    case Delete(t) =>
      if c.live.deletion.None? {
        var m := c.live.(deletion := Some(t));
        WriteInv(c, m);
        SameButBookkeeping(Write(c, m), StepCell(cfg, now, c, act));
      }
    case Pass => SameButBookkeeping(c, StepCell(cfg, now, c, act));
  }

  ghost predicate Inv(w: World) {
    forall n | n in w.cells :: CellInv(w.cells[n]) && w.cells[n].live.name == n
  }

  lemma StepName(cfg: Config, now: nat, c: Cell, act: Act)
    ensures StepCell(cfg, now, c, act).live.name == c.live.name
  {
  }

  lemma ApplyInv(w: World, l: Label)
    requires Inv(w)
    ensures Inv(Apply(w, l))
  {
    if l.On? && l.name in w.cells {
      var c := w.cells[l.name];
      StepInv(w.cfg, w.now, c, HeardAct(w, c, l.act));
      StepName(w.cfg, w.now, c, HeardAct(w, c, l.act));
    }
  }

  lemma RunInv(cfg: Config, ls: seq<Label>)
    ensures Inv(Run(Start(cfg), ls))
  {
    forall w, l | Inv(w) ensures Inv(Apply(w, l)) {
      ApplyInv(w, l);
    }
    KeptThroughout(Apply, Start(cfg), ls, (w, l) => true, Inv);
  }

  /** In every run -- whatever versions the reconciles read, whichever calls fail, succeed or do
      both, wherever they crash -- a machine that was hooked when its deletion began passes the
      machine controller's gate only with a reset conclusion persisted; if it is a control-plane
      machine, an earlier version already carried the etcd conclusion, without the reset one. */
  lemma TeardownBeforePowerOff(cfg: Config, ls: seq<Label>, n: string)
    requires var w := Run(Start(cfg), ls); n in w.cells && w.cells[n].armed && w.cells[n].passed
    ensures var c := Run(Start(cfg), ls).cells[n];
            && ResetConclusion in c.live.annotations
            && (c.live.controlPlane ==>
                 && EtcdConclusion in c.live.annotations
                 && exists v :: v in c.past && EtcdConclusion in v.annotations && ResetConclusion !in v.annotations)
  {
    RunInv(cfg, ls);
  }
}

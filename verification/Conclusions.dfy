/** How lasting a persisted conclusion is (internal/teardown/reconciler.go:249-289, 526-556): it
    stays under any reads, and it keeps its value exactly as long as no reconcile gets to the gate
    with a version that lacks it. */
module Conclusions {
  import opened Wrappers
  import opened Machines
  import opened Protocol
  import opened Runs
  import Agreement
  import PowerOff
  import History

  predicate IsConclusion(k: Key) {
    k.EtcdConclusion? || k.ResetConclusion?
  }

  ghost predicate Concluded(w: World, n: string, k: Key) {
    n in w.cells && k in w.cells[n].live.annotations
  }

  lemma PatchKeepsConclusion(live: Machine, m: Machine, at: Point, k: Key)
    requires IsPatch(at) && IsConclusion(k) && k in live.annotations
    ensures k in Merge(live, PatchAt(m, at)).annotations
  {
  }

  lemma CellKeepsConclusion(cfg: Config, now: nat, c: Cell, act: Act, k: Key)
    requires IsConclusion(k) && k in c.live.annotations
    ensures k in StepCell(cfg, now, c, act).live.annotations
  {
    if c.pc.Active? && IsPatch(c.pc.at) {
      PatchKeepsConclusion(c.live, c.pc.m, c.pc.at, k);
    }
  }

  lemma PresenceStep(w: World, l: Label, n: string, k: Key)
    requires IsConclusion(k) && Concluded(w, n, k)
    ensures Concluded(Apply(w, l), n, k)
  {
    if l.On? && l.name == n {
      CellKeepsConclusion(w.cfg, w.now, w.cells[n], HeardAct(w, w.cells[n], l.act), k);
    }
  }

  /** Once persisted, a conclusion stays on the object in every continuation, from any state and
      whatever versions the reconciles read. */
  lemma PresenceIsFinal(w: World, ls: seq<Label>, n: string, k: Key)
    requires IsConclusion(k) && Concluded(w, n, k)
    ensures Concluded(Run(w, ls), n, k)
  {
    forall v, l | Concluded(v, n, k) ensures Concluded(Apply(v, l), n, k) {
      PresenceStep(v, l, n, k);
    }
    KeptThroughout(Apply, w, ls, (v, l) => true, v => Concluded(v, n, k));
  }

  ghost predicate Says(w: World, n: string, k: Key, value: Value) {
    Concluded(w, n, k) && w.cells[n].live.annotations[k] == value
  }

  // ------------------------------------------------------- versions that are harmless to read

  /** The machine waits at the gate, and for this controller alone. */
  ghost predicate AtOpenWait(m: Machine) {
    m.deletion.Some? && AtPreTerminate(m) && !HasOtherPreTerminateHooks(m)
  }

  /** A reconcile that reads this version gets past the gate. */
  ghost predicate GetsToGate(m: Machine) {
    && (Qualifies(m) || HasHook(m)) && AtOpenWait(m)
    && (HasHook(m) || ResetConclusion !in m.annotations)
  }

  /** A reconcile that reads this version can conclude the phase anew.  Of a worker's etcd phase
      there is only one conclusion. */
  ghost predicate Redoes(m: Machine, k: Key) {
    GetsToGate(m) && k !in m.annotations && (k.EtcdConclusion? ==> m.controlPlane)
  }

  /** The call is not one of the phase that `k` concludes. */
  predicate PastPhase(at: Point, k: Key) {
    && (k.EtcdConclusion? ==> !Agreement.InEtcdPhase(at))
    && (k.ResetConclusion? ==> !PowerOff.InResetPhase(at) || at.Release?)
  }

  /** A reconcile that will not conclude the phase anew, or only as a worker does. */
  ghost predicate Harmless(pc: Pc, k: Key) {
    pc.Active? ==>
      || (k in pc.m.annotations && PastPhase(pc.at, k))
      || (PowerOff.BeforeGate(pc.at) && !AtOpenWait(pc.m))
      || (k.EtcdConclusion? && !pc.m.controlPlane)
  }

  lemma DecideHarmless(m: Machine, k: Key)
    requires IsConclusion(k) && !Redoes(m, k)
    ensures Harmless(Decide(m), k)
  {
  }

  lemma PatchedWait(m: Machine, at: Point)
    requires IsPatch(at)
    ensures AtOpenWait(Patched(m, at)) == AtOpenWait(m)
  {
    History.PatchKeepsForeign(m, at);
    History.SameOther(m, Patched(m, at));
  }

  lemma AdvanceHarmless(cfg: Config, now: nat, m: Machine, obs: int, at: Point, a: Answer, k: Key)
    requires IsConclusion(k) && Harmless(Active(m, obs, at), k)
    ensures Harmless(Advance(cfg, now, m, obs, at, a), k)
  {
    if IsPatch(at) {
      AdvancePatchHarmless(cfg, now, m, obs, at, a, k);
    }
  }

  lemma AdvancePatchHarmless(cfg: Config, now: nat, m: Machine, obs: int, at: Point, a: Answer, k: Key)
    requires IsConclusion(k) && Harmless(Active(m, obs, at), k) && IsPatch(at)
    ensures Harmless(Advance(cfg, now, m, obs, at, a), k)
  {
    PatchedWait(m, at);
  }

  /** The stamp that concludes the phase leaves a copy that carries the conclusion. */
  lemma StampHarmless(cfg: Config, now: nat, m: Machine, obs: int, at: Point, a: Answer, k: Key)
    requires (at.StampEtcd? && k.EtcdConclusion?) || (at.StampReset? && k.ResetConclusion?)
    ensures Harmless(Advance(cfg, now, m, obs, at, a), k)
  {
  }

  // ------------------------------------------------------------------ workers and etcd

  ghost predicate WorkerPoint(m: Machine, at: Point) {
    !m.controlPlane && Agreement.InEtcdPhase(at) ==> at == StampEtcd(SkippedClusterDelete)
  }

  ghost predicate WorkerInv(c: Cell) {
    && PowerOff.CellInv(c)
    && (!c.live.controlPlane && EtcdConclusion in c.live.annotations ==>
          c.live.annotations[EtcdConclusion] == Etcd(SkippedClusterDelete))
    && (c.pc.Active? ==> WorkerPoint(c.pc.m, c.pc.at))
  }

  lemma AdvanceWorker(cfg: Config, now: nat, m: Machine, obs: int, at: Point, a: Answer)
    requires WorkerPoint(m, at)
    ensures var pc := Advance(cfg, now, m, obs, at, a); pc.Active? ==> WorkerPoint(pc.m, pc.at)
  {
  }

  lemma WorkerReply(cfg: Config, now: nat, c: Cell, a: Answer)
    requires WorkerInv(c) && c.pc.Active?
    ensures WorkerInv(StepReply(cfg, now, c, a))
  {
    PowerOff.ReplyInv(cfg, now, c, a);
    AdvanceWorker(cfg, now, c.pc.m, c.pc.obs, c.pc.at, a);
  }

  lemma WorkerStep(cfg: Config, now: nat, c: Cell, act: Act)
    requires WorkerInv(c)
    ensures WorkerInv(StepCell(cfg, now, c, act))
  {
    PowerOff.StepInv(cfg, now, c, act);
    if act.Reply? && c.pc.Active? {
      WorkerReply(cfg, now, c, act.answer);
    }
  }

  ghost predicate WorkersInv(w: World) {
    forall n | n in w.cells :: WorkerInv(w.cells[n])
  }

  /** In every run, whatever is read, a worker's etcd conclusion is that its cluster goes. */
  lemma WorkersRun(cfg: Config, ls: seq<Label>)
    ensures WorkersInv(Run(Start(cfg), ls))
  {
    forall w, l | WorkersInv(w) ensures WorkersInv(Apply(w, l)) {
      if l.On? && l.name in w.cells {
        WorkerStep(w.cfg, w.now, w.cells[l.name], HeardAct(w, w.cells[l.name], l.act));
      }
    }
    KeptThroughout(Apply, Start(cfg), ls, (w, l) => true, WorkersInv);
  }

  // ------------------------------------------------------------------- values that stay

  lemma HarmlessPatch(c: Cell, k: Key)
    requires WorkerInv(c) && c.pc.Active? && IsPatch(c.pc.at) && IsConclusion(k) && k in c.live.annotations && Harmless(c.pc, k)
    ensures SameOn(c.live.annotations, Merge(c.live, PatchAt(c.pc.m, c.pc.at)).annotations, k)
  {
  }

  lemma HarmlessReply(cfg: Config, now: nat, c: Cell, a: Answer, k: Key)
    requires WorkerInv(c) && c.pc.Active? && IsConclusion(k) && k in c.live.annotations && Harmless(c.pc, k)
    ensures var c' := StepReply(cfg, now, c, a); SameOn(c.live.annotations, c'.live.annotations, k) && Harmless(c'.pc, k)
  {
    AdvanceHarmless(cfg, now, c.pc.m, c.pc.obs, c.pc.at, a, k);
    if IsPatch(c.pc.at) {
      HarmlessPatch(c, k);
    }
  }

  /** While `k` is on the object, no running reconcile will conclude that phase anew. */
  ghost predicate Settled(c: Cell, k: Key) {
    WorkerInv(c) && (k in c.live.annotations ==> Harmless(c.pc, k))
  }

  /** The act reads no version with which the phase would be concluded anew. */
  ghost predicate ShowsConclusion(c: Cell, act: Act, k: Key) {
    act.Read? && k in c.live.annotations ==> !Redoes(Version(c, act.k), k)
  }

  lemma SettledReply(cfg: Config, now: nat, c: Cell, a: Answer, k: Key)
    requires Settled(c, k) && c.pc.Active? && IsConclusion(k)
    ensures Settled(StepReply(cfg, now, c, a), k)
  {
    WorkerReply(cfg, now, c, a);
    if k in c.live.annotations {
      HarmlessReply(cfg, now, c, a, k);
    } else if IsPatch(c.pc.at) && k in PatchAt(c.pc.m, c.pc.at).sets {
      StampHarmless(cfg, now, c.pc.m, c.pc.obs, c.pc.at, a, k);
    }
  }

  lemma SettledStep(cfg: Config, now: nat, c: Cell, act: Act, k: Key)
    requires Settled(c, k) && IsConclusion(k) && ShowsConclusion(c, act, k)
    ensures Settled(StepCell(cfg, now, c, act), k)
    ensures k in c.live.annotations ==> SameOn(c.live.annotations, StepCell(cfg, now, c, act).live.annotations, k)
  {
    WorkerStep(cfg, now, c, act);
    if act.Reply? && c.pc.Active? {
      SettledReply(cfg, now, c, act.answer, k);
      if k in c.live.annotations {
        HarmlessReply(cfg, now, c, act.answer, k);
      }
    } else if act.Read? && c.pc.Idle? && k in c.live.annotations {
      DecideHarmless(Version(c, act.k), k);
    }
  }

  ghost predicate Shows(w: World, l: Label, n: string, k: Key) {
    l.On? && l.name == n && n in w.cells ==> ShowsConclusion(w.cells[n], l.act, k)
  }

  ghost predicate SettledIn(w: World, n: string, k: Key) {
    WorkersInv(w) && (n in w.cells ==> Settled(w.cells[n], k))
  }

  lemma SettledApply(w: World, l: Label, n: string, k: Key)
    requires SettledIn(w, n, k) && IsConclusion(k) && Shows(w, l, n, k)
    ensures SettledIn(Apply(w, l), n, k)
    ensures forall value | Says(w, n, k, value) :: Says(Apply(w, l), n, k, value)
  {
    if l.On? && l.name in w.cells {
      var c := w.cells[l.name];
      WorkerStep(w.cfg, w.now, c, HeardAct(w, c, l.act));
      if l.name == n {
        SettledStep(w.cfg, w.now, c, HeardAct(w, c, l.act), k);
      }
    }
  }

  lemma SettledRun(w: World, ls: seq<Label>, n: string, k: Key)
    requires SettledIn(w, n, k) && IsConclusion(k) && Throughout(w, ls, (v, l) => Shows(v, l, n, k))
    ensures SettledIn(Run(w, ls), n, k)
    ensures forall value | Says(w, n, k, value) :: Says(Run(w, ls), n, k, value)
  {
    var inv := v => SettledIn(v, n, k) && forall value | Says(w, n, k, value) :: Says(v, n, k, value);
    forall v, l | inv(v) && Shows(v, l, n, k) ensures inv(Apply(v, l)) {
      SettledApply(v, l, n, k);
    }
    KeptThroughout(Apply, w, ls, (v, l) => Shows(v, l, n, k), inv);
  }

  /** After any run, whatever was read in it, a persisted conclusion keeps its value from any state
      with no harmful reconcile of the machine under way, as long as none reads a version with which
      it would conclude anew; the versions may be stale in everything else. */
  lemma ValueIsFinal(cfg: Config, before: seq<Label>, ls: seq<Label>, n: string, k: Key, value: Value)
    requires IsConclusion(k)
    requires var w := Run(Start(cfg), before); Says(w, n, k, value) && Harmless(w.cells[n].pc, k)
    requires Throughout(Run(Start(cfg), before), ls, (v, l) => Shows(v, l, n, k))
    ensures Says(Run(Run(Start(cfg), before), ls), n, k, value)
  {
    WorkersRun(cfg, before);
    SettledRun(Run(Start(cfg), before), ls, n, k);
  }

  // ------------------------------------------------------------- and values that do not

  /** Not another read of the machine. */
  predicate NoRead(l: Label, n: string) {
    !(l.On? && l.name == n && l.act.Read?)
  }

  ghost predicate CanGo(w: World, n: string, w': World) {
    exists ls :: (forall l | l in ls :: NoRead(l, n)) && Run(w, ls) == w'
  }

  lemma GoNowhere(w: World, n: string)
    ensures CanGo(w, n, w)
  {
    assert Run(w, []) == w;
  }

  lemma GoOn(w0: World, n: string, w: World, l: Label)
    requires CanGo(w0, n, w) && NoRead(l, n)
    ensures CanGo(w0, n, Apply(w, l))
  {
    var ls :| (forall l | l in ls :: NoRead(l, n)) && Run(w0, ls) == w;
    Extended(Apply, w0, ls, (v, m) => true, l);
    assert Run(w0, ls + [l]) == Apply(w, l);
  }

  ghost predicate Stands(w0: World, w: World, n: string, pc: Pc) {
    CanGo(w0, n, w) && n in w.cells && w.cells[n].pc == pc
  }

  lemma Answered(w0: World, w: World, n: string, m: Machine, obs: int, at: Point, a: Answer) returns (w': World)
    requires Stands(w0, w, n, Active(m, obs, at))
    ensures Stands(w0, w', n, Advance(w.cfg, w.now, m, obs, at, Heard(w, m, a)))
    ensures w'.cfg == w.cfg && w'.now == w.now && w'.collapsing == w.collapsing
  {
    GoOn(w0, n, w, On(n, Reply(a)));
    w' := Apply(w, On(n, Reply(a)));
  }

  ghost predicate SamePhases(m: Machine, m': Machine) {
    && m'.controlPlane == m.controlPlane && m'.cluster == m.cluster
    && (forall k | IsConclusion(k) :: k in m'.annotations <==> k in m.annotations)
  }

  lemma FromWait(w0: World, w: World, n: string, m: Machine) returns (w': World, m': Machine, obs: int)
    requires AtOpenWait(m) && Stands(w0, w, n, AtGate(m))
    ensures Stands(w0, w', n, Active(m', obs, ReadCluster)) && SamePhases(m, m')
  {
    w', m', obs := w, m, 0;
    if ObservedAt in m.annotations && m.annotations[ObservedAt].Timestamp? {
      obs := m.annotations[ObservedAt].seconds;
    } else {
      w' := Answered(w0, w, n, m, 0, ObserveClock, Ok);
      obs := w.now / NANOS;
      m' := Patched(m, StampObserved(obs));
      w' := Answered(w0, w', n, m, 0, StampObserved(obs), Ok);
    }
  }

  lemma Stamped(w0: World, w: World, n: string, m: Machine) returns (w': World)
    requires AtOpenWait(m) && Stands(w0, w, n, Active(m, 0, StampHook))
    ensures Stands(w0, w', n, AtGate(Patched(m, StampHook)))
  {
    w' := Answered(w0, w, n, m, 0, StampHook, Ok);
    w' := Answered(w0, w', n, Patched(m, StampHook), 0, RefreshCreds, Ok);
  }

  lemma PatchedPhases(m: Machine)
    ensures SamePhases(m, Patched(m, StampHook))
  {
  }

  lemma ToGate(w0: World, w: World, n: string, m: Machine) returns (w': World, m': Machine, obs: int)
    requires GetsToGate(m) && Stands(w0, w, n, Decide(m))
    ensures Stands(w0, w', n, Active(m', obs, ReadCluster)) && SamePhases(m, m')
  {
    if HasHook(m) {
      w', m', obs := FromWait(w0, w, n, m);
    } else {
      w' := Stamped(w0, w, n, m);
      PatchedWait(m, StampHook);
      PatchedPhases(m);
      w', m', obs := FromWait(w0, w', n, Patched(m, StampHook));
    }
  }

  /** Nobody is listed, the config is gone, and the deadline passes. */
  lemma ToOrphaned(w0: World, w: World, n: string, m: Machine, obs: int) returns (w': World)
    requires Stands(w0, w, n, Active(m, obs, ListTurn))
    ensures Stands(w0, w', n, Active(m, obs, StampEtcd(Orphaned)))
  {
    w' := Answered(w0, w, n, m, obs, ListTurn, Picks([]));
    w' := Answered(w0, w', n, m, obs, EtcdConfig, Failed);
    var deadline := obs * NANOS + w'.cfg.etcdTimeout;
    var d: nat := if deadline < 0 then 1 else deadline + 1;
    GoOn(w0, n, w', Tick(d));
    w' := Apply(w', Tick(d));
    w' := Answered(w0, w', n, m, obs, EtcdDeadline, Ok);
  }

  lemma ToEtcdStamp(w0: World, w: World, n: string, m: Machine, obs: int, v: EtcdOutcome) returns (w': World)
    requires Stands(w0, w, n, Active(m, obs, ReadCluster)) && EtcdConclusion !in m.annotations && m.controlPlane
    requires v.Orphaned? || v.SkippedClusterDelete?
    ensures Stands(w0, w', n, Active(m, obs, StampEtcd(v)))
  {
    if v.Orphaned? {
      w' := Answered(w0, w, n, m, obs, ReadCluster, ClusterIs(false));
      w' := ToOrphaned(w0, w', n, m, obs);
    } else {
      GoOn(w0, n, w, Collapse(m.cluster));
      w' := Apply(w, Collapse(m.cluster));
      w' := Answered(w0, w', n, m, obs, ReadCluster, ClusterIs(true));
    }
  }

  lemma ToReset(w0: World, w: World, n: string, m: Machine, obs: int) returns (w': World, m': Machine)
    requires Stands(w0, w, n, Active(m, obs, ReadCluster)) && ResetConclusion !in m.annotations
    ensures Stands(w0, w', n, Active(m', obs, ResolveReset))
  {
    m' := m;
    if m.controlPlane && EtcdConclusion !in m.annotations {
      w' := ToEtcdStamp(w0, w, n, m, obs, Orphaned);
      m' := Patched(m, StampEtcd(Orphaned));
      w' := Answered(w0, w', n, m, obs, StampEtcd(Orphaned), Ok);
    } else {
      w' := Answered(w0, w, n, m, obs, ReadCluster, ClusterIs(false));
    }
  }

  lemma ToResetStamp(w0: World, w: World, n: string, m: Machine, obs: int, v: ResetOutcome) returns (w': World)
    requires Stands(w0, w, n, Active(m, obs, ResolveReset)) && !v.SkippedTimeout?
    ensures Stands(w0, w', n, Active(m, obs, StampReset(v)))
  {
    if v.Done? {
      w' := Answered(w0, w, n, m, obs, ResolveReset, Ok);
      w' := ToDone(w0, w', n, m, obs);
    } else {
      w' := Answered(w0, w, n, m, obs, ResolveReset, NoAddress);
    }
  }

  lemma ToDone(w0: World, w: World, n: string, m: Machine, obs: int) returns (w': World)
    requires Stands(w0, w, n, Active(m, obs, DialReset))
    ensures Stands(w0, w', n, Active(m, obs, StampReset(Done)))
  {
    w' := Answered(w0, w, n, m, obs, DialReset, Ok);
    w' := Answered(w0, w', n, m, obs, CallReset, Ok);
  }

  lemma StampSays(w: World, n: string, m: Machine, obs: int, at: Point)
    requires n in w.cells && w.cells[n].pc == Active(m, obs, at)
    ensures at.StampEtcd? ==> Says(Apply(w, On(n, Reply(Ok))), n, EtcdConclusion, Etcd(at.etcd))
    ensures at.StampReset? ==> Says(Apply(w, On(n, Reply(Ok))), n, ResetConclusion, Reset(at.reset))
  {
  }

  /** A reconcile that read such a version can persist another value than any given one. */
  lemma Redone(w: World, n: string, m: Machine, k: Key, value: Value) returns (w': World, value': Value)
    requires n in w.cells && w.cells[n].pc == Decide(m) && IsConclusion(k) && Redoes(m, k)
    ensures CanGo(w, n, w') && Says(w', n, k, value') && value' != value
  {
    GoNowhere(w, n);
    var at, m', obs;
    w', m', obs := ToGate(w, w, n, m);
    if k.EtcdConclusion? {
      var v := if value == Etcd(Orphaned) then SkippedClusterDelete else Orphaned;
      w' := ToEtcdStamp(w, w', n, m', obs, v);
      at, value' := StampEtcd(v), Etcd(v);
    } else {
      var v := if value == Reset(Done) then SkippedNoAddress else Done;
      w', m' := ToReset(w, w', n, m', obs);
      w' := ToResetStamp(w, w', n, m', obs, v);
      at, value' := StampReset(v), Reset(v);
    }
    StampSays(w', n, m', obs, at);
    GoOn(w, n, w', On(n, Reply(Ok)));
    w' := Apply(w', On(n, Reply(Ok)));
  }

  lemma NoReadShows(w: World, ls: seq<Label>, n: string, k: Key)
    requires forall l | l in ls :: NoRead(l, n)
    ensures Throughout(w, ls, (v, l) => Shows(v, l, n, k))
  {
    forall i | 0 <= i < |ls| ensures Shows(Fold(Apply, w, ls[..i]), ls[i], n, k) {
      assert ls[i] in ls;
    }
  }

  lemma HarmlessRead(w: World, n: string, j: nat, k: Key, value: Value, ls: seq<Label>)
    requires WorkersInv(w) && Says(w, n, k, value) && w.cells[n].pc.Idle? && IsConclusion(k)
    requires !Redoes(Version(w.cells[n], j), k) && forall l | l in ls :: NoRead(l, n)
    ensures Says(Run(Apply(w, On(n, Read(j))), ls), n, k, value)
  {
    SettledApply(w, On(n, Read(j)), n, k);
    NoReadShows(Apply(w, On(n, Read(j))), ls, n, k);
    SettledRun(Apply(w, On(n, Read(j))), ls, n, k);
  }

  /** Exactly when a read costs a conclusion its value.  From any reachable state with `k` persisted
      and no reconcile of the machine under way: the reconcile that reads the j-th version can
      replace the value, without any further read, if and only if that version is at the gate and
      lacks `k` (and, for the etcd phase, is a control-plane machine's). */
  lemma RedoneExactly(cfg: Config, before: seq<Label>, n: string, j: nat, k: Key, value: Value)
    requires var w := Run(Start(cfg), before); Says(w, n, k, value) && w.cells[n].pc.Idle?
    requires IsConclusion(k)
    ensures var w := Run(Start(cfg), before);
            (exists ls :: (forall l | l in ls :: NoRead(l, n)) && !Says(Run(Apply(w, On(n, Read(j))), ls), n, k, value))
            <==> Redoes(Version(w.cells[n], j), k)
  {
    var w := Run(Start(cfg), before);
    var w1, m := Apply(w, On(n, Read(j))), Version(w.cells[n], j);
    WorkersRun(cfg, before);
    if Redoes(m, k) {
      var w', value' := Redone(w1, n, m, k, value);
      var ls :| (forall l | l in ls :: NoRead(l, n)) && Run(w1, ls) == w';
      assert !Says(Run(w1, ls), n, k, value);
    } else {
      forall ls | forall l | l in ls :: NoRead(l, n) ensures Says(Run(w1, ls), n, k, value) {
        HarmlessRead(w, n, j, k, value, ls);
      }
    }
  }

  // ------------------------------------------------------------------ such versions are served

  function Fresh(n: string): Machine {
    Machine(n, "c", false, TalosConfig, BootstrapGroup, TinkerbellMachine, InfrastructureGroup, n, 0, None,
            map[Hook := Owner], [], "", [])
  }

  function Waiting(n: string): Machine {
    Fresh(n).(deletion := Some(5), conditions := [Condition(true, true, WaitingForPreTerminateHook)])
  }

  /** `m` is the third version of the machine. */
  ghost predicate Third(w: World, n: string, m: Machine) {
    n in w.cells && |w.cells[n].past| >= 2 && Version(w.cells[n], 2) == m
  }

  lemma PastGrows(cfg: Config, now: nat, c: Cell, act: Act)
    ensures var c' := StepCell(cfg, now, c, act); (c'.past == c.past && c'.live == c.live) || c'.past == c.past + [c.live]
  {
  }

  lemma ThirdStep(w: World, l: Label, n: string, m: Machine)
    requires Third(w, n, m)
    ensures Third(Apply(w, l), n, m)
  {
    if l.On? && l.name == n {
      PastGrows(w.cfg, w.now, w.cells[n], HeardAct(w, w.cells[n], l.act));
    }
  }

  lemma StaysThird(w: World, ls: seq<Label>, n: string, m: Machine)
    requires Third(w, n, m)
    ensures Third(Run(w, ls), n, m)
  {
    forall v, l | Third(v, n, m) ensures Third(Apply(v, l), n, m) {
      ThirdStep(v, l, n, m);
    }
    KeptThroughout(Apply, w, ls, (v, l) => true, v => Third(v, n, m));
  }

  lemma DeletedCell(cfg: Config, now: nat, n: string)
    ensures var c := StepCell(cfg, now, NewCell(Fresh(n)), Delete(5));
            c.live == Fresh(n).(deletion := Some(5)) && c.past == [Fresh(n)] && c.pc.Idle?
  {
  }

  lemma EditedCell(cfg: Config, now: nat, c: Cell, n: string)
    requires c.live == Fresh(n).(deletion := Some(5)) && c.past == [Fresh(n)] && c.pc.Idle?
    ensures var c' := StepCell(cfg, now, c, Edit(Waiting(n)));
            c'.live == Waiting(n) && |c'.past| == 2 && c'.pc.Idle?
  {
  }

  lemma WaitingWorld(cfg: Config, n: string)
    ensures var w := Apply(Apply(Apply(Start(cfg), Create(Fresh(n))), On(n, Delete(5))), On(n, Edit(Waiting(n))));
            n in w.cells && w.cells[n].live == Waiting(n) && |w.cells[n].past| == 2 && w.cells[n].pc.Idle?
  {
    DeletedCell(cfg, 0, n);
    EditedCell(cfg, 0, StepCell(cfg, 0, NewCell(Fresh(n)), Delete(5)), n);
  }

  lemma WaitingRun(cfg: Config, n: string) returns (ls: seq<Label>)
    ensures var w := Run(Start(cfg), ls); Third(w, n, Waiting(n)) && w.cells[n].pc.Idle?
  {
    WaitingWorld(cfg, n);
    ls := [Create(Fresh(n))] + [On(n, Delete(5))] + [On(n, Edit(Waiting(n)))];
    FoldAround(Apply, Start(cfg), Create(Fresh(n)), [On(n, Delete(5))], On(n, Edit(Waiting(n))));
    FoldOne(Apply, Apply(Start(cfg), Create(Fresh(n))), On(n, Delete(5)));
  }

  /** For every configuration and name there is a run after which a reset conclusion is persisted
      and a version that redoes the phase may still be served. */
  lemma StaleVersionServed(cfg: Config, n: string) returns (ls: seq<Label>, j: nat)
    ensures var w := Run(Start(cfg), ls);
            && Concluded(w, n, ResetConclusion) && w.cells[n].pc.Idle?
            && Redoes(Version(w.cells[n], j), ResetConclusion)
  {
    var before := WaitingRun(cfg, n);
    var w := Run(Start(cfg), before);
    var more := SkipsAfter(w, n, Waiting(n));
    FoldConcat(Apply, Start(cfg), before, more);
    StaysThird(w, more, n, Waiting(n));
    ls, j := before + more, 2;
  }

  /** Read, conclude, and stop. */
  lemma SkipsAfter(w: World, n: string, m: Machine) returns (ls: seq<Label>)
    requires Third(w, n, m) && w.cells[n].pc.Idle? && Redoes(m, ResetConclusion)
    ensures Concluded(Run(w, ls), n, ResetConclusion) && Run(w, ls).cells[n].pc.Idle?
  {
    var w1 := Apply(w, On(n, Read(2)));
    var w2, _ := Redone(w1, n, m, ResetConclusion, Owner);
    var more :| (forall l | l in more :: NoRead(l, n)) && Run(w1, more) == w2;
    ls := [On(n, Read(2))] + more + [On(n, Crash)];
    FoldAround(Apply, w, On(n, Read(2)), more, On(n, Crash));
    CrashRests(w2, n, ResetConclusion);
  }

  lemma CrashRests(w: World, n: string, k: Key)
    requires Concluded(w, n, k)
    ensures Concluded(Apply(w, On(n, Crash)), n, k) && Apply(w, On(n, Crash)).cells[n].pc.Idle?
  {
  }
}

/** What the history of a machine's reconciles looks like, whatever versions they read. */
module History {
  import opened Wrappers
  import opened Machines
  import opened Protocol
  import opened Peers
  import opened Runs
  import opened Agreement
  import PowerOff

  // ------------------------------------------------------------------ vocabulary

  /** Calls that reach a Talos node or its etcd for the etcd phase. */
  predicate EtcdCall(at: Point) {
    at.Probe? || at.DialVictim? || at.Forfeit? || at.Leave? || at.Remove?
  }

  predicate NodeCall(at: Point) {
    EtcdCall(at) || at.DialReset? || at.CallReset?
  }

  predicate PersistsEtcd(e: Entry) {
    e.Did? && e.pc.Active? && e.pc.at.StampEtcd? && Effective(e.answer)
  }

  predicate PersistsReset(e: Entry) {
    e.Did? && e.pc.Active? && e.pc.at.StampReset? && Effective(e.answer)
  }

  predicate Releases(e: Entry) {
    e.Did? && e.pc.Active? && e.pc.at.Release? && Effective(e.answer)
  }

  /** The machine as the reconcile at the end of the trace read it. */
  function LastRead(trace: seq<Entry>): Option<Machine> {
    if trace == [] then None
    else match trace[|trace| - 1]
      case Began(m) => Some(m)
      case Did(_, _, _) => LastRead(trace[..|trace| - 1])
      case Crashed => None
  }

  /** That reconcile has stamped the hook itself. */
  predicate Stamped(trace: seq<Entry>) {
    trace != [] && trace[|trace| - 1].Did?
    && ((trace[|trace| - 1].pc.Active? && trace[|trace| - 1].pc.at.StampHook? && trace[|trace| - 1].answer.Ok?)
        || Stamped(trace[..|trace| - 1]))
  }

  predicate EtcdAttemptFailed(e: Entry) {
    e.Did? && e.pc.Active?
    && match e.pc.at
       case EtcdConfig => !e.answer.Ok?
       case ListPeers => !e.answer.Machines? || OrderPeers(e.answer.machines, e.pc.m) == []
       case Probe(queue) => !e.answer.Members? && |queue| <= 1
       case Remove(_) => !e.answer.Ok?
       case _ => false
  }

  predicate ResetAttemptFailed(e: Entry) {
    e.Did? && e.pc.Active?
    && match e.pc.at
       case ResolveReset => !e.answer.Ok? && !e.answer.NoAddress?
       case DialReset => !e.answer.Ok?
       case CallReset => !e.answer.Ok?
       case _ => false
  }

  predicate SawDeadline(e: Entry, at: Point, obs: int, timeout: int) {
    e.Did? && e.pc.Active? && e.pc.at == at && e.pc.obs == obs && e.time > obs * 1_000_000_000 + timeout
  }

  /** The last two entries of `trace` are a failed attempt and an expired deadline check. */
  predicate TimedOutEtcd(cfg: Config, trace: seq<Entry>, obs: int) {
    |trace| >= 2 && EtcdAttemptFailed(trace[|trace| - 2]) && SawDeadline(trace[|trace| - 1], EtcdDeadline, obs, cfg.etcdTimeout)
  }

  predicate TimedOutReset(cfg: Config, trace: seq<Entry>, obs: int) {
    |trace| >= 2 && ResetAttemptFailed(trace[|trace| - 2]) && SawDeadline(trace[|trace| - 1], ResetDeadline, obs, cfg.resetTimeout)
  }

  predicate CountsFrom(at: Point) {
    at.ReadCluster? || InEtcdPhase(at) || PowerOff.InResetPhase(at)
  }

  // -------------------------------------------------------------- what entries obey

  ghost predicate GateSnapshot(m: Machine) {
    m.deletion.Some? && AtPreTerminate(m) && !HasOtherPreTerminateHooks(m)
  }

  /** A call recorded after the history `before`. */
  ghost predicate CallOk(cfg: Config, before: seq<Entry>, pc: Pc) {
    pc.Active? ==>
      && (NodeCall(pc.at) ==>
            LastRead(before).Some? && GateSnapshot(LastRead(before).value)
            && (HasHook(LastRead(before).value) || Stamped(before)))
      && (pc.at == StampEtcd(Orphaned) ==> TimedOutEtcd(cfg, before, pc.obs))
      && (pc.at == StampReset(SkippedTimeout) ==> TimedOutReset(cfg, before, pc.obs))
  }

  ghost predicate HistoryOk(cfg: Config, trace: seq<Entry>) {
    forall i | 0 <= i < |trace| :: trace[i].Did? ==> CallOk(cfg, trace[..i], trace[i].pc)
  }

  // ------------------------------------------------------------------- the invariant

  ghost predicate SameForeignHooks(a: Annotations, b: Annotations) {
    forall k :: ForeignHook(a, k) <==> ForeignHook(b, k)
  }

  /** The copy a reconcile works on is what it read, but for its own patches. */
  ghost predicate CopyInv(trace: seq<Entry>, m: Machine, at: Point) {
    && LastRead(trace).Some?
    && var read := LastRead(trace).value;
       && m == read.(annotations := m.annotations)
       && SameForeignHooks(read.annotations, m.annotations)
       && (HasHook(m) ==> HasHook(read) || Stamped(trace))
       && (!PowerOff.BeforeGate(at) ==> GateSnapshot(m))
  }

  ghost predicate DeadlineInv(cfg: Config, trace: seq<Entry>, obs: int, at: Point) {
    && (at.EtcdDeadline? ==> trace != [] && EtcdAttemptFailed(trace[|trace| - 1]))
    && (at.ResetDeadline? ==> trace != [] && ResetAttemptFailed(trace[|trace| - 1]))
    && (at == StampEtcd(Orphaned) ==> TimedOutEtcd(cfg, trace, obs))
    && (at == StampReset(SkippedTimeout) ==> TimedOutReset(cfg, trace, obs))
  }

  ghost predicate RunningInv(cfg: Config, trace: seq<Entry>, pc: Pc) {
    pc.Active? ==>
      CopyInv(trace, pc.m, pc.at) && DeadlineInv(cfg, trace, pc.obs, pc.at) && (!pc.at.StampHook? ==> HasHook(pc.m))
  }

  ghost predicate HistoryInv(cfg: Config, c: Cell) {
    HistoryOk(cfg, c.trace) && RunningInv(cfg, c.trace, c.pc)
  }

  lemma SameOther(a: Machine, b: Machine)
    requires SameForeignHooks(a.annotations, b.annotations)
    ensures HasOtherPreTerminateHooks(a) == HasOtherPreTerminateHooks(b)
  {
    assert forall k :: ForeignHook(a.annotations, k) ==> k in a.annotations;
    assert forall k :: ForeignHook(b.annotations, k) ==> k in b.annotations;
  }

  lemma PatchKeepsForeign(m: Machine, at: Point)
    requires IsPatch(at)
    ensures SameForeignHooks(m.annotations, Patched(m, at).annotations)
  {
  }

  lemma HistoryAppend(cfg: Config, trace: seq<Entry>, e: Entry)
    requires HistoryOk(cfg, trace)
    requires e.Did? ==> CallOk(cfg, trace, e.pc)
    ensures HistoryOk(cfg, trace + [e])
  {
    var more := trace + [e];
    forall i | 0 <= i < |more| && more[i].Did? ensures CallOk(cfg, more[..i], more[i].pc) {
      assert more[..i] == trace[..i];
      assert trace[..|trace|] == trace;
    }
  }

  /** A running reconcile makes only calls its history allows. */
  lemma NextCallOk(cfg: Config, trace: seq<Entry>, pc: Pc)
    requires RunningInv(cfg, trace, pc)
    ensures CallOk(cfg, trace, pc)
  {
    if pc.Active? && !PowerOff.BeforeGate(pc.at) {
      SameOther(LastRead(trace).value, pc.m);
    }
  }

  lemma AppendDid(trace: seq<Entry>, e: Entry)
    requires e.Did?
    ensures LastRead(trace + [e]) == LastRead(trace)
    ensures Stamped(trace) ==> Stamped(trace + [e])
    ensures e.pc.Active? && e.pc.at.StampHook? && e.answer.Ok? ==> Stamped(trace + [e])
  {
    assert (trace + [e])[..|trace + [e]| - 1] == trace;
  }

  lemma AdvanceDeadline(cfg: Config, now: nat, trace: seq<Entry>, pc: Pc, a: Answer)
    requires pc.Active? && DeadlineInv(cfg, trace, pc.obs, pc.at)
    ensures var next := Advance(cfg, now, pc.m, pc.obs, pc.at, a);
            next.Active? ==> DeadlineInv(cfg, trace + [Did(pc, a, now)], next.obs, next.at)
  {
  }

  lemma AdvanceCopy(cfg: Config, now: nat, trace: seq<Entry>, pc: Pc, a: Answer)
    requires pc.Active? && CopyInv(trace, pc.m, pc.at)
    ensures var next := Advance(cfg, now, pc.m, pc.obs, pc.at, a);
            next.Active? ==> CopyInv(trace + [Did(pc, a, now)], next.m, next.at)
  {
    AppendDid(trace, Did(pc, a, now));
    if IsPatch(pc.at) {
      PatchKeepsForeign(pc.m, pc.at);
      SameOther(pc.m, Patched(pc.m, pc.at));
    }
  }

  lemma DecidePoint(m: Machine)
    ensures var pc := Decide(m);
            pc.Active? ==>
              && pc.m == m && (pc.at.StampHook? || pc.at.RefreshCreds? || pc.at.ObserveClock? || pc.at.ReadCluster?)
              && (!PowerOff.BeforeGate(pc.at) ==> GateSnapshot(m)) && (!pc.at.StampHook? ==> HasHook(m))
  {
  }

  lemma JustRead(trace: seq<Entry>, m: Machine)
    ensures LastRead(trace + [Began(m)]) == Some(m)
  {
  }

  lemma DecideCopy(cfg: Config, trace: seq<Entry>, m: Machine)
    ensures RunningInv(cfg, trace + [Began(m)], Decide(m))
  {
    DecidePoint(m);
    JustRead(trace, m);
  }

  lemma AdvanceHook(cfg: Config, now: nat, m: Machine, obs: int, at: Point, a: Answer)
    requires !at.StampHook? ==> HasHook(m)
    ensures var pc := Advance(cfg, now, m, obs, at, a); pc.Active? ==> !pc.at.StampHook? && HasHook(pc.m)
  {
  }

  lemma ReplyHistory(cfg: Config, now: nat, c: Cell, a: Answer)
    requires HistoryInv(cfg, c) && c.pc.Active?
    ensures HistoryInv(cfg, StepReply(cfg, now, c, a))
  {
    NextCallOk(cfg, c.trace, c.pc);
    HistoryAppend(cfg, c.trace, Did(c.pc, a, now));
    AdvanceCopy(cfg, now, c.trace, c.pc, a);
    AdvanceDeadline(cfg, now, c.trace, c.pc, a);
    AdvanceHook(cfg, now, c.pc.m, c.pc.obs, c.pc.at, a);
  }

  lemma StepHistory(cfg: Config, now: nat, c: Cell, act: Act)
    requires HistoryInv(cfg, c)
    ensures HistoryInv(cfg, StepCell(cfg, now, c, act))
  {
    if act.Reply? && c.pc.Active? {
      ReplyHistory(cfg, now, c, act.answer);
    } else if act.Read? && c.pc.Idle? {
      HistoryAppend(cfg, c.trace, Began(Version(c, act.k)));
      DecideCopy(cfg, c.trace, Version(c, act.k));
    } else if act.Crash? && c.pc.Active? {
      HistoryAppend(cfg, c.trace, Crashed);
    }
  }

  ghost predicate Inv(w: World) {
    forall n | n in w.cells :: HistoryInv(w.cfg, w.cells[n])
  }

  lemma ApplyHistory(w: World, l: Label)
    requires Inv(w)
    ensures Inv(Apply(w, l)) && Apply(w, l).cfg == w.cfg
  {
    if l.On? && l.name in w.cells {
      var c := w.cells[l.name];
      StepHistory(w.cfg, w.now, c, HeardAct(w, c, l.act));
    }
  }

  lemma RunHistory(cfg: Config, ls: seq<Label>)
    ensures Inv(Run(Start(cfg), ls)) && Run(Start(cfg), ls).cfg == cfg
  {
    var inv := w => Inv(w) && w.cfg == cfg;
    forall w, l | inv(w) ensures inv(Apply(w, l)) {
      ApplyHistory(w, l);
    }
    KeptThroughout(Apply, Start(cfg), ls, (w, l) => true, inv);
  }

  // ------------------------------------------------------------------------ theorems

  /** The i-th entry of a machine's history is a call. */
  ghost predicate Call(trace: seq<Entry>, i: nat, pc: Pc) {
    i < |trace| && trace[i].Did? && trace[i].pc == pc && pc.Active?
  }

  /** In every run, whatever is read, every call to a node follows, in the same reconcile, a read
      of a deleting machine parked at the pre-terminate wait, free of foreign hooks, and hooked --
      as read, or by a stamp of that reconcile. */
  lemma CallsFollowSnapshot(cfg: Config, ls: seq<Label>, n: string, i: nat, pc: Pc)
    requires n in Run(Start(cfg), ls).cells && Call(Run(Start(cfg), ls).cells[n].trace, i, pc) && NodeCall(pc.at)
    ensures var before := Run(Start(cfg), ls).cells[n].trace[..i];
            && LastRead(before).Some? && Ready(LastRead(before).value)
            && (Hook in LastRead(before).value.annotations || Stamped(before))
  {
    RunHistory(cfg, ls);
    ReadyExactly(LastRead(Run(Start(cfg), ls).cells[n].trace[..i]).value);
    assert HistoryInv(cfg, Run(Start(cfg), ls).cells[n]);
  }

  /** In every run, whatever is read, `orphaned` and `skipped-timeout` are stamped right after a
      failed attempt and a clock reading strictly past the deadline, both of the same reconcile. */
  lemma TimeoutsAreEarned(cfg: Config, ls: seq<Label>, n: string, i: nat, pc: Pc)
    requires n in Run(Start(cfg), ls).cells && Call(Run(Start(cfg), ls).cells[n].trace, i, pc)
    ensures var before := Run(Start(cfg), ls).cells[n].trace[..i];
            && (pc.at == StampEtcd(Orphaned) ==> TimedOutEtcd(cfg, before, pc.obs))
            && (pc.at == StampReset(SkippedTimeout) ==> TimedOutReset(cfg, before, pc.obs))
  {
    RunHistory(cfg, ls);
    assert HistoryInv(cfg, Run(Start(cfg), ls).cells[n]);
  }
}

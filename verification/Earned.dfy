/** Every run follows the script, and what that says of the conclusions on the object: each was earned
    by the answer that stands for it (internal/teardown/reconciler.go:56-596). */
module Earned {
  import opened Wrappers
  import opened Machines
  import opened Protocol
  import opened Runs
  import opened Script
  import History
  import PowerOff

  // ------------------------------------------------------------------- whole runs

  ghost predicate CallLed(cfg: Config, trace: seq<Entry>, i: nat) {
    0 < i < |trace| && trace[i].Did? && trace[i].pc.Active? && Led(cfg, trace[i - 1], trace[i].pc)
  }

  ghost predicate Running(cfg: Config, trace: seq<Entry>, pc: Pc) {
    pc.Active? ==>
      && trace != [] && Led(cfg, trace[|trace| - 1], pc)
      && (!pc.at.StampHook? ==> Hooked(pc.m)) && (PowerOff.BeforeGate(pc.at) ==> pc.obs == 0)
  }

  ghost predicate TraceInv(cfg: Config, trace: seq<Entry>) {
    && (forall i: nat | i < |trace| && trace[i].Did? :: CallLed(cfg, trace, i))
    && (forall i: nat | 0 < i < |trace| && trace[i].Began? :: MayEnd(cfg, trace[i - 1]))
  }

  ghost predicate ScriptInv(cfg: Config, c: Cell) {
    && TraceInv(cfg, c.trace) && Running(cfg, c.trace, c.pc)
    && (c.pc.Idle? && c.trace != [] ==> MayEnd(cfg, c.trace[|c.trace| - 1]))
  }

  lemma AppendEntry(cfg: Config, trace: seq<Entry>, e: Entry)
    requires TraceInv(cfg, trace)
    requires e.Did? ==> e.pc.Active? && trace != [] && Led(cfg, trace[|trace| - 1], e.pc)
    requires e.Began? && trace != [] ==> MayEnd(cfg, trace[|trace| - 1])
    ensures TraceInv(cfg, trace + [e])
  {
    var more := trace + [e];
    forall i: nat | i < |more| && more[i].Did? ensures CallLed(cfg, more, i) {
      assert i < |trace| ==> CallLed(cfg, trace, i);
    }
  }

  lemma AdvanceObs(cfg: Config, now: nat, m: Machine, obs: int, at: Point, a: Answer)
    requires PowerOff.BeforeGate(at) ==> obs == 0
    ensures var pc := Advance(cfg, now, m, obs, at, a); pc.Active? && PowerOff.BeforeGate(pc.at) ==> pc.obs == 0
  {
  }

  lemma ReplyScript(cfg: Config, now: nat, c: Cell, a: Answer)
    requires ScriptInv(cfg, c) && c.pc.Active?
    ensures ScriptInv(cfg, StepReply(cfg, now, c, a))
  {
    var m, obs, at := c.pc.m, c.pc.obs, c.pc.at;
    var e := Did(c.pc, a, now);
    AdvanceFollows(cfg, now, m, obs, at, a);
    AdvanceObs(cfg, now, m, obs, at, a);
    History.AdvanceHook(cfg, now, m, obs, at, a);
    AppendEntry(cfg, c.trace, e);
    assert (c.trace + [e])[|c.trace|] == e;
  }

  lemma ReadScript(cfg: Config, now: nat, c: Cell, k: nat)
    requires ScriptInv(cfg, c) && c.pc.Idle?
    ensures ScriptInv(cfg, StepCell(cfg, now, c, Read(k)))
  {
    var m := Version(c, k);
    DecideFollows(cfg, m);
    DecideObs(m);
    AppendEntry(cfg, c.trace, Began(m));
    assert (c.trace + [Began(m)])[|c.trace|] == Began(m);
  }

  lemma DecideObs(m: Machine)
    ensures var pc := Decide(m);
            pc.Active? ==> (!pc.at.StampHook? ==> Hooked(pc.m)) && (PowerOff.BeforeGate(pc.at) ==> pc.obs == 0)
  {
  }

  lemma StepScript(cfg: Config, now: nat, c: Cell, act: Act)
    requires ScriptInv(cfg, c)
    ensures ScriptInv(cfg, StepCell(cfg, now, c, act))
  {
    if act.Reply? && c.pc.Active? {
      ReplyScript(cfg, now, c, act.answer);
    } else if act.Read? && c.pc.Idle? {
      ReadScript(cfg, now, c, act.k);
    } else if act.Crash? && c.pc.Active? {
      AppendEntry(cfg, c.trace, Crashed);
    }
  }

  // -------------------------------------------------------------- what is on the object

  ghost predicate StampsAt(trace: seq<Entry>, i: int, at: Point) {
    0 <= i < |trace| && trace[i].Did? && trace[i].pc.Active? && trace[i].pc.at == at && Effective(trace[i].answer)
  }

  /** The history holds the stamp of the conclusion, if there is one. */
  ghost predicate StampedBy(ann: Annotations, trace: seq<Entry>) {
    && (EtcdConclusion in ann ==> ann[EtcdConclusion].Etcd? && exists i :: StampsAt(trace, i, StampEtcd(ann[EtcdConclusion].etcd)))
    && (ResetConclusion in ann ==> ann[ResetConclusion].Reset? && exists i :: StampsAt(trace, i, StampReset(ann[ResetConclusion].reset)))
  }

  lemma LongerTrace(ann: Annotations, trace: seq<Entry>, e: Entry)
    requires StampedBy(ann, trace)
    ensures StampedBy(ann, trace + [e])
  {
    if EtcdConclusion in ann {
      var i :| StampsAt(trace, i, StampEtcd(ann[EtcdConclusion].etcd));
      assert StampsAt(trace + [e], i, StampEtcd(ann[EtcdConclusion].etcd));
    }
    if ResetConclusion in ann {
      var i :| StampsAt(trace, i, StampReset(ann[ResetConclusion].reset));
      assert StampsAt(trace + [e], i, StampReset(ann[ResetConclusion].reset));
    }
  }

  lemma PatchStamps(live: Machine, m: Machine, at: Point)
    requires IsPatch(at)
    ensures var ann := Merge(live, PatchAt(m, at)).annotations;
            && (if at.StampEtcd? then EtcdConclusion in ann && ann[EtcdConclusion] == Value.Etcd(at.etcd)
                else SameOn(live.annotations, ann, EtcdConclusion))
            && (if at.StampReset? then ResetConclusion in ann && ann[ResetConclusion] == Value.Reset(at.reset)
                else SameOn(live.annotations, ann, ResetConclusion))
  {
  }

  lemma ReplyStamps(cfg: Config, now: nat, c: Cell, a: Answer)
    requires c.pc.Active? && StampedBy(c.live.annotations, c.trace)
    ensures var c' := StepReply(cfg, now, c, a); StampedBy(c'.live.annotations, c'.trace)
  {
    var c', e := StepReply(cfg, now, c, a), Did(c.pc, a, now);
    LongerTrace(c.live.annotations, c.trace, e);
    if IsPatch(c.pc.at) && Effective(a) {
      PatchStamps(c.live, c.pc.m, c.pc.at);
      assert StampsAt(c'.trace, |c.trace|, c.pc.at);
    }
  }

  lemma StepStamps(cfg: Config, now: nat, c: Cell, act: Act)
    requires StampedBy(c.live.annotations, c.trace)
    ensures var c' := StepCell(cfg, now, c, act); StampedBy(c'.live.annotations, c'.trace)
  {
    if act.Reply? && c.pc.Active? {
      ReplyStamps(cfg, now, c, act.answer);
    } else if act.Read? && c.pc.Idle? {
      LongerTrace(c.live.annotations, c.trace, Began(Version(c, act.k)));
    } else if act.Crash? && c.pc.Active? {
      LongerTrace(c.live.annotations, c.trace, Crashed);
    }
  }

  ghost predicate CellInv(cfg: Config, c: Cell) {
    ScriptInv(cfg, c) && StampedBy(c.live.annotations, c.trace)
  }

  ghost predicate Inv(w: World, cfg: Config) {
    w.cfg == cfg && forall n | n in w.cells :: CellInv(cfg, w.cells[n])
  }

  lemma ApplyInv(w: World, l: Label, cfg: Config)
    requires Inv(w, cfg)
    ensures Inv(Apply(w, l), cfg)
  {
    if l.On? && l.name in w.cells {
      var c := w.cells[l.name];
      StepScript(w.cfg, w.now, c, HeardAct(w, c, l.act));
      StepStamps(w.cfg, w.now, c, HeardAct(w, c, l.act));
    }
  }

  lemma RunInv(cfg: Config, ls: seq<Label>)
    ensures Inv(Run(Start(cfg), ls), cfg)
  {
    forall w, l | Inv(w, cfg) ensures Inv(Apply(w, l), cfg) {
      ApplyInv(w, l, cfg);
    }
    KeptThroughout(Apply, Start(cfg), ls, (w, l) => true, w => Inv(w, cfg));
  }

  // ------------------------------------------------------------------------ theorems

  /** In every run, whatever is read: the entry before each call of a reconcile leads to it. */
  lemma EveryCallIsLed(cfg: Config, ls: seq<Label>, n: string, i: nat, pc: Pc)
    requires n in Run(Start(cfg), ls).cells && History.Call(Run(Start(cfg), ls).cells[n].trace, i, pc)
    ensures var trace := Run(Start(cfg), ls).cells[n].trace; i > 0 && LedTo(cfg, trace[i - 1], pc.m, pc.obs, pc.at)
  {
    RunInv(cfg, ls);
    var trace := Run(Start(cfg), ls).cells[n].trace;
    assert CallLed(cfg, trace, i);
  }

  /** In every run, whatever is read: a reconcile that is over, and was not cut short, ended for a
      reason. */
  lemma EveryEndHasAReason(cfg: Config, ls: seq<Label>, n: string)
    requires n in Run(Start(cfg), ls).cells
    ensures var c := Run(Start(cfg), ls).cells[n];
            && (c.pc.Idle? && c.trace != [] ==> MayEnd(cfg, c.trace[|c.trace| - 1]))
            && (forall i: nat | 0 < i < |c.trace| && c.trace[i].Began? :: MayEnd(cfg, c.trace[i - 1]))
  {
    RunInv(cfg, ls);
  }

  /** In every run, whatever is read: a reset conclusion on the object was persisted by a stamp of some
      reconcile, right after the answer that stands for it: `done` after a reset call that succeeded,
      `skipped-no-address` after the address was found to be missing, `skipped-timeout` after a clock
      past the deadline. */
  lemma ResetIsEarned(cfg: Config, ls: seq<Label>, n: string)
    requires n in Run(Start(cfg), ls).cells && ResetConclusion in Run(Start(cfg), ls).cells[n].live.annotations
    ensures var c := Run(Start(cfg), ls).cells[n];
            var v := c.live.annotations[ResetConclusion];
            && v.Reset?
            && exists i: nat :: StampsAt(c.trace, i, StampReset(v.reset)) && i > 0
                 && LedToResetStamp(cfg, c.trace[i - 1], c.trace[i].pc.m, c.trace[i].pc.obs, v.reset)
  {
    RunInv(cfg, ls);
    var c := Run(Start(cfg), ls).cells[n];
    var v := c.live.annotations[ResetConclusion];
    var i: int :| StampsAt(c.trace, i, StampReset(v.reset));
    assert CallLed(cfg, c.trace, i);
  }

  /** `done` on the object means that a reset call to the node succeeded. */
  lemma DoneMeansReset(cfg: Config, ls: seq<Label>, n: string)
    requires n in Run(Start(cfg), ls).cells
    requires var ann := Run(Start(cfg), ls).cells[n].live.annotations;
             ResetConclusion in ann && ann[ResetConclusion] == Value.Reset(Done)
    ensures exists e :: e in Run(Start(cfg), ls).cells[n].trace && e.Did? && e.pc.Active? && e.pc.at.CallReset? && e.answer.Ok?
  {
    ResetIsEarned(cfg, ls, n);
    var trace := Run(Start(cfg), ls).cells[n].trace;
    var i: nat :| StampsAt(trace, i, StampReset(Done)) && i > 0
                  && LedToResetStamp(cfg, trace[i - 1], trace[i].pc.m, trace[i].pc.obs, Done);
    assert trace[i - 1] in trace;
  }

  /** The same of the etcd conclusion: `not-member` after a list with no member that matches, `left` and
      `removed` after the call that succeeded, `orphaned` after a clock past the deadline,
      `skipped-cluster-delete` after the cluster was found to be deleting. */
  lemma EtcdIsEarned(cfg: Config, ls: seq<Label>, n: string)
    requires n in Run(Start(cfg), ls).cells && EtcdConclusion in Run(Start(cfg), ls).cells[n].live.annotations
    ensures var c := Run(Start(cfg), ls).cells[n];
            var v := c.live.annotations[EtcdConclusion];
            && v.Etcd?
            && exists i: nat :: StampsAt(c.trace, i, StampEtcd(v.etcd)) && i > 0
                 && LedToEtcdStamp(cfg, c.trace[i - 1], c.trace[i].pc.m, c.trace[i].pc.obs, v.etcd)
  {
    RunInv(cfg, ls);
    var c := Run(Start(cfg), ls).cells[n];
    var v := c.live.annotations[EtcdConclusion];
    var i: int :| StampsAt(c.trace, i, StampEtcd(v.etcd));
    assert CallLed(cfg, c.trace, i);
  }

  lemma NothingAfterEarly(cfg: Config, e: Entry, m: Machine, obs: int, at: Point)
    requires LedTo(cfg, e, m, obs, at) && e.Did? && e.pc.Active?
    ensures e.pc.at.EtcdDeadline? ==> e.time > e.pc.obs * 1_000_000_000 + cfg.etcdTimeout
    ensures e.pc.at.ResetDeadline? ==> e.time > e.pc.obs * 1_000_000_000 + cfg.resetTimeout
    ensures e.pc.at.ReadCluster? && e.answer == ClusterIs(true) && EtcdConclusion !in e.pc.m.annotations ==>
              at == StampEtcd(SkippedClusterDelete)
  {
  }

  /** A failed attempt whose clock is not past the deadline ends the reconcile: it makes no call after
      that, and stamps nothing. */
  lemma NotDueEnds(cfg: Config, ls: seq<Label>, n: string, i: nat, pc: Pc)
    requires n in Run(Start(cfg), ls).cells && History.Call(Run(Start(cfg), ls).cells[n].trace, i, pc)
    requires var time := Run(Start(cfg), ls).cells[n].trace[i].time;
             || (pc.at.EtcdDeadline? && time <= pc.obs * 1_000_000_000 + cfg.etcdTimeout)
             || (pc.at.ResetDeadline? && time <= pc.obs * 1_000_000_000 + cfg.resetTimeout)
    ensures var c := Run(Start(cfg), ls).cells[n]; if i + 1 == |c.trace| then c.pc.Idle? else !c.trace[i + 1].Did?
  {
    RunInv(cfg, ls);
    var c := Run(Start(cfg), ls).cells[n];
    if i + 1 == |c.trace| {
      if c.pc.Active? {
        NothingAfterEarly(cfg, c.trace[i], c.pc.m, c.pc.obs, c.pc.at);
      }
    } else if c.trace[i + 1].Did? {
      assert CallLed(cfg, c.trace, i + 1);
      NothingAfterEarly(cfg, c.trace[i], c.trace[i + 1].pc.m, c.trace[i + 1].pc.obs, c.trace[i + 1].pc.at);
    }
  }

  /** Of a machine whose cluster is found to be deleting, with no etcd conclusion yet, the etcd phase is
      skipped: the next call, if the reconcile is not cut short, stamps that. */
  lemma DeletingClusterSkipsEtcd(cfg: Config, ls: seq<Label>, n: string, i: nat, pc: Pc)
    requires n in Run(Start(cfg), ls).cells && History.Call(Run(Start(cfg), ls).cells[n].trace, i, pc)
    requires pc.at.ReadCluster? && Run(Start(cfg), ls).cells[n].trace[i].answer == ClusterIs(true)
    requires EtcdConclusion !in pc.m.annotations
    ensures var c := Run(Start(cfg), ls).cells[n];
            if i + 1 == |c.trace| then c.pc.Active? && c.pc.at == StampEtcd(SkippedClusterDelete)
            else c.trace[i + 1].Crashed? || (c.trace[i + 1].Did? && c.trace[i + 1].pc.Active?
                                             && c.trace[i + 1].pc.at == StampEtcd(SkippedClusterDelete))
  {
    RunInv(cfg, ls);
    var c := Run(Start(cfg), ls).cells[n];
    if i + 1 == |c.trace| {
      assert c.pc.Active?;
      NothingAfterEarly(cfg, c.trace[i], c.pc.m, c.pc.obs, c.pc.at);
    } else if c.trace[i + 1].Did? {
      assert CallLed(cfg, c.trace, i + 1);
      NothingAfterEarly(cfg, c.trace[i], c.trace[i + 1].pc.m, c.trace[i + 1].pc.obs, c.trace[i + 1].pc.at);
    }
  }

  // ----------------------------------------------------------------- and nothing else is

  /** Not one of the keys a reconcile with this copy may touch: the four it owns, and leftovers. */
  ghost predicate Foreign(k: Key, m: Machine) {
    k.Other? || k.EtcdLeaving? || (k.PreTerminate? && !(k in m.annotations && m.annotations[k] == Owner))
  }

  lemma PatchKeepsForeign(live: Machine, m: Machine, at: Point, k: Key)
    requires IsPatch(at) && Foreign(k, m)
    ensures SameOn(live.annotations, Merge(live, PatchAt(m, at)).annotations, k)
  {
  }

  /** A step of a machine's own reconcile changes nothing on any object but that machine's annotations,
      and no key of theirs but the four it owns and the leftovers it read. */
  lemma OnlyOwnKeys(w: World, n: string, act: Act)
    requires n in w.cells && (act.Read? || act.Reply? || act.Crash?)
    ensures var w' := Apply(w, On(n, act));
            var live, live' := w.cells[n].live, w'.cells[n].live;
            && w'.cells.Keys == w.cells.Keys && (forall b | b in w.cells && b != n :: w'.cells[b] == w.cells[b])
            && live' == live.(annotations := live'.annotations)
            && forall k | w.cells[n].pc.Idle? || Foreign(k, w.cells[n].pc.m) :: SameOn(live.annotations, live'.annotations, k)
  {
    var c := w.cells[n];
    if c.pc.Active? && IsPatch(c.pc.at) {
      forall k | Foreign(k, c.pc.m) ensures SameOn(c.live.annotations, Merge(c.live, PatchAt(c.pc.m, c.pc.at)).annotations, k) {
        PatchKeepsForeign(c.live, c.pc.m, c.pc.at, k);
      }
    }
  }

  // ------------------------------------------------------------------ the hook goes on

  /** Nobody answers or cuts short `n`'s reconcile. */
  ghost predicate Meanwhile(l: Label, n: string) {
    !(l.On? && l.name == n && (l.act.Read? || l.act.Reply? || l.act.Crash?))
  }

  ghost predicate Stands(w: World, n: string, pc: Pc) {
    n in w.cells && w.cells[n].pc == pc
  }

  lemma OthersWait(w: World, ls: seq<Label>, n: string, pc: Pc)
    requires Stands(w, n, pc) && forall l | l in ls :: Meanwhile(l, n)
    ensures Stands(Run(w, ls), n, pc)
  {
    forall v, l | Stands(v, n, pc) && Meanwhile(l, n) ensures Stands(Apply(v, l), n, pc) {}
    KeptThroughout(Apply, w, ls, (v, l) => Meanwhile(l, n), v => Stands(v, n, pc));
  }

  lemma HookIsDue(m: Machine)
    requires ToBeHooked(m)
    ensures Decide(m) == Active(m, 0, StampHook)
  {
    ReadyExactly(m);
  }

  lemma HookGoesOn(w: World, n: string, m: Machine, a: Answer)
    requires Stands(w, n, Active(m, 0, StampHook)) && (a.Ok? || a.Ambiguous?)
    ensures var w' := Apply(w, On(n, Reply(a)));
            && n in w'.cells && Hook in w'.cells[n].live.annotations && w'.cells[n].live.annotations[Hook] == Owner
            && forall k: Key | k.PreTerminate? && k in m.annotations && m.annotations[k] == Owner :: k !in w'.cells[n].live.annotations
  {
  }

  /** From any state: a reconcile that reads a version to be hooked has one call to make, and when its
      patch takes effect, whatever happened in between, the hook is on the object and the leftovers of
      that version are off. */
  lemma HookIsStamped(w: World, n: string, j: nat, ls: seq<Label>, a: Answer)
    requires n in w.cells && w.cells[n].pc.Idle? && ToBeHooked(Version(w.cells[n], j))
    requires (forall l | l in ls :: Meanwhile(l, n)) && (a.Ok? || a.Ambiguous?)
    ensures var m := Version(w.cells[n], j);
            var w' := Apply(Run(Apply(w, On(n, Read(j))), ls), On(n, Reply(a)));
            && n in w'.cells && Hook in w'.cells[n].live.annotations && w'.cells[n].live.annotations[Hook] == Owner
            && forall k: Key | k.PreTerminate? && k in m.annotations && m.annotations[k] == Owner :: k !in w'.cells[n].live.annotations
  {
    var m := Version(w.cells[n], j);
    HookIsDue(m);
    OthersWait(Apply(w, On(n, Read(j))), ls, n, Active(m, 0, StampHook));
    HookGoesOn(Run(Apply(w, On(n, Read(j))), ls), n, m, a);
  }
}

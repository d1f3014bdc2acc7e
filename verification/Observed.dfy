/** The second the deadlines count from (internal/teardown/reconciler.go:167-181): once on the
    object it stays, exactly as long as no reconcile gets to the gate with a version that lacks
    it, and then all reconciles count from it. */
module Observed {
  import opened Wrappers
  import opened Machines
  import opened Protocol
  import opened Runs
  import opened Conclusions
  import PowerOff
  import History

  predicate HasTime(m: Machine) {
    ObservedAt in m.annotations && m.annotations[ObservedAt].Timestamp?
  }

  predicate Records(m: Machine, t: int) {
    ObservedAt in m.annotations && m.annotations[ObservedAt] == Timestamp(t)
  }

  ghost predicate Reads(w: World, n: string, t: int) {
    n in w.cells && Records(w.cells[n].live, t)
  }

  predicate Observing(at: Point) {
    at.ObserveClock? || at.StampObserved?
  }

  /** A reconcile that reads this version observes the machine anew. */
  ghost predicate Reobserves(m: Machine) {
    GetsToGate(m) && !HasTime(m)
  }

  ghost predicate KeepsTime(pc: Pc) {
    pc.Active? ==> !Observing(pc.at) && (PowerOff.BeforeGate(pc.at) ==> HasTime(pc.m) || !AtOpenWait(pc.m))
  }

  lemma DecideKeeps(m: Machine)
    requires !Reobserves(m)
    ensures KeepsTime(Decide(m))
  {
  }

  lemma PatchTime(live: Machine, m: Machine, at: Point)
    requires IsPatch(at)
    ensures var merged := Merge(live, PatchAt(m, at));
            if at.StampObserved? then Records(merged, at.second) else SameOn(live.annotations, merged.annotations, ObservedAt)
  {
  }

  lemma AdvanceKeeps(cfg: Config, now: nat, m: Machine, obs: int, at: Point, a: Answer)
    requires KeepsTime(Active(m, obs, at))
    ensures KeepsTime(Advance(cfg, now, m, obs, at, a))
  {
    if IsPatch(at) {
      PatchedWait(m, at);
      PatchTime(m, m, at);
    }
  }

  /** Where the second a reconcile counts from comes from. */
  lemma AdvanceCounts(cfg: Config, now: nat, m: Machine, obs: int, at: Point, a: Answer)
    ensures var pc := Advance(cfg, now, m, obs, at, a);
            pc.Active? && History.CountsFrom(pc.at) ==>
              || (History.CountsFrom(at) && pc.obs == obs)
              || (at.StampObserved? && a.Ok? && pc.obs == at.second)
              || Records(m, pc.obs)
  {
  }

  lemma AdvanceCopy(cfg: Config, now: nat, m: Machine, obs: int, at: Point, a: Answer)
    ensures var pc := Advance(cfg, now, m, obs, at, a);
            pc.Active? ==> if IsPatch(at) then a.Ok? && pc.m == Patched(m, at) else pc.m == m
  {
    if IsPatch(at) {
      AdvancePatched(cfg, now, m, obs, at, a);
    }
  }

  lemma AdvancePatched(cfg: Config, now: nat, m: Machine, obs: int, at: Point, a: Answer)
    requires IsPatch(at)
    ensures var pc := Advance(cfg, now, m, obs, at, a); pc.Active? ==> a.Ok? && pc.m == Patched(m, at)
  {
  }

  // ------------------------------------------------------------------------ the invariant

  ghost predicate Counted(live: Machine, pc: Pc) {
    pc.Active? && History.CountsFrom(pc.at) ==> Records(live, pc.obs)
  }

  ghost predicate AsRecorded(live: Machine, m: Machine) {
    HasTime(m) ==> Records(live, m.annotations[ObservedAt].seconds)
  }

  ghost predicate TimeInv(c: Cell) {
    && (forall v | v in c.past :: AsRecorded(c.live, v))
    && (HasTime(c.live) ==> KeepsTime(c.pc))
    && (c.pc.Active? ==> AsRecorded(c.live, c.pc.m)) && Counted(c.live, c.pc)
    && (forall e | e in c.trace && e.Did? :: Counted(c.live, e.pc))
  }

  /** The act reads no version with which the machine would be observed anew. */
  ghost predicate ShowsTime(c: Cell, act: Act) {
    act.Read? && HasTime(c.live) ==> !Reobserves(Version(c, act.k))
  }

  /** What a reply does to the record: a first stamp, or nothing. */
  lemma ReplyRecord(cfg: Config, now: nat, c: Cell, a: Answer)
    requires TimeInv(c) && c.pc.Active?
    ensures var live' := StepReply(cfg, now, c, a).live;
            && (forall t | Records(c.live, t) :: Records(live', t))
            && (c.pc.at.StampObserved? && Effective(a) ==> Records(live', c.pc.at.second))
            && (!(c.pc.at.StampObserved? && Effective(a)) ==> SameOn(c.live.annotations, live'.annotations, ObservedAt))
  {
    if IsPatch(c.pc.at) {
      PatchTime(c.live, c.pc.m, c.pc.at);
    }
  }

  lemma ReplyPc(cfg: Config, now: nat, c: Cell, a: Answer)
    requires TimeInv(c) && c.pc.Active?
    ensures var c' := StepReply(cfg, now, c, a);
            && (HasTime(c'.live) ==> KeepsTime(c'.pc))
            && (c'.pc.Active? ==> AsRecorded(c'.live, c'.pc.m)) && Counted(c'.live, c'.pc)
  {
    var m, obs, at := c.pc.m, c.pc.obs, c.pc.at;
    ReplyRecord(cfg, now, c, a);
    AdvanceCounts(cfg, now, m, obs, at, a);
    AdvanceCopy(cfg, now, m, obs, at, a);
    if IsPatch(at) {
      PatchTime(m, m, at);
    }
    if HasTime(c.live) {
      AdvanceKeeps(cfg, now, m, obs, at, a);
    }
  }

  lemma TimeReply(cfg: Config, now: nat, c: Cell, a: Answer)
    requires TimeInv(c) && c.pc.Active?
    ensures TimeInv(StepReply(cfg, now, c, a))
  {
    var c' := StepReply(cfg, now, c, a);
    ReplyRecord(cfg, now, c, a);
    ReplyPc(cfg, now, c, a);
    forall v | v in c'.past ensures AsRecorded(c'.live, v) {
      assert v in c.past ==> AsRecorded(c.live, v);
    }
    forall e | e in c'.trace && e.Did? ensures Counted(c'.live, e.pc) {
      assert e in c.trace ==> Counted(c.live, e.pc);
      assert Counted(c.live, c.pc);
    }
  }

  lemma TimeStep(cfg: Config, now: nat, c: Cell, act: Act)
    requires TimeInv(c) && ShowsTime(c, act)
    ensures TimeInv(StepCell(cfg, now, c, act))
    ensures forall t | Records(c.live, t) :: Records(StepCell(cfg, now, c, act).live, t)
  {
    if act.Reply? && c.pc.Active? {
      TimeReply(cfg, now, c, act.answer);
      ReplyRecord(cfg, now, c, act.answer);
    } else if act.Read? && c.pc.Idle? {
      TimeRead(cfg, now, c, act.k);
    } else {
      TimeAside(cfg, now, c, act);
    }
  }

  lemma TimeRead(cfg: Config, now: nat, c: Cell, k: nat)
    requires TimeInv(c) && ShowsTime(c, Read(k)) && c.pc.Idle?
    ensures TimeInv(StepCell(cfg, now, c, Read(k)))
  {
    var m := Version(c, k);
    if HasTime(c.live) {
      DecideKeeps(m);
    }
    assert AsRecorded(c.live, m) by {
      assert k < |c.past| ==> m in c.past;
    }
    DecideCounts(m);
  }

  lemma DecideCounts(m: Machine)
    ensures Decide(m).Active? ==> Decide(m).m == m && (History.CountsFrom(Decide(m).at) ==> Records(m, Decide(m).obs))
  {
  }

  lemma TimeAside(cfg: Config, now: nat, c: Cell, act: Act)
    requires TimeInv(c) && !(act.Reply? && c.pc.Active?) && !(act.Read? && c.pc.Idle?)
    ensures TimeInv(StepCell(cfg, now, c, act))
    ensures SameOn(c.live.annotations, StepCell(cfg, now, c, act).live.annotations, ObservedAt)
  {
    var c' := StepCell(cfg, now, c, act);
    forall v | v in c'.past ensures AsRecorded(c'.live, v) {
      assert v in c.past ==> AsRecorded(c.live, v);
    }
  }

  ghost predicate Shown(w: World, l: Label, n: string) {
    l.On? && l.name == n && n in w.cells ==> ShowsTime(w.cells[n], l.act)
  }

  ghost predicate TimeIn(w: World, n: string) {
    n in w.cells ==> TimeInv(w.cells[n])
  }

  lemma TimeApply(w: World, l: Label, n: string)
    requires TimeIn(w, n) && Shown(w, l, n)
    ensures TimeIn(Apply(w, l), n)
    ensures forall t | Reads(w, n, t) :: Reads(Apply(w, l), n, t)
  {
    if l.On? && l.name == n && n in w.cells {
      TimeStep(w.cfg, w.now, w.cells[n], HeardAct(w, w.cells[n], l.act));
    }
  }

  lemma TimeRun(w: World, ls: seq<Label>, n: string)
    requires TimeIn(w, n) && Throughout(w, ls, (v, l) => Shown(v, l, n))
    ensures TimeIn(Run(w, ls), n)
    ensures forall t | Reads(w, n, t) :: Reads(Run(w, ls), n, t)
  {
    var inv := v => TimeIn(v, n) && forall t | Reads(w, n, t) :: Reads(v, n, t);
    forall v, l | inv(v) && Shown(v, l, n) ensures inv(Apply(v, l)) {
      TimeApply(v, l, n);
    }
    KeptThroughout(Apply, w, ls, (v, l) => Shown(v, l, n), inv);
  }

  // --------------------------------------------------------------------------- theorems

  /** All reconciles of a machine count from the same second, whatever crashed in between, and it is
      the second the object records, over every run in which none of them, once a timestamp is on the
      object, gets to the gate with a version that lacks it. */
  lemma RestartProofDeadlines(cfg: Config, ls: seq<Label>, n: string, i: nat, p: Pc, j: nat, q: Pc)
    requires Throughout(Start(cfg), ls, (v, l) => Shown(v, l, n)) && n in Run(Start(cfg), ls).cells
    requires var trace := Run(Start(cfg), ls).cells[n].trace; History.Call(trace, i, p) && History.Call(trace, j, q)
    requires History.CountsFrom(p.at) && History.CountsFrom(q.at)
    ensures p.obs == q.obs && Reads(Run(Start(cfg), ls), n, p.obs)
  {
    TimeRun(Start(cfg), ls, n);
    var c := Run(Start(cfg), ls).cells[n];
    assert c.trace[i] in c.trace && c.trace[j] in c.trace;
    assert Counted(c.live, p) && Counted(c.live, q);
  }

  // ------------------------------------------------------------------------ exactly when

  lemma KeptReply(cfg: Config, now: nat, c: Cell, a: Answer, t: int)
    requires c.pc.Active? && KeepsTime(c.pc) && Records(c.live, t)
    ensures var c' := StepReply(cfg, now, c, a); KeepsTime(c'.pc) && Records(c'.live, t)
  {
    AdvanceKeeps(cfg, now, c.pc.m, c.pc.obs, c.pc.at, a);
    if IsPatch(c.pc.at) {
      PatchTime(c.live, c.pc.m, c.pc.at);
    }
  }

  ghost predicate Holding(w: World, n: string, t: int) {
    Reads(w, n, t) && KeepsTime(w.cells[n].pc)
  }

  lemma HoldingStep(w: World, l: Label, n: string, t: int)
    requires Holding(w, n, t) && Shown(w, l, n)
    ensures Holding(Apply(w, l), n, t)
  {
    if l.On? && l.name == n {
      var c := w.cells[n];
      if l.act.Reply? && c.pc.Active? {
        KeptReply(w.cfg, w.now, c, Heard(w, c.pc.m, l.act.answer), t);
      } else if l.act.Read? && c.pc.Idle? {
        DecideKeeps(Version(c, l.act.k));
      }
    }
  }

  /** From any state that records a second, with no reconcile under way that would observe the machine
      anew, it is never replaced, as long as no reconcile of the machine gets to the gate with a
      version that lacks it. */
  lemma ObservedAtIsFinal(w: World, ls: seq<Label>, n: string, t: int)
    requires Reads(w, n, t) && KeepsTime(w.cells[n].pc) && Throughout(w, ls, (v, l) => Shown(v, l, n))
    ensures Reads(Run(w, ls), n, t)
  {
    forall v, l | Holding(v, n, t) && Shown(v, l, n) ensures Holding(Apply(v, l), n, t) {
      HoldingStep(v, l, n, t);
    }
    KeptThroughout(Apply, w, ls, (v, l) => Shown(v, l, n), v => Holding(v, n, t));
  }

  lemma HoldingRun(w: World, ls: seq<Label>, n: string, t: int)
    requires Holding(w, n, t) && forall l | l in ls :: NoRead(l, n)
    ensures Reads(Run(w, ls), n, t)
  {
    forall i | 0 <= i < |ls| ensures Shown(Fold(Apply, w, ls[..i]), ls[i], n) {
      assert ls[i] in ls;
    }
    ObservedAtIsFinal(w, ls, n, t);
  }

  lemma ToClock(w0: World, w: World, n: string, m: Machine) returns (w': World, m': Machine)
    requires Reobserves(m) && Stands(w0, w, n, Decide(m))
    ensures Stands(w0, w', n, Active(m', 0, ObserveClock))
  {
    w', m' := w, m;
    if !HasHook(m) {
      w' := Stamped(w0, w, n, m);
      m' := Patched(m, StampHook);
      PatchedWait(m, StampHook);
      PatchTime(m, m, StampHook);
    }
  }

  lemma ReobservedAt(w: World, n: string, m: Machine, s: int)
    requires n in w.cells && w.cells[n].pc == Active(m, 0, StampObserved(s))
    ensures Reads(Apply(w, On(n, Reply(Ok))), n, s)
  {
    PatchTime(w.cells[n].live, m, StampObserved(s));
  }

  /** A reconcile that read such a version can record another second than any given one. */
  lemma Reobserved(w: World, n: string, m: Machine, t: int) returns (w': World)
    requires n in w.cells && w.cells[n].pc == Decide(m) && Reobserves(m)
    ensures CanGo(w, n, w') && !Reads(w', n, t)
  {
    GoNowhere(w, n);
    var m';
    w', m' := ToClock(w, w, n, m);
    var d: nat := if w'.now / NANOS == t then NANOS else 0;
    GoOn(w, n, w', Tick(d));
    w' := Apply(w', Tick(d));
    var s := w'.now / NANOS;
    w' := Answered(w, w', n, m', 0, ObserveClock, Ok);
    ReobservedAt(w', n, m', s);
    GoOn(w, n, w', On(n, Reply(Ok)));
    w' := Apply(w', On(n, Reply(Ok)));
  }

  /** Exactly when a read costs the machine its deadlines.  From any state that records the second
      `t`, with no reconcile of the machine under way: the reconcile that reads the j-th version can
      replace it, without any further read, if and only if that version is at the gate and carries
      no timestamp. */
  lemma ReobservedExactly(w: World, n: string, j: nat, t: int)
    requires Reads(w, n, t) && w.cells[n].pc.Idle?
    ensures (exists ls :: (forall l | l in ls :: NoRead(l, n)) && !Reads(Run(Apply(w, On(n, Read(j))), ls), n, t))
            <==> Reobserves(Version(w.cells[n], j))
  {
    var w1, m := Apply(w, On(n, Read(j))), Version(w.cells[n], j);
    if Reobserves(m) {
      var w' := Reobserved(w1, n, m, t);
      var ls :| (forall l | l in ls :: NoRead(l, n)) && Run(w1, ls) == w';
      assert !Reads(Run(w1, ls), n, t);
    } else {
      DecideKeeps(m);
      forall ls | forall l | l in ls :: NoRead(l, n) ensures Reads(Run(w1, ls), n, t) {
        HoldingRun(w1, ls, n, t);
      }
    }
  }
}

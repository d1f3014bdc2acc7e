/** Fail-open liveness: past their deadlines, machines parked at the gate are all released,
    whatever the Talos nodes answer. */
module Liveness {
  import opened Wrappers
  import opened Machines
  import opened Protocol
  import opened Runs
  import opened Agreement
  import Always
  import Exclusion
  import History
  import PowerOff

  // -------------------------------------------------------------- parked machines

  ghost predicate SamePreTerminateKeys(a: Annotations, b: Annotations) {
    forall k | HasPreTerminatePrefix(k) :: SameOn(a, b, k)
  }

  ghost predicate PastDeadlines(cfg: Config, now: nat, m: Machine) {
    && ObservedAt in m.annotations && m.annotations[ObservedAt].Timestamp?
    && var t := m.annotations[ObservedAt].seconds;
       now > t * 1_000_000_000 + cfg.etcdTimeout && now > t * 1_000_000_000 + cfg.resetTimeout
  }

  /** The machine waits at the gate for this controller alone, past its deadlines. */
  ghost predicate AtGateLate(cfg: Config, now: nat, m: Machine) {
    Hook in m.annotations && Ready(m) && PastDeadlines(cfg, now, m)
  }

  /** A machine parked at the gate, past its deadlines; or one already released. */
  ghost predicate Parked(cfg: Config, now: nat, c: Cell) {
    && c.live.deletion.Some?
    && (HasHook(c.live) ==> AtGateLate(cfg, now, c.live))
    && (!HasHook(c.live) ==> GateOpen(c.live) && ResetConclusion in c.live.annotations && c.pc.Idle?)
    && (c.pc.Active? ==> History.CountsFrom(c.pc.at) && SamePreTerminateKeys(c.live.annotations, c.pc.m.annotations))
  }

  /** The parked machines that are not released yet. */
  ghost function Line(w: World, parked: set<string>): set<string> {
    set n | n in parked && n in w.cells && HasHook(w.cells[n].live)
  }

  /** `m` would go before one of them. */
  ghost predicate AheadOf(w: World, m: Machine, parked: set<string>) {
    exists n :: n in Line(w, parked) && GoesBefore(m, w.cells[n].live)
  }

  /** No control-plane machine of the cluster that is not parked goes before a waiting one. */
  ghost predicate NobodyInFront(w: World, cluster: string, parked: set<string>) {
    forall b | b in w.cells && b !in parked && w.cells[b].live.cluster == cluster && w.cells[b].live.controlPlane ::
      !AheadOf(w, w.cells[b].live, parked)
  }

  ghost predicate ParkedIn(w: World, cluster: string, n: string) {
    && n in w.cells && w.cells[n].live.cluster == cluster
    && CellInv(w.cells[n]) && Parked(w.cfg, w.now, w.cells[n])
  }

  ghost predicate LiveInv(w: World, cluster: string, parked: set<string>) {
    && Always.Inv(w) && NobodyInFront(w, cluster, parked)
    && (forall n | n in parked :: ParkedIn(w, cluster, n))
  }

  // ------------------------------------------------------------------- what is asked

  /** Nobody else holds, adds or drops a pre-terminate hook of a parked machine, and the machine
      controller leaves it parked until it is released. */
  ghost predicate LeavesParked(c: Cell, m: Machine) {
    if HasHook(c.live) then m.conditions == c.live.conditions && SamePreTerminateKeys(c.live.annotations, m.annotations)
    else GateOpen(m)
  }

  /** All that is asked of each step: machines that are not parked join the line behind those that
      are, and parked machines are read as they are and left parked.  Reconciles may crash and calls
      fail, other machines may be read in any version, be deleted and stamped. */
  ghost predicate Calm(w: World, l: Label, cluster: string, parked: set<string>) {
    l.On? && l.name in w.cells ==>
      var c := w.cells[l.name];
      && (l.name !in parked ==>
            forall m | Exclusion.JoinsLine(w, l, m) && m.controlPlane && m.cluster == cluster :: !AheadOf(w, m, parked))
      && (l.name in parked ==>
            (l.act.Read? ==> l.act.k >= |c.past|) && (l.act.Edit? ==> LeavesParked(c, l.act.m)))
  }

  ghost function CalmFor(cluster: string, parked: set<string>): (World, Label) -> bool {
    (w, l) => Calm(w, l, cluster, parked)
  }

  /** The API server answers, and answers with current state; the nodes may answer anything. */
  ghost predicate ServerWorks(w: World, at: Point, a: Answer) {
    && (IsPatch(at) ==> a.Ok?)
    && (at.ReadCluster? ==> a.ClusterIs?)
    && (at.ListTurn? ==> a.Picks? && forall p | p in a.picks && p.0 in w.cells :: p.1 >= |w.cells[p.0].past|)
  }

  /** While one reconcile of `a` runs: it does not crash, and the API server works for it. */
  ghost predicate Smooth(w: World, l: Label, a: string) {
    l.On? && l.name == a && a in w.cells ==>
      !l.act.Crash? && (l.act.Reply? && w.cells[a].pc.Active? ==> ServerWorks(w, w.cells[a].pc.at, l.act.answer))
  }

  // --------------------------------------------------------------- parked stays parked

  lemma SameGate(a: Machine, b: Machine)
    requires SamePreTerminateKeys(a.annotations, b.annotations)
    ensures HasHook(a) == HasHook(b)
    ensures HasOtherPreTerminateHooks(a) == HasOtherPreTerminateHooks(b)
    ensures LegacyHooks(a.annotations) == LegacyHooks(b.annotations)
  {
    assert SameOn(a.annotations, b.annotations, Hook);
    forall k ensures ForeignHook(a.annotations, k) <==> ForeignHook(b.annotations, k) {
      assert k.PreTerminate? ==> SameOn(a.annotations, b.annotations, k);
    }
    History.SameOther(a, b);
    forall k ensures k in LegacyHooks(a.annotations) <==> k in LegacyHooks(b.annotations) {
      assert k.PreTerminate? ==> SameOn(a.annotations, b.annotations, k);
    }
  }

  /** The release patch takes the last pre-terminate key off. */
  lemma ReleaseOpensGate(m: Machine)
    requires !HasOtherPreTerminateHooks(m)
    ensures GateOpen(Patched(m, Release))
  {
    forall k | k in Patched(m, Release).annotations ensures !HasPreTerminatePrefix(k) {
      if k.PreTerminate? {
        assert k !in LegacyHooks(m.annotations);
        assert ForeignHook(m.annotations, k);
      }
    }
  }

  lemma AdvanceCounts(cfg: Config, now: nat, m: Machine, obs: int, at: Point, a: Answer)
    requires History.CountsFrom(at)
    ensures var pc := Advance(cfg, now, m, obs, at, a); pc.Active? ==> History.CountsFrom(pc.at)
    ensures at.Release? ==> Advance(cfg, now, m, obs, at, a).Idle?
  {
  }

  lemma ReleaseParked(cfg: Config, now: nat, c: Cell)
    requires CellInv(c) && Parked(cfg, now, c) && c.pc.Active? && c.pc.at.Release?
    ensures var m := Merge(c.live, PatchAt(c.pc.m, Release));
            !HasHook(m) && GateOpen(m) && ResetConclusion in m.annotations
  {
    SameGate(c.live, c.pc.m);
    ReleaseOpensGate(c.live);
  }

  lemma StampParked(live: Machine, m: Machine, at: Point)
    requires SamePreTerminateKeys(live.annotations, m.annotations) && IsPatch(at) && !at.Release? && !at.StampHook?
    ensures var merged := Merge(live, PatchAt(m, at));
            && SamePreTerminateKeys(live.annotations, merged.annotations)
            && SamePreTerminateKeys(merged.annotations, Patched(m, at).annotations)
            && (!at.StampObserved? ==> SameOn(live.annotations, merged.annotations, ObservedAt))
  {
  }

  /** Whatever the answer, and whether or not the patch took effect. */
  lemma ReplyParked(cfg: Config, now: nat, c: Cell, a: Answer)
    requires CellInv(c) && Parked(cfg, now, c) && c.pc.Active?
    ensures Parked(cfg, now, StepReply(cfg, now, c, a))
    ensures HasHook(StepReply(cfg, now, c, a).live) ==> HasHook(c.live)
  {
    var c' := StepReply(cfg, now, c, a);
    AdvanceCounts(cfg, now, c.pc.m, c.pc.obs, c.pc.at, a);
    PowerOff.AdvanceInv(cfg, now, c.pc.m, c.pc.obs, c.pc.at, a);
    if c.pc.at.Release? {
      ReleaseParked(cfg, now, c);
    } else if IsPatch(c.pc.at) {
      StampParked(c.live, c.pc.m, c.pc.at);
      SameGate(c.live, c'.live);
    }
  }

  lemma ReadParked(cfg: Config, now: nat, c: Cell)
    requires CellInv(c) && Parked(cfg, now, c) && c.pc.Idle?
    ensures HasHook(c.live) ==> Decide(c.live).Active? && Decide(c.live).m == c.live && Decide(c.live).at == ReadCluster
    ensures !HasHook(c.live) ==> Decide(c.live).Idle?
  {
    ReadyExactly(c.live);
  }

  lemma EditParked(cfg: Config, now: nat, c: Cell, m: Machine)
    requires CellInv(c) && Parked(cfg, now, c) && ForeignEdit(c.live, m, c.passed) && LeavesParked(c, m)
    ensures Parked(cfg, now, Write(c, m)) && HasHook(m) == HasHook(c.live)
  {
    if HasHook(c.live) {
      SameGate(c.live, m);
    }
  }

  lemma StepParked(cfg: Config, now: nat, c: Cell, act: Act)
    requires CellInv(c) && Parked(cfg, now, c) && (act.Read? ==> act.k >= |c.past|) && (act.Edit? ==> LeavesParked(c, act.m))
    ensures var c' := StepCell(cfg, now, c, act);
            CellInv(c') && Parked(cfg, now, c') && (HasHook(c'.live) ==> HasHook(c.live))
  {
    StepInv(cfg, now, c, act);
    match act
    case Read(k) => if c.pc.Idle? { ReadParked(cfg, now, c); }
    case Reply(a) => if c.pc.Active? { ReplyParked(cfg, now, c, a); }
    case Crash =>
    case Edit(m) => if ForeignEdit(c.live, m, c.passed) { EditParked(cfg, now, c, m); }
    case Delete(t) =>
    case Pass =>
  }

  lemma HeardKeeps(w: World, c: Cell, act: Act)
    ensures var h := HeardAct(w, c, act); (h.Edit? || h.Read? ==> h == act) && h.Reply? == act.Reply?
  {
  }

  lemma ApplyParked(w: World, l: Label, cluster: string, parked: set<string>, n: string)
    requires LiveInv(w, cluster, parked) && Calm(w, l, cluster, parked) && n in parked
    ensures ParkedIn(Apply(w, l), cluster, n)
    ensures HasHook(Apply(w, l).cells[n].live) ==> HasHook(w.cells[n].live)
    ensures var m, m' := w.cells[n].live, Apply(w, l).cells[n].live; m'.name == m.name && m'.deletion == m.deletion
  {
    assert ParkedIn(w, cluster, n);
    if l.On? && l.name == n {
      var c := w.cells[n];
      HeardKeeps(w, c, l.act);
      StepParked(w.cfg, w.now, c, HeardAct(w, c, l.act));
      Exclusion.PlaceInLine(w.cfg, w.now, c, HeardAct(w, c, l.act));
    }
  }

  lemma LineShrinks(w: World, l: Label, cluster: string, parked: set<string>)
    requires LiveInv(w, cluster, parked) && Calm(w, l, cluster, parked)
    ensures Line(Apply(w, l), parked) <= Line(w, parked)
    ensures forall m :: AheadOf(Apply(w, l), m, parked) ==> AheadOf(w, m, parked)
  {
    var w' := Apply(w, l);
    forall n | n in Line(w', parked) ensures n in Line(w, parked) {
      ApplyParked(w, l, cluster, parked, n);
    }
    forall m | AheadOf(w', m, parked) ensures AheadOf(w, m, parked) {
      var n :| n in Line(w', parked) && GoesBefore(m, w'.cells[n].live);
      ApplyParked(w, l, cluster, parked, n);
      assert n in Line(w, parked) && GoesBefore(m, w.cells[n].live);
    }
  }

  /** A machine outside that goes before someone joined, or did before. */
  lemma OutsiderStays(w: World, l: Label, cluster: string, parked: set<string>, b: string)
    requires LiveInv(w, cluster, parked) && Calm(w, l, cluster, parked)
    requires var w' := Apply(w, l);
             b in w'.cells && b !in parked && w'.cells[b].live.cluster == cluster && w'.cells[b].live.controlPlane
    ensures !AheadOf(w, Apply(w, l).cells[b].live, parked)
  {
    if l.On? && l.name == b && b in w.cells {
      JoinedOrBefore(w, l.act, parked, b);
      Exclusion.PlaceInLine(w.cfg, w.now, w.cells[b], HeardAct(w, w.cells[b], l.act));
    }
  }

  lemma JoinedOrBefore(w: World, act: Act, parked: set<string>, b: string)
    requires b in w.cells
    ensures var m := Apply(w, On(b, act)).cells[b].live;
            AheadOf(w, m, parked) ==> Exclusion.JoinsLine(w, On(b, act), m) || AheadOf(w, w.cells[b].live, parked)
  {
    var c, m := w.cells[b], Apply(w, On(b, act)).cells[b].live;
    Exclusion.PlaceInLine(w.cfg, w.now, c, HeardAct(w, c, act));
    if AheadOf(w, m, parked) && !Exclusion.JoinsLine(w, On(b, act), m) {
      var n :| n in Line(w, parked) && GoesBefore(m, w.cells[n].live);
      assert GoesBefore(c.live, w.cells[n].live);
    }
  }

  lemma ApplyLive(w: World, l: Label, cluster: string, parked: set<string>)
    requires LiveInv(w, cluster, parked) && Calm(w, l, cluster, parked)
    ensures LiveInv(Apply(w, l), cluster, parked)
    ensures Line(Apply(w, l), parked) <= Line(w, parked)
  {
    Always.ApplyInv(w, l);
    LineShrinks(w, l, cluster, parked);
    var w' := Apply(w, l);
    forall n | n in parked ensures ParkedIn(w', cluster, n) {
      ApplyParked(w, l, cluster, parked, n);
    }
    forall b | b in w'.cells && b !in parked && w'.cells[b].live.cluster == cluster && w'.cells[b].live.controlPlane
      ensures !AheadOf(w', w'.cells[b].live, parked)
    {
      OutsiderStays(w, l, cluster, parked, b);
    }
  }

  // ------------------------------------------------------------- the first in line moves

  /** No waiting machine goes before `a`, which is parked. */
  ghost predicate First(w: World, parked: set<string>, a: string) {
    a in parked && a in w.cells && forall b | b in Line(w, parked) :: !GoesBefore(w.cells[b].live, w.cells[a].live)
  }

  ghost predicate Leads(w: World, cluster: string, parked: set<string>, a: string) {
    LiveInv(w, cluster, parked) && First(w, parked, a)
  }

  /** Released, or on the way there. */
  ghost predicate OnTrack(w: World, a: string) {
    a in w.cells && (HasHook(w.cells[a].live) ==> w.cells[a].pc.Active?)
  }

  lemma FirstIsNotHeld(w: World, cluster: string, parked: set<string>, a: string, picks: seq<(string, nat)>)
    requires Leads(w, cluster, parked, a) && w.cells[a].pc.Active? && w.cells[a].pc.at.ListTurn?
    requires forall x | x in picks && x.0 in w.cells :: x.1 >= |w.cells[x.0].past|
    ensures !Held(w.cells[a].pc.m, Listing(w.cells, w.cells[a].pc.m.cluster, picks))
  {
    assert ParkedIn(w, cluster, a);
    var m := w.cells[a].pc.m;
    forall p | p in Listing(w.cells, m.cluster, picks) ensures !GoesBefore(p, m) {
      Exclusion.ListedIsLive(w, m.cluster, picks, p);
      var b :| b in w.cells && p == w.cells[b].live && p.cluster == m.cluster && p.controlPlane;
      NotInFront(w, cluster, parked, a, b);
    }
  }

  lemma NotInFront(w: World, cluster: string, parked: set<string>, a: string, b: string)
    requires Leads(w, cluster, parked, a) && w.cells[a].pc.Active?
    requires b in w.cells && w.cells[b].live.cluster == cluster && w.cells[b].live.controlPlane
    ensures !GoesBefore(w.cells[b].live, w.cells[a].pc.m)
  {
    assert ParkedIn(w, cluster, a);
    assert HasHook(w.cells[a].live) && a in Line(w, parked);
    if GoesBefore(w.cells[b].live, w.cells[a].pc.m) {
      assert GoesBefore(w.cells[b].live, w.cells[a].live);
      assert b in parked ==> b in Line(w, parked);
      assert b !in parked ==> AheadOf(w, w.cells[b].live, parked);
    }
  }

  /** Past the deadlines, with the server working and no one ahead, every call leads on. */
  lemma AdvanceLeadsOn(cfg: Config, now: nat, m: Machine, obs: int, at: Point, a: Answer)
    requires HasHook(m) && History.CountsFrom(at) && !at.Release?
    requires Expired(now, obs, cfg.etcdTimeout) && Expired(now, obs, cfg.resetTimeout)
    requires IsPatch(at) ==> a.Ok?
    requires at.ReadCluster? ==> a.ClusterIs?
    requires at.ListTurn? ==> a.Machines? && !Held(m, a.machines)
    ensures Advance(cfg, now, m, obs, at, a).Active?
  {
  }

  lemma ReleaseReply(w: World, a: string)
    requires a in w.cells && CellInv(w.cells[a]) && Parked(w.cfg, w.now, w.cells[a])
    requires w.cells[a].pc.Active? && w.cells[a].pc.at.Release?
    ensures OnTrack(Apply(w, On(a, Reply(Ok))), a)
  {
    ReleaseParked(w.cfg, w.now, w.cells[a]);
  }

  lemma LeadsOn(w: World, a: string, answer: Answer)
    requires a in w.cells && CellInv(w.cells[a]) && Parked(w.cfg, w.now, w.cells[a])
    requires w.cells[a].pc.Active? && !w.cells[a].pc.at.Release? && ServerWorks(w, w.cells[a].pc.at, answer)
    requires var m := w.cells[a].pc.m;
             w.cells[a].pc.at.ListTurn? ==> !Held(m, Listing(w.cells, m.cluster, answer.picks))
    ensures OnTrack(Apply(w, On(a, Reply(answer))), a)
  {
    var c := w.cells[a];
    AdvanceLeadsOn(w.cfg, w.now, c.pc.m, c.pc.obs, c.pc.at, Heard(w, c.pc.m, answer));
  }

  lemma FirstReply(w: World, cluster: string, parked: set<string>, a: string, answer: Answer)
    requires Leads(w, cluster, parked, a) && w.cells[a].pc.Active? && ServerWorks(w, w.cells[a].pc.at, answer)
    ensures OnTrack(Apply(w, On(a, Reply(answer))), a)
  {
    assert ParkedIn(w, cluster, a);
    if w.cells[a].pc.at.Release? {
      ReleaseReply(w, a);
    } else {
      if w.cells[a].pc.at.ListTurn? {
        FirstIsNotHeld(w, cluster, parked, a, answer.picks);
      }
      LeadsOn(w, a, answer);
    }
  }

  /** The reconcile of the first in line begins, or goes on. */
  lemma FirstStaysOnTrack(w: World, l: Label, cluster: string, parked: set<string>, a: string)
    requires Leads(w, cluster, parked, a) && Calm(w, l, cluster, parked) && Smooth(w, l, a)
    requires OnTrack(w, a) || (l.On? && l.name == a && l.act.Read? && w.cells[a].pc.Idle?)
    ensures OnTrack(Apply(w, l), a)
  {
    assert ParkedIn(w, cluster, a);
    if l.On? && l.name == a {
      if l.act.Reply? && w.cells[a].pc.Active? {
        FirstReply(w, cluster, parked, a, l.act.answer);
      } else {
        AsideStaysOnTrack(w.cfg, w.now, w.cells[a], l.act);
      }
    }
  }

  lemma AsideStaysOnTrack(cfg: Config, now: nat, c: Cell, act: Act)
    requires CellInv(c) && Parked(cfg, now, c) && !act.Crash? && !(act.Reply? && c.pc.Active?)
    requires (act.Read? ==> act.k >= |c.past|) && (act.Edit? ==> LeavesParked(c, act.m))
    requires HasHook(c.live) ==> c.pc.Active? || act.Read?
    ensures var c' := StepCell(cfg, now, c, act); HasHook(c'.live) ==> c'.pc.Active?
  {
    match act
    case Read(k) => if c.pc.Idle? { ReadParked(cfg, now, c); }
    case Reply(answer) =>
    case Edit(m) => if ForeignEdit(c.live, m, c.passed) { EditParked(cfg, now, c, m); }
    case Delete(t) =>
    case Pass =>
  }

  lemma FirstStaysFirst(w: World, l: Label, cluster: string, parked: set<string>, a: string)
    requires Leads(w, cluster, parked, a) && Calm(w, l, cluster, parked)
    ensures Leads(Apply(w, l), cluster, parked, a)
  {
    var w' := Apply(w, l);
    ApplyLive(w, l, cluster, parked);
    ApplyParked(w, l, cluster, parked, a);
    forall b | b in Line(w', parked) ensures !GoesBefore(w'.cells[b].live, w'.cells[a].live) {
      ApplyParked(w, l, cluster, parked, b);
      assert b in Line(w, parked);
      assert !GoesBefore(w.cells[b].live, w.cells[a].live);
    }
  }

  // ----------------------------------------------------------------------------- rounds

  ghost predicate IdleAt(w: World, a: string) {
    a in w.cells && w.cells[a].pc.Idle?
  }

  ghost predicate ReadsAt(w: World, ls: seq<Label>, a: string, i: nat) {
    i < |ls| && ls[i].On? && ls[i].name == a && ls[i].act.Read? && IdleAt(Run(w, ls[..i]), a)
  }

  /** One whole reconcile of `a`, begun at the i-th label and over after the j-th, during which it
      does not crash and the API server works for it.  (That it ends at all, if its calls are
      answered, is `Termination.EveryReconcileEnds`.) */
  ghost predicate Reconciles(w: World, ls: seq<Label>, a: string, i: nat, j: nat) {
    && i < j <= |ls| && ReadsAt(w, ls, a, i) && IdleAt(Run(w, ls[..j]), a)
    && AllBetween(Apply, w, ls, (v, l) => Smooth(v, l, a), i, j)
  }

  /** Every waiting machine gets one whole reconcile, in whatever interleaving, and after however
      many that came to nothing. */
  ghost predicate FairRound(w: World, ls: seq<Label>, cluster: string, parked: set<string>) {
    && Throughout(w, ls, CalmFor(cluster, parked))
    && forall a | a in Line(w, parked) :: exists i, j :: Reconciles(w, ls, a, i, j)
  }

  lemma LeadsKept(cluster: string, parked: set<string>, a: string)
    ensures Kept(Apply, CalmFor(cluster, parked), v => Leads(v, cluster, parked, a))
  {
    forall v, l | Leads(v, cluster, parked, a) && Calm(v, l, cluster, parked) ensures Leads(Apply(v, l), cluster, parked, a) {
      FirstStaysFirst(v, l, cluster, parked, a);
    }
  }

  ghost function CalmAndSmooth(cluster: string, parked: set<string>, a: string): (World, Label) -> bool {
    (w, l) => Calm(w, l, cluster, parked) && Smooth(w, l, a)
  }

  lemma OnTrackKept(cluster: string, parked: set<string>, a: string)
    ensures Kept(Apply, CalmAndSmooth(cluster, parked, a), v => Leads(v, cluster, parked, a) && OnTrack(v, a))
  {
    forall v, l | Leads(v, cluster, parked, a) && OnTrack(v, a) && Calm(v, l, cluster, parked) && Smooth(v, l, a)
      ensures Leads(Apply(v, l), cluster, parked, a) && OnTrack(Apply(v, l), a)
    {
      FirstStaysFirst(v, l, cluster, parked, a);
      FirstStaysOnTrack(v, l, cluster, parked, a);
    }
  }

  lemma LineKept(cluster: string, parked: set<string>, line: set<string>)
    ensures Kept(Apply, CalmFor(cluster, parked), v => LiveInv(v, cluster, parked) && Line(v, parked) <= line)
  {
    forall v, l | LiveInv(v, cluster, parked) && Calm(v, l, cluster, parked)
      ensures LiveInv(Apply(v, l), cluster, parked) && Line(Apply(v, l), parked) <= Line(v, parked)
    {
      ApplyLive(v, l, cluster, parked);
    }
  }

  lemma CalmRunLive(w: World, ls: seq<Label>, cluster: string, parked: set<string>)
    requires LiveInv(w, cluster, parked) && Throughout(w, ls, CalmFor(cluster, parked))
    ensures LiveInv(Run(w, ls), cluster, parked)
    ensures Line(Run(w, ls), parked) <= Line(w, parked)
  {
    LineKept(cluster, parked, Line(w, parked));
    KeptThroughout(Apply, w, ls, CalmFor(cluster, parked), v => LiveInv(v, cluster, parked) && Line(v, parked) <= Line(w, parked));
  }

  lemma LeadsAt(w: World, ls: seq<Label>, cluster: string, parked: set<string>, a: string, i: nat)
    requires Leads(w, cluster, parked, a) && Throughout(w, ls, CalmFor(cluster, parked)) && i <= |ls|
    ensures Leads(Run(w, ls[..i]), cluster, parked, a)
  {
    LeadsKept(cluster, parked, a);
    assert ls[..0] == [];
    KeptBetween(Apply, w, ls, CalmFor(cluster, parked), v => Leads(v, cluster, parked, a), 0, i);
  }

  /** A reconcile of the first in line takes it out of the line. */
  lemma ReconcileReleases(w: World, ls: seq<Label>, cluster: string, parked: set<string>, a: string, i: nat, j: nat)
    requires Leads(w, cluster, parked, a) && Throughout(w, ls, CalmFor(cluster, parked)) && Reconciles(w, ls, a, i, j)
    ensures LiveInv(Run(w, ls[..j]), cluster, parked) && a !in Line(Run(w, ls[..j]), parked)
  {
    var both := CalmAndSmooth(cluster, parked, a);
    LeadsAt(w, ls, cluster, parked, a, i);
    LeadsAt(w, ls, cluster, parked, a, i + 1);
    FoldStep(Apply, w, ls, i);
    assert both(Run(w, ls[..i]), ls[i]);
    FirstStaysOnTrack(Run(w, ls[..i]), ls[i], cluster, parked, a);
    OnTrackKept(cluster, parked, a);
    assert AllBetween(Apply, w, ls, both, i + 1, j);
    KeptBetween(Apply, w, ls, both, v => Leads(v, cluster, parked, a) && OnTrack(v, a), i + 1, j);
  }

  lemma StaysReleased(w: World, ls: seq<Label>, cluster: string, parked: set<string>, a: string, j: nat)
    requires Throughout(w, ls, CalmFor(cluster, parked)) && j <= |ls|
    requires LiveInv(Run(w, ls[..j]), cluster, parked) && a !in Line(Run(w, ls[..j]), parked)
    ensures a !in Line(Run(w, ls), parked)
  {
    var line := Line(Run(w, ls[..j]), parked);
    LineKept(cluster, parked, line);
    KeptBetween(Apply, w, ls, CalmFor(cluster, parked), v => LiveInv(v, cluster, parked) && Line(v, parked) <= line, j, |ls|);
    assert ls[..|ls|] == ls;
  }

  lemma SomeoneIsFirst(w: World, cluster: string, parked: set<string>) returns (a: string)
    requires LiveInv(w, cluster, parked) && Line(w, parked) != {}
    ensures a in Line(w, parked) && Leads(w, cluster, parked, a)
  {
    var machines := set n | n in Line(w, parked) :: w.cells[n].live;
    var x :| x in Line(w, parked);
    assert w.cells[x].live in machines;
    assert forall n | n in Line(w, parked) :: ParkedIn(w, cluster, n);
    var m := Exclusion.SomeonePasses(machines);
    a :| a in Line(w, parked) && w.cells[a].live == m;
  }

  /** One fair round releases the first in line, and puts nobody in. */
  lemma RoundReleases(w: World, ls: seq<Label>, cluster: string, parked: set<string>)
    requires LiveInv(w, cluster, parked) && FairRound(w, ls, cluster, parked) && Line(w, parked) != {}
    ensures LiveInv(Run(w, ls), cluster, parked)
    ensures Line(Run(w, ls), parked) < Line(w, parked)
  {
    var a := SomeoneIsFirst(w, cluster, parked);
    var i, j :| Reconciles(w, ls, a, i, j);
    ReconcileReleases(w, ls, cluster, parked, a, i, j);
    CalmRunLive(w, ls, cluster, parked);
    StaysReleased(w, ls, cluster, parked, a, j);
  }

  ghost function RunRounds(w: World, rounds: seq<seq<Label>>): World
    decreases |rounds|
  {
    if rounds == [] then w else RunRounds(Run(w, rounds[0]), rounds[1..])
  }

  ghost predicate FairRounds(w: World, rounds: seq<seq<Label>>, cluster: string, parked: set<string>)
    decreases |rounds|
  {
    rounds == [] || (FairRound(w, rounds[0], cluster, parked) && FairRounds(Run(w, rounds[0]), rounds[1..], cluster, parked))
  }

  /** As many fair rounds as machines wait release them all, with no pre-terminate key left on
      any of them. */
  lemma {:induction false} AllReleased(w: World, rounds: seq<seq<Label>>, cluster: string, parked: set<string>)
    requires LiveInv(w, cluster, parked) && FairRounds(w, rounds, cluster, parked)
    requires |Line(w, parked)| <= |rounds|
    ensures Line(RunRounds(w, rounds), parked) == {}
    ensures forall n | n in parked :: n in RunRounds(w, rounds).cells && GateOpen(RunRounds(w, rounds).cells[n].live)
    decreases |rounds|
  {
    if rounds == [] {
      forall n | n in parked ensures n in w.cells && GateOpen(w.cells[n].live) {
        assert ParkedIn(w, cluster, n) && n !in Line(w, parked);
      }
    } else {
      var w' := Run(w, rounds[0]);
      if Line(w, parked) == {} {
        CalmRunLive(w, rounds[0], cluster, parked);
      } else {
        RoundReleases(w, rounds[0], cluster, parked);
        Smaller(Line(w', parked), Line(w, parked));
      }
      AllReleased(w', rounds[1..], cluster, parked);
    }
  }

  lemma Smaller<T>(a: set<T>, b: set<T>)
    requires a < b
    ensures |a| < |b|
  {
    var x :| x in b && x !in a;
    assert a <= b - {x};
    SmallerOrEqual(a, b - {x});
  }

  lemma {:induction false} SmallerOrEqual<T>(a: set<T>, b: set<T>)
    requires a <= b
    ensures |a| <= |b|
  {
    if a != {} {
      var x :| x in a;
      SmallerOrEqual(a - {x}, b - {x});
    }
  }

  /** What holds of every run is enough to start from. */
  lemma ParkedFromAlways(cfg: Config, now: nat, c: Cell)
    requires Always.CellInv(c) && c.pc.Idle? && AtGateLate(cfg, now, c.live)
    ensures CellInv(c) && Parked(cfg, now, c)
  {
  }

  /** The theorem.  After any run, whatever was read in it: let `parked` be machines of a cluster that
      wait at the gate past their deadlines, none of them being reconciled, with no other
      control-plane machine of the cluster in front of them.  As many fair rounds as they are, in which
      nobody joins in front, release them all. */
  lemma FailOpen(cfg: Config, ls: seq<Label>, cluster: string, parked: set<string>, rounds: seq<seq<Label>>)
    requires var w := Run(Start(cfg), ls);
             && (forall n | n in parked ::
                   n in w.cells && w.cells[n].live.cluster == cluster && w.cells[n].pc.Idle?
                   && AtGateLate(w.cfg, w.now, w.cells[n].live))
             && NobodyInFront(w, cluster, parked)
             && FairRounds(w, rounds, cluster, parked)
    requires |parked| <= |rounds|
    ensures var w := RunRounds(Run(Start(cfg), ls), rounds);
            forall n | n in parked :: n in w.cells && !HasHook(w.cells[n].live) && GateOpen(w.cells[n].live)
  {
    Always.RunInv(cfg, ls);
    var w := Run(Start(cfg), ls);
    forall n | n in parked ensures ParkedIn(w, cluster, n) {
      ParkedFromAlways(w.cfg, w.now, w.cells[n]);
    }
    assert Line(w, parked) == parked;
    AllReleased(w, rounds, cluster, parked);
    forall n | n in parked ensures !HasHook(RunRounds(w, rounds).cells[n].live) {
      assert n !in Line(RunRounds(w, rounds), parked);
    }
  }
}

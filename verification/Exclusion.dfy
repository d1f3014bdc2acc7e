/** One etcd operation at a time: `serializeControlPlane` (reconciler.go:294-310). */
module Exclusion {
  import opened Wrappers
  import opened Machines
  import opened Ordering
  import opened Protocol
  import opened Runs
  import Always
  import PowerOff

  // ------------------------------------------------------------- one snapshot

  ghost predicate DeletingHooked(s: set<Machine>) {
    && (forall m | m in s :: m.deletion.Some? && HasHook(m))
    && (forall a, b | a in s && b in s && a.name == b.name :: a == b)
  }

  ghost predicate PassesTest(m: Machine, s: set<Machine>) {
    forall p | p in s :: !GoesBefore(p, m)
  }

  lemma GoesBeforeTransitive(a: Machine, b: Machine, c: Machine)
    requires GoesBefore(a, b) && GoesBefore(b, c) && a.name != c.name
    ensures GoesBefore(a, c)
  {
    BeforeTransitive(a.deletion.value, a.name, b.deletion.value, b.name, c.deletion.value, c.name);
  }

  lemma {:induction false} SomeonePasses(s: set<Machine>) returns (m: Machine)
    requires s != {} && DeletingHooked(s)
    ensures m in s && PassesTest(m, s)
  {
    var x :| x in s;
    m := x;
    var rest := s - {x};
    if rest == {} {
      assert s == {x};
    } else {
      var r := SomeonePasses(rest);
      BeforeTotal(x.deletion.value, x.name, r.deletion.value, r.name);
      BeforeAsymmetric(x.deletion.value, x.name, r.deletion.value, r.name);
      m := if GoesBefore(x, r) then x else r;
      forall p | p in s ensures !GoesBefore(p, m) {
        if p in rest && m == x && GoesBefore(p, x) {
          GoesBeforeTransitive(p, x, r);
        }
      }
    }
  }

  /** In any snapshot exactly one of the deleting, hooked machines passes the test. */
  lemma ExactlyOnePasses(s: set<Machine>)
    requires s != {} && DeletingHooked(s)
    ensures exists m :: m in s && PassesTest(m, s) && forall o | o in s && PassesTest(o, s) :: o == m
  {
    var m := SomeonePasses(s);
    forall o | o in s && PassesTest(o, s) ensures o == m {
      BeforeTotal(m.deletion.value, m.name, o.deletion.value, o.name);
      assert !GoesBefore(m, o) && !GoesBefore(o, m);
    }
  }

  // --------------------------------------------------------------- whole runs

  /** Some reconcile found it to be this machine's turn, and no etcd conclusion is persisted
      yet.  Crashes, failures and retries do not end it. */
  ghost predicate Holder(c: Cell) {
    c.turn && EtcdConclusion !in c.live.annotations
  }

  ghost predicate Siblings(a: Cell, b: Cell) {
    a.live.name != b.live.name && a.live.cluster == b.live.cluster && b.live.controlPlane
  }

  ghost predicate Unconcluded(m: Machine) {
    EtcdConclusion !in m.annotations
  }

  ghost predicate Goes(w: World, b: string, a: string) {
    && a in w.cells && b in w.cells && Siblings(w.cells[a], w.cells[b])
    && Unconcluded(w.cells[b].live) && GoesBefore(w.cells[b].live, w.cells[a].live)
  }

  /** A sibling that still has its etcd phase to do goes before `a`. */
  ghost predicate SomeoneAhead(w: World, a: string) {
    exists b :: Goes(w, b, a)
  }

  /** Nobody goes before a machine of the cluster whose turn it is. */
  ghost predicate HoldersFirst(w: World, cluster: string) {
    forall a | a in w.cells && w.cells[a].live.cluster == cluster && Holder(w.cells[a]) :: !SomeoneAhead(w, a)
  }

  ghost predicate ExclusionInv(w: World, cluster: string) {
    Always.Inv(w) && HoldersFirst(w, cluster)
  }

  ghost predicate AtPoint(w: World, l: Label, at: Point) {
    l.On? && l.name in w.cells && l.act.Reply? && w.cells[l.name].pc.Active? && w.cells[l.name].pc.at == at
  }

  /** The list the turn is decided on holds the current version of every sibling. */
  ghost predicate CompleteList(w: World, l: Label) {
    AtPoint(w, l, ListTurn) && l.act.answer.Picks? ==>
      forall b | b in w.cells && Siblings(w.cells[l.name], w.cells[b]) ::
        exists k :: (b, k) in l.act.answer.picks && k >= |w.cells[b].past|
  }

  ghost predicate StampsLate(w: World, l: Label) {
    AtPoint(w, l, StampHook) && Effective(l.act.answer) && w.cells[l.name].live.deletion.Some?
  }

  /** The machine a late stamp or a deletion puts in line. */
  ghost predicate JoinsLine(w: World, l: Label, m: Machine) {
    && l.On? && l.name in w.cells
    && var c := w.cells[l.name];
       || (StampsLate(w, l) && m == Merge(c.live, PatchAt(c.pc.m, StampHook)))
       || (l.act.Delete? && c.live.deletion.None? && m == c.live.(deletion := Some(l.act.time)))
  }

  /** A machine that joins the line with its etcd phase to do does so behind every sibling whose
      turn it is. */
  ghost predicate JoinsBehind(w: World, l: Label) {
    forall m, a | JoinsLine(w, l, m) && Unconcluded(m) && a in w.cells && Holder(w.cells[a])
                  && Siblings(w.cells[a], w.cells[l.name]) ::
      !GoesBefore(m, w.cells[a].live)
  }

  /** The list a machine with its etcd phase to do gets, while someone is ahead of it, shows it
      someone to wait for. */
  ghost predicate HoldsBack(w: World, l: Label) {
    AtPoint(w, l, ListTurn) && l.act.answer.Picks? && Unconcluded(w.cells[l.name].live) && SomeoneAhead(w, l.name) ==>
      Held(w.cells[l.name].pc.m, Listing(w.cells, w.cells[l.name].pc.m.cluster, l.act.answer.picks))
  }

  /** What is asked of the machines of one cluster.  Their reconciles may read whatever version of
      their own machine, and other clusters may do as they please. */
  ghost predicate Orderly(w: World, l: Label, cluster: string) {
    l.On? && l.name in w.cells && w.cells[l.name].live.cluster == cluster ==> HoldsBack(w, l) && JoinsBehind(w, l)
  }

  ghost function OrderlyIn(cluster: string): (World, Label) -> bool {
    (w, l) => Orderly(w, l, cluster)
  }

  lemma {:induction false} Listed(cells: map<string, Cell>, cluster: string, picks: seq<(string, nat)>, b: string, k: nat)
    requires (b, k) in picks && b in cells
    requires Version(cells[b], k).cluster == cluster && Version(cells[b], k).controlPlane
    ensures Version(cells[b], k) in Listing(cells, cluster, picks)
  {
    if picks[0] != (b, k) {
      Listed(cells, cluster, picks[1..], b, k);
    }
  }

  lemma {:induction false} ListedIsLive(w: World, cluster: string, picks: seq<(string, nat)>, p: Machine)
    requires p in Listing(w.cells, cluster, picks)
    requires forall x | x in picks && x.0 in w.cells :: x.1 >= |w.cells[x.0].past|
    ensures exists b :: b in w.cells && p == w.cells[b].live && p.cluster == cluster && p.controlPlane
  {
    var (name, k) := picks[0];
    assert picks[0] in picks;
    if name in w.cells && p == Version(w.cells[name], k) && p.cluster == cluster && p.controlPlane {
    } else {
      assert forall x | x in picks[1..] :: x in picks;
      ListedIsLive(w, cluster, picks[1..], p);
    }
  }

  /** What one act can do to a machine's place in line. */
  lemma PlaceInLine(cfg: Config, now: nat, c: Cell, act: Act)
    ensures var c' := StepCell(cfg, now, c, act);
            && c'.live.name == c.live.name && c'.live.cluster == c.live.cluster && c'.live.controlPlane == c.live.controlPlane
            && (!act.Delete? ==> c'.live.deletion == c.live.deletion)
            && (c.live.deletion.Some? ==> c'.live.deletion == c.live.deletion)
            && (EtcdConclusion in c.live.annotations ==> EtcdConclusion in c'.live.annotations)
            && (HasHook(c'.live) && !HasHook(c.live) ==> act.Reply? && c.pc.Active? && c.pc.at == StampHook && Effective(act.answer))
            && (c'.turn && !c.turn ==>
                  act.Reply? && c.pc.Active? && c.pc.at == ListTurn && act.answer.Machines? && !Held(c.pc.m, act.answer.machines)
                  && c'.live == c.live)
  {
    if act.Reply? && c.pc.Active? && IsPatch(c.pc.at) {
      MergedPlace(c.live, c.pc.m, c.pc.at);
    }
  }

  lemma MergedPlace(live: Machine, m: Machine, at: Point)
    requires IsPatch(at)
    ensures var merged := Merge(live, PatchAt(m, at));
            && merged == live.(annotations := merged.annotations)
            && (EtcdConclusion in live.annotations ==> EtcdConclusion in merged.annotations)
            && (HasHook(merged) && !HasHook(live) ==> at == StampHook)
  {
  }

  /** A list with the current version of every sibling will do. */
  lemma CompleteHoldsBack(w: World, l: Label)
    requires PowerOff.Inv(w) && CompleteList(w, l)
    ensures HoldsBack(w, l)
  {
    if AtPoint(w, l, ListTurn) && l.act.answer.Picks? && SomeoneAhead(w, l.name) {
      var c := w.cells[l.name];
      var b :| Goes(w, b, l.name);
      var k :| (b, k) in l.act.answer.picks && k >= |w.cells[b].past|;
      Listed(w.cells, c.pc.m.cluster, l.act.answer.picks, b, k);
      assert PowerOff.PointInv(c.pc.m, ListTurn);
      assert GoesBefore(w.cells[b].live, c.pc.m);
    }
  }

  lemma OnKeepsFirst(w: World, l: Label, cluster: string, a: string, b: string)
    requires ExclusionInv(w, cluster) && Orderly(w, l, cluster) && l.On? && l.name in w.cells
    requires a in w.cells && w.cells[a].live.cluster == cluster && Holder(Apply(w, l).cells[a])
    ensures !Goes(Apply(w, l), b, a)
  {
    var c := w.cells[l.name];
    PlaceInLine(w.cfg, w.now, c, HeardAct(w, c, l.act));
    if Goes(Apply(w, l), b, a) {
      if a == l.name {
        assert Goes(w, b, a);
      } else if b == l.name {
        BehindHolder(w, l, a);
      } else {
        assert Goes(w, b, a);
      }
    }
  }

  lemma BehindHolder(w: World, l: Label, a: string)
    requires JoinsBehind(w, l) && l.On? && l.name in w.cells && a in w.cells && a != l.name
    requires Holder(w.cells[a]) && !SomeoneAhead(w, a)
    ensures !Goes(Apply(w, l), l.name, a)
  {
    var c := w.cells[l.name];
    PlaceInLine(w.cfg, w.now, c, HeardAct(w, c, l.act));
    if Goes(Apply(w, l), l.name, a) {
      assert !Goes(w, l.name, a);
      assert JoinsLine(w, l, Apply(w, l).cells[l.name].live);
    }
  }

  lemma ApplyKeeps(w: World, l: Label, cluster: string)
    requires ExclusionInv(w, cluster) && Orderly(w, l, cluster)
    ensures ExclusionInv(Apply(w, l), cluster)
  {
    Always.ApplyInv(w, l);
    var w' := Apply(w, l);
    forall a, b | a in w'.cells && w'.cells[a].live.cluster == cluster && Holder(w'.cells[a]) ensures !Goes(w', b, a) {
      if l.On? && l.name in w.cells {
        PlaceInLine(w.cfg, w.now, w.cells[l.name], HeardAct(w, w.cells[l.name], l.act));
        OnKeepsFirst(w, l, cluster, a, b);
      } else if Goes(w', b, a) {
        OtherStep(w, l, b, a);
      }
    }
  }

  /** A machine that comes to be is not deleting. */
  lemma OtherStep(w: World, l: Label, b: string, a: string)
    requires !l.On? && Goes(Apply(w, l), b, a) && Holder(Apply(w, l).cells[a])
    ensures Goes(w, b, a) && Holder(w.cells[a]) && w.cells[a].live == Apply(w, l).cells[a].live
  {
  }

  ghost predicate AtMostOneHolder(w: World, cluster: string) {
    forall a, b | a in w.cells && b in w.cells && w.cells[a].live.cluster == cluster && w.cells[b].live.cluster == cluster ::
      Holder(w.cells[a]) && Holder(w.cells[b]) ==> a == b
  }

  lemma HoldersFirstExcludes(w: World, cluster: string)
    requires ExclusionInv(w, cluster)
    ensures AtMostOneHolder(w, cluster)
  {
    forall a, b | a in w.cells && b in w.cells && w.cells[a].live.cluster == cluster && w.cells[b].live.cluster == cluster
                  && Holder(w.cells[a]) && Holder(w.cells[b])
      ensures a == b
    {
      if a != b {
        OneGoesFirst(w, a, b);
        assert false;
      }
    }
  }

  lemma OneGoesFirst(w: World, a: string, b: string)
    requires Always.Inv(w) && a in w.cells && b in w.cells && a != b && w.cells[a].live.cluster == w.cells[b].live.cluster
    requires Holder(w.cells[a]) && Holder(w.cells[b])
    ensures Goes(w, a, b) || Goes(w, b, a)
  {
    var x, y := w.cells[a].live, w.cells[b].live;
    BeforeTotal(x.deletion.value, x.name, y.deletion.value, y.name);
  }

  lemma RunKeeps(w: World, ls: seq<Label>, cluster: string)
    requires ExclusionInv(w, cluster) && Throughout(w, ls, OrderlyIn(cluster))
    ensures ExclusionInv(Run(w, ls), cluster) && AtMostOneHolder(Run(w, ls), cluster)
  {
    forall v, l | ExclusionInv(v, cluster) && Orderly(v, l, cluster) ensures ExclusionInv(Apply(v, l), cluster) {
      ApplyKeeps(v, l, cluster);
    }
    KeptThroughout(Apply, w, ls, OrderlyIn(cluster), v => ExclusionInv(v, cluster));
    HoldersFirstExcludes(Run(w, ls), cluster);
  }

  /** Over every concurrent run in which the machines of a cluster are held back while someone is
      ahead of them, and join the line behind those whose turn it is, at most one of them is between
      passing the test and its etcd conclusion -- whatever versions of themselves they read, and
      whatever goes on elsewhere. */
  lemma MutualExclusion(cfg: Config, ls: seq<Label>, cluster: string, a: string, b: string)
    requires Throughout(Start(cfg), ls, OrderlyIn(cluster))
    requires var w := Run(Start(cfg), ls);
             && a in w.cells && b in w.cells && w.cells[a].live.cluster == cluster && w.cells[b].live.cluster == cluster
             && Holder(w.cells[a]) && Holder(w.cells[b])
    ensures a == b
  {
    RunKeeps(Start(cfg), ls, cluster);
  }
}

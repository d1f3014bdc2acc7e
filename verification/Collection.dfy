/** What garbage collection takes (internal/teardown/credentials.go:108-159), with an informer
    cache that lags behind. */
module Collection {
  import opened Wrappers
  import opened Machines
  import opened Credentials
  import opened CacheSafety
  import opened Runs

  /** The first moment of the window in which a check begun at `since` is answered, by a cache at
      most `lag` moments behind. */
  function From(since: nat, lag: nat): nat {
    if since < lag then 0 else since - lag
  }

  /** At some moment from `first` on there was no such Cluster. */
  ghost predicate Absent(w: World, c: ClusterKey, first: nat) {
    exists i :: first <= i <= |w.past| && c !in SceneAt(w, i).clusters
  }

  /** At some moment from `first` on no qualifying Machine of the cluster was there. */
  ghost predicate Unneeded(w: World, c: ClusterKey, first: nat) {
    exists i :: first <= i <= |w.past| && NoMachine(SceneAt(w, i), c)
  }

  /** No Talos machine on Tinkerbell infrastructure in the cluster's namespace names the cluster. */
  ghost predicate NoMachine(s: Scene, c: ClusterKey) {
    forall x | x in s.machines :: !(x.0 == c.namespace && x.1.cluster == c.name && Ours(x.1))
  }

  lemma NeededExactly(s: Scene, c: ClusterKey)
    ensures NeedsCopy(s, c) <==> !NoMachine(s, c)
  {
  }

  ghost predicate SweepInv(w: World, p: Proc, lag: nat) {
    match p
    case CheckCluster(items, since) => since <= |w.past|
    case CheckMachines(items, since) => since <= |w.past| && items != [] && Absent(w, items[0].cluster, From(since, lag))
    case DeleteCopy(items, since) =>
      && since <= |w.past| && items != []
      && Absent(w, items[0].cluster, From(since, lag)) && Unneeded(w, items[0].cluster, From(since, lag))
    case _ => true
  }

  ghost predicate GcInv(w: World, q: nat, lag: nat) {
    Inv(w) && SweepInv(w, ProcOf(w, q), lag)
  }

  /** The informer cache is at most `lag` moments older than the check it serves. */
  ghost predicate Serves(w: World, l: Label, lag: nat) {
    l.Reply? ==>
      var p := ProcOf(w, l.pid);
      p.CheckCluster? || p.CheckMachines? ==> l.k + lag >= p.since
  }

  lemma SweepStays(w: World, w': World, p: Proc, lag: nat)
    requires SweepInv(w, p, lag) && |w.past| <= |w'.past|
    requires forall i | 0 <= i <= |w.past| :: SceneAt(w', i) == SceneAt(w, i)
    ensures SweepInv(w', p, lag)
  {
    if p.CheckMachines? || p.DeleteCopy? {
      var i :| From(p.since, lag) <= i <= |w.past| && p.items[0].cluster !in SceneAt(w, i).clusters;
      assert SceneAt(w', i) == SceneAt(w, i);
    }
    if p.DeleteCopy? {
      var i :| From(p.since, lag) <= i <= |w.past| && NoMachine(SceneAt(w, i), p.items[0].cluster);
      assert SceneAt(w', i) == SceneAt(w, i);
    }
  }

  lemma SweepAdvance(w: World, p: Proc, k: nat, lag: nat)
    requires SweepInv(w, p, lag) && ((p.CheckCluster? || p.CheckMachines?) ==> k + lag >= p.since)
    ensures SweepInv(w, Advance(w, p, k), lag)
  {
    var i := if k < |w.past| then k else |w.past|;
    assert SceneAt(w, k) == SceneAt(w, i);
  }

  lemma ScenesStay(w: World, l: Label)
    ensures |w.past| <= |Apply(w, l).past|
    ensures forall i | 0 <= i <= |w.past| :: SceneAt(Apply(w, l), i) == SceneAt(w, i)
  {
  }

  ghost predicate ServesTo(w: World, l: Label, q: nat, lag: nat) {
    l.Reply? && l.pid == q ==> Serves(w, l, lag)
  }

  lemma SweepStepped(w: World, l: Label, q: nat, lag: nat)
    requires GcInv(w, q, lag) && ServesTo(w, l, q, lag)
    ensures SweepInv(w, ProcOf(Apply(w, l), q), lag)
  {
    if l.Reply? && l.pid == q {
      SweepAdvance(w, ProcOf(w, q), l.k, lag);
    }
  }

  lemma GcStep(w: World, l: Label, q: nat, lag: nat)
    requires GcInv(w, q, lag) && ServesTo(w, l, q, lag)
    ensures GcInv(Apply(w, l), q, lag)
  {
    ApplyInv(w, l);
    ScenesStay(w, l);
    SweepStepped(w, l, q, lag);
    SweepStays(w, Apply(w, l), ProcOf(Apply(w, l), q), lag);
  }

  lemma GcRun(ls: seq<Label>, q: nat, lag: nat)
    requires Throughout(START, ls, (w, l) => ServesTo(w, l, q, lag))
    ensures GcInv(Run(START, ls), q, lag)
  {
    forall w, l | GcInv(w, q, lag) && ServesTo(w, l, q, lag) ensures GcInv(Apply(w, l), q, lag) {
      GcStep(w, l, q, lag);
    }
    KeptThroughout(Apply, START, ls, (w, l) => ServesTo(w, l, q, lag), w => GcInv(w, q, lag));
  }

  /** In every run in which the informer cache that serves a collection is at most `lag` moments
      behind: it deletes a copy only if, from `lag` moments before it began to check it, there was a
      moment without the Cluster and a moment without any qualifying Machine of it.  With a cache that
      has caught up (`lag` 0), a copy whose Cluster is there throughout the check, or some qualifying
      Machine at each moment of it, survives. */
  lemma TakesOnlyTheGone(ls: seq<Label>, l: Label, name: string, lag: nat)
    requires l.Reply? && Throughout(START, ls, (w, x) => ServesTo(w, x, l.pid, lag))
    requires name in Run(START, ls).cache && name !in Apply(Run(START, ls), l).cache
    requires NoneCollides(Run(START, ls), Run(START, ls).cache[name].cluster)
    ensures var w := Run(START, ls);
            var p, c := ProcOf(w, l.pid), w.cache[name].cluster;
            p.DeleteCopy? && Absent(w, c, From(p.since, lag)) && Unneeded(w, c, From(p.since, lag))
  {
    GcRun(ls, l.pid, lag);
    var w := Run(START, ls);
    var p := ProcOf(w, l.pid);
    assert p.DeleteCopy? && p.items[0].name == name;
    assert ItemInv(w, p.items[0]) && CopyInv(w, name, w.cache[name]);
    var s :| (p.items[0].cluster, s) in w.published;
    assert (p.items[0].cluster, s).0 in Players(w);
  }

  // ------------------------------------------------------------------- exactly the gone

  ghost predicate Answers(ls: seq<Label>, pid: nat) {
    forall l | l in ls :: l.Reply? && l.pid == pid
  }

  /** These answers, from a cache at most `lag` moments behind, end with the deletion of the copy
      that is being checked. */
  ghost predicate Takes(w: World, pid: nat, lag: nat, ls: seq<Label>, l: Label) {
    && ProcOf(w, pid).CheckCluster? && ProcOf(w, pid).items != []
    && Answers(ls, pid) && Throughout(w, ls, (v, l) => Serves(v, l, lag))
    && var p := ProcOf(w, pid);
       && ProcOf(Run(w, ls), pid) == DeleteCopy(p.items, p.since)
       && l.Reply? && l.pid == pid && p.items[0].name !in Apply(Run(w, ls), l).cache
  }

  ghost predicate SameScene(w: World, v: World) {
    v.scene == w.scene && v.past == w.past
  }

  lemma AnswerStep(w: World, v: World, l: Label, pid: nat, lag: nat)
    requires SameScene(w, v) && SweepInv(v, ProcOf(v, pid), lag) && l.Reply? && l.pid == pid && Serves(v, l, lag)
    ensures SameScene(w, Apply(v, l)) && SweepInv(Apply(v, l), ProcOf(Apply(v, l), pid), lag)
  {
    SweepAdvance(v, ProcOf(v, pid), l.k, lag);
    var p' := ProcOf(Apply(v, l), pid);
    assert SweepInv(v, p', lag);
    ScenesStay(v, l);
    SweepStays(v, Apply(v, l), p', lag);
  }

  lemma TakenIsGone(w: World, pid: nat, lag: nat, ls: seq<Label>, l: Label)
    requires Takes(w, pid, lag, ls, l) && ProcOf(w, pid).since <= |w.past|
    ensures var p := ProcOf(w, pid);
            Absent(w, p.items[0].cluster, From(p.since, lag)) && Unneeded(w, p.items[0].cluster, From(p.since, lag))
  {
    var p := ProcOf(w, pid);
    var inv := v => SameScene(w, v) && SweepInv(v, ProcOf(v, pid), lag);
    var allowed := (v, l: Label) => l.Reply? && l.pid == pid && Serves(v, l, lag);
    forall v, l: Label | inv(v) && allowed(v, l) ensures inv(Apply(v, l)) {
      AnswerStep(w, v, l, pid, lag);
    }
    forall i | 0 <= i < |ls| ensures allowed(Fold(Apply, w, ls[..i]), ls[i]) {
      assert ls[i] in ls;
    }
    KeptThroughout(Apply, w, ls, allowed, inv);
    var v := Run(w, ls);
    SweepStays(v, w, DeleteCopy(p.items, p.since), lag);
  }

  lemma AbsentAnswered(w: World, pid: nat, items: seq<Item>, since: nat, i: nat)
    requires ProcOf(w, pid) == CheckCluster(items, since) && items != [] && items[0].cluster !in SceneAt(w, i).clusters
    ensures var w' := Apply(w, Reply(pid, Ok, i)); ProcOf(w', pid) == CheckMachines(items, since) && SameScene(w, w')
  {
  }

  lemma UnneededAnswered(w: World, pid: nat, items: seq<Item>, since: nat, j: nat)
    requires ProcOf(w, pid) == CheckMachines(items, since) && items != [] && !NeedsCopy(SceneAt(w, j), items[0].cluster)
    ensures ProcOf(Apply(w, Reply(pid, Ok, j)), pid) == DeleteCopy(items, since)
  {
  }

  lemma DeleteAnswered(w: World, pid: nat, items: seq<Item>, since: nat)
    requires ProcOf(w, pid) == DeleteCopy(items, since) && items != []
    ensures items[0].name !in Apply(w, Reply(pid, Ok, 0)).cache
  {
  }

  lemma GoneIsTaken(w: World, pid: nat, lag: nat) returns (ls: seq<Label>, l: Label)
    requires ProcOf(w, pid).CheckCluster? && ProcOf(w, pid).items != []
    requires var p := ProcOf(w, pid);
             Absent(w, p.items[0].cluster, From(p.since, lag)) && Unneeded(w, p.items[0].cluster, From(p.since, lag))
    ensures Takes(w, pid, lag, ls, l)
  {
    var p := ProcOf(w, pid);
    var first := From(p.since, lag);
    var i :| first <= i <= |w.past| && p.items[0].cluster !in SceneAt(w, i).clusters;
    var j :| first <= j <= |w.past| && NoMachine(SceneAt(w, j), p.items[0].cluster);
    var serves := (v, l) => Serves(v, l, lag);
    var l1, l2 := Reply(pid, Ok, i), Reply(pid, Ok, j);
    AbsentAnswered(w, pid, p.items, p.since, i);
    var w1 := Apply(w, l1);
    assert SceneAt(w1, j) == SceneAt(w, j);
    UnneededAnswered(w1, pid, p.items, p.since, j);
    DeleteAnswered(Apply(w1, l2), pid, p.items, p.since);
    assert Fold(Apply, w, []) == w;
    Extended(Apply, w, [], serves, l1);
    Extended(Apply, w, [] + [l1], serves, l2);
    ls, l := [] + [l1] + [l2], Reply(pid, Ok, 0);
  }

  /** What a collection about to check a copy can come to, left to itself with an informer cache at
      most `lag` moments behind: some answers make it delete the copy if and only if in that window
      there was a moment without the Cluster and a moment without any qualifying Machine of it. */
  lemma TakesExactly(w: World, pid: nat, lag: nat)
    requires ProcOf(w, pid).CheckCluster? && ProcOf(w, pid).items != [] && ProcOf(w, pid).since <= |w.past|
    ensures var p := ProcOf(w, pid);
            (exists ls, l :: Takes(w, pid, lag, ls, l))
            <==> Absent(w, p.items[0].cluster, From(p.since, lag)) && Unneeded(w, p.items[0].cluster, From(p.since, lag))
  {
    var p := ProcOf(w, pid);
    if Absent(w, p.items[0].cluster, From(p.since, lag)) && Unneeded(w, p.items[0].cluster, From(p.since, lag)) {
      var ls, l := GoneIsTaken(w, pid, lag);
    } else {
      forall ls, l ensures !Takes(w, pid, lag, ls, l) {
        if Takes(w, pid, lag, ls, l) {
          TakenIsGone(w, pid, lag, ls, l);
        }
      }
    }
  }

  // ------------------------------------------------------------------ a cache that lags

  ghost function Sweeping(c: ClusterKey, p: Proc): World {
    FirstCopy(c).(scene := Scene({c}, []), past := [Scene({}, [])], procs := map[0 := Ensured(c, Some(Source("y", 0))), 1 := p])
  }

  lemma SweepList(c: ClusterKey, w: World)
    requires w == FirstCopy(c).(scene := Scene({c}, []), past := [Scene({}, [])])
    ensures Apply(w, List(1, [CachedName(c)])) == Sweeping(c, CheckCluster([Item(CachedName(c), c)], 1))
  {
    assert ItemsOf(w.cache, [CachedName(c)][1..]) == [];
    assert ItemsOf(w.cache, [CachedName(c)]) == [Item(CachedName(c), c)];
  }

  lemma SweepStarts(c: ClusterKey)
    ensures Reachable(Sweeping(c, CheckCluster([Item(CachedName(c), c)], 1)), {c})
  {
    var w := FirstCopy(c).(scene := Scene({c}, []), past := [Scene({}, [])]);
    FirstCopyReachable(c);
    Reach(FirstCopy(c), Stage(Scene({c}, [])), {c});
    assert Apply(FirstCopy(c), Stage(Scene({c}, []))) == w;
    Reach(w, List(1, [CachedName(c)]), {c});
    SweepList(c, w);
  }

  /** Both checks are answered with the first scene, in which nothing was there. */
  lemma SweepStep(c: ClusterKey, items: seq<Item>)
    requires items == [Item(CachedName(c), c)]
    ensures Apply(Sweeping(c, CheckCluster(items, 1)), Reply(1, Ok, 0)) == Sweeping(c, CheckMachines(items, 1))
    ensures Apply(Sweeping(c, CheckMachines(items, 1)), Reply(1, Ok, 0)) == Sweeping(c, DeleteCopy(items, 1))
  {
    assert forall p :: SceneAt(Sweeping(c, p), 0) == Scene({}, []);
  }

  lemma SweepChecks(c: ClusterKey)
    ensures Reachable(Sweeping(c, DeleteCopy([Item(CachedName(c), c)], 1)), {c})
  {
    var items := [Item(CachedName(c), c)];
    SweepStarts(c);
    SweepStep(c, items);
    Reach(Sweeping(c, CheckCluster(items, 1)), Reply(1, Ok, 0), {c});
    Reach(Sweeping(c, CheckMachines(items, 1)), Reply(1, Ok, 0), {c});
  }

  /** Why the informer cache must have caught up: served the scene from before the Cluster came,
      a collection deletes its copy although the Cluster is there throughout the check. */
  lemma StaleScene(c: ClusterKey) returns (ls: seq<Label>, l: Label)
    ensures var w := Run(START, ls);
            && l.Reply? && ProcOf(w, l.pid).DeleteCopy?
            && CachedName(c) in w.cache && CachedName(c) !in Apply(w, l).cache
            && forall i | ProcOf(w, l.pid).since <= i <= |w.past| :: c in SceneAt(w, i).clusters
  {
    SweepChecks(c);
    l := Reply(1, Ok, 0);
    ls :| (forall l | l in ls :: InPlay(l, {c})) && Run(START, ls) == Sweeping(c, DeleteCopy([Item(CachedName(c), c)], 1));
  }
}

/** The cache agrees with its sources, and collection takes nothing that is needed
    (internal/teardown/credentials.go:42-159). */
module CacheSafety {
  import opened Wrappers
  import opened Credentials
  import opened Runs

  // ------------------------------------------------------------------- colliding names

  /** `b`'s namespace swallows a dash and a piece of `a`'s name. */
  ghost predicate Shifted(a: ClusterKey, b: ClusterKey) {
    exists mid :: ShiftedBy(a, b, mid)
  }

  ghost predicate ShiftedBy(a: ClusterKey, b: ClusterKey, mid: string) {
    b.namespace == a.namespace + "-" + mid && a.name == mid + "-" + b.name
  }

  lemma ShiftedCollides(a: ClusterKey, b: ClusterKey)
    requires Shifted(a, b)
    ensures CachedName(a) == CachedName(b)
  {
    var mid :| ShiftedBy(a, b, mid);
    assert a.namespace + "-" + (mid + "-" + b.name) == a.namespace + "-" + mid + "-" + b.name;
    SameTail(a, b);
  }

  function Tail(c: ClusterKey): string {
    c.namespace + "-" + c.name
  }

  lemma SameTail(a: ClusterKey, b: ClusterKey)
    ensures CachedName(a) == CachedName(b) <==> Tail(a) == Tail(b)
  {
    assert CachedName(a) == "talosconfig-" + Tail(a) && CachedName(b) == "talosconfig-" + Tail(b);
    assert CachedName(a)[12..] == Tail(a) && CachedName(b)[12..] == Tail(b);
  }

  lemma LongerNamespace(a: ClusterKey, b: ClusterKey)
    requires Tail(a) == Tail(b) && |a.namespace| < |b.namespace|
    ensures Shifted(a, b)
  {
    var n, m := |a.namespace|, |b.namespace|;
    var mid := b.namespace[n + 1..];
    assert b.namespace == Tail(a)[..m] && a.namespace == Tail(a)[..n] && Tail(a)[n] == '-';
    assert a.name == Tail(a)[n + 1..] && b.name == Tail(a)[m + 1..] && Tail(b)[m] == '-';
    assert b.namespace == a.namespace + "-" + mid;
    assert a.name == mid + "-" + b.name;
    assert ShiftedBy(a, b, mid);
  }

  /** Two clusters share a cache name exactly when they are the same, or one's namespace is the
      other's with a dash and the beginning of its name shifted in. */
  lemma CollisionExact(a: ClusterKey, b: ClusterKey)
    ensures CachedName(a) == CachedName(b) <==> a == b || Shifted(a, b) || Shifted(b, a)
  {
    SameTail(a, b);
    if Shifted(a, b) {
      ShiftedCollides(a, b);
    } else if Shifted(b, a) {
      ShiftedCollides(b, a);
    } else if Tail(a) == Tail(b) {
      if |a.namespace| < |b.namespace| {
        LongerNamespace(a, b);
      } else if |b.namespace| < |a.namespace| {
        LongerNamespace(b, a);
      } else {
        assert a.namespace == Tail(a)[..|a.namespace|] && b.namespace == Tail(b)[..|b.namespace|];
        assert a.name == Tail(a)[|a.namespace| + 1..] && b.name == Tail(b)[|b.namespace| + 1..];
      }
    }
  }

  lemma DashCollision()
    ensures CachedName(ClusterKey("a-b", "c")) == CachedName(ClusterKey("a", "b-c"))
  {
    assert ShiftedBy(ClusterKey("a", "b-c"), ClusterKey("a-b", "c"), "b");
    ShiftedCollides(ClusterKey("a", "b-c"), ClusterKey("a-b", "c"));
  }

  ghost predicate NoCollision(clusters: set<ClusterKey>) {
    forall a, b | a in clusters && b in clusters && CachedName(a) == CachedName(b) :: a == b
  }

  // ------------------------------------------------------------------------ invariants

  ghost predicate Known(w: World, c: ClusterKey) {
    exists s :: (c, s) in w.published
  }

  ghost predicate CopyInv(w: World, name: string, copy: Copy) {
    && name == CachedName(copy.cluster)
    && (copy.cluster, Source(copy.data, copy.tag)) in w.published
  }

  ghost predicate ItemInv(w: World, i: Item) {
    i.name == CachedName(i.cluster) && Known(w, i.cluster)
  }

  ghost predicate ProcInv(w: World, p: Proc) {
    match p
    case ReadCopy(c, s) => (c, s) in w.published
    case CreateCopy(c, s) => (c, s) in w.published
    case UpdateCopy(c, s, v) => (c, s) in w.published
    case Ensured(c, found) => found.Some? ==> (c, found.value) in w.published
    case CheckCluster(items, since) => forall i | i in items :: ItemInv(w, i)
    case CheckMachines(items, since) => forall i | i in items :: ItemInv(w, i)
    case DeleteCopy(items, since) => forall i | i in items :: ItemInv(w, i)
    case _ => true
  }

  ghost predicate SourcesInv(w: World) {
    && (forall c | c in w.sources :: (c, w.sources[c]) in w.published)
    && (forall x, y | x in w.published && y in w.published && x.0 == y.0 && x.1.version == y.1.version :: x == y)
  }

  ghost predicate Inv(w: World) {
    && SourcesInv(w)
    && (forall name | name in w.cache :: CopyInv(w, name, w.cache[name]))
    && (forall pid | pid in w.procs :: ProcInv(w, w.procs[pid]))
  }

  lemma {:induction false} ListedItems(w: World, names: seq<string>)
    requires Inv(w)
    ensures forall i | i in ItemsOf(w.cache, names) :: ItemInv(w, i)
  {
    if names != [] {
      ListedItems(w, names[1..]);
      if names[0] in w.cache {
        assert CopyInv(w, names[0], w.cache[names[0]]);
      }
    }
  }

  lemma PublishInv(w: World, c: ClusterKey, s: Source)
    requires Inv(w) && NewVersion(w, c, s)
    ensures Inv(Apply(w, Publish(c, s)))
  {
    var w' := Apply(w, Publish(c, s));
    forall pid | pid in w'.procs ensures ProcInv(w', w'.procs[pid]) {
      assert ProcInv(w, w.procs[pid]);
      PublishedGrows(w, w', w.procs[pid]);
    }
  }

  lemma PublishedGrows(w: World, w': World, p: Proc)
    requires ProcInv(w, p) && w.published <= w'.published
    ensures ProcInv(w', p)
  {
    forall i: Item | ItemInv(w, i) ensures ItemInv(w', i) {
      var s :| (i.cluster, s) in w.published;
      assert (i.cluster, s) in w'.published;
    }
  }

  lemma AdvanceInv(w: World, p: Proc, k: nat)
    requires Inv(w) && ProcInv(w, p)
    ensures ProcInv(w, Advance(w, p, k))
  {
  }

  lemma StoreInv(w: World, p: Proc)
    requires Inv(w) && ProcInv(w, p)
    ensures Store(w, p).published == w.published && Store(w, p).sources == w.sources && Store(w, p).procs == w.procs
    ensures Store(w, p).scene == w.scene && Store(w, p).past == w.past
    ensures forall name | name in Store(w, p).cache :: CopyInv(w, name, Store(w, p).cache[name])
  {
  }

  lemma ReplyInv(w: World, pid: nat, outcome: Outcome, k: nat)
    requires Inv(w)
    ensures Inv(Apply(w, Reply(pid, outcome, k)))
  {
    var p, w' := ProcOf(w, pid), Apply(w, Reply(pid, outcome, k));
    if !AtRest(p) {
      StoreInv(w, p);
      AdvanceInv(w, p, k);
      forall q | q in w'.procs ensures ProcInv(w', w'.procs[q]) {
        assert ProcInv(w, w'.procs[q]);
        PublishedGrows(w, w', w'.procs[q]);
      }
    }
  }

  lemma ApplyInv(w: World, l: Label)
    requires Inv(w)
    ensures Inv(Apply(w, l))
  {
    match l
    case Publish(c, s) => if NewVersion(w, c, s) { PublishInv(w, c, s); }
    case Reply(pid, outcome, k) => ReplyInv(w, pid, outcome, k);
    case List(pid, names) => ListedItems(w, names); SameProcs(w, l);
    case _ => SameProcs(w, l);
  }

  lemma SameProcs(w: World, l: Label)
    requires Inv(w) && !l.Publish? && !l.Reply?
    requires l.List? ==> forall i | i in ItemsOf(w.cache, l.names) :: ItemInv(w, i)
    ensures Inv(Apply(w, l))
  {
    var w' := Apply(w, l);
    forall q | q in w'.procs ensures ProcInv(w', w'.procs[q]) {
      ProcStays(w, l, q);
      PublishedGrows(w, w', w'.procs[q]);
    }
  }

  lemma ProcStays(w: World, l: Label, q: nat)
    requires Inv(w) && !l.Publish? && !l.Reply? && q in Apply(w, l).procs
    requires l.List? ==> forall i | i in ItemsOf(w.cache, l.names) :: ItemInv(w, i)
    ensures ProcInv(w, Apply(w, l).procs[q])
  {
  }

  lemma RunInv(ls: seq<Label>)
    ensures Inv(Run(START, ls))
  {
    forall w, l | Inv(w) ensures Inv(Apply(w, l)) {
      ApplyInv(w, l);
    }
    KeptThroughout(Apply, START, ls, (w, l) => true, Inv);
  }

  // --------------------------------------------------------------------- agreement

  ghost function Players(w: World): set<ClusterKey> {
    set x | x in w.published :: x.0
  }

  /** No other cluster that ever had a source shares the cache name of `c`. */
  ghost predicate NoneCollides(w: World, c: ClusterKey) {
    forall b | b in Players(w) && CachedName(b) == CachedName(c) :: b == c
  }

  lemma TagTellsIn(w: World, c: ClusterKey, s: Source)
    requires Inv(w) && NoneCollides(w, c) && (c, s) in w.published
    requires CachedName(c) in w.cache && w.cache[CachedName(c)].tag == s.version
    ensures w.cache[CachedName(c)].cluster == c && w.cache[CachedName(c)].data == s.data
  {
    var copy := w.cache[CachedName(c)];
    var x := (copy.cluster, Source(copy.data, copy.tag));
    assert CopyInv(w, CachedName(c), copy);
    assert x in w.published && x.0 in Players(w);
  }

  /** In every run in which nobody's name collides with the cluster's, a cached copy tagged with a version of the cluster's source
      holds exactly the bytes the source had at that version. */
  lemma TagTells(ls: seq<Label>, c: ClusterKey, s: Source)
    requires NoneCollides(Run(START, ls), c) && (c, s) in Run(START, ls).published
    requires var cache := Run(START, ls).cache; CachedName(c) in cache && cache[CachedName(c)].tag == s.version
    ensures var copy := Run(START, ls).cache[CachedName(c)]; copy.cluster == c && copy.data == s.data
  {
    RunInv(ls);
    TagTellsIn(Run(START, ls), c, s);
  }

  /** The step that ends `pid`'s refresh of `c` with success, having found the source `s`. */
  ghost predicate Ends(w: World, l: Label, c: ClusterKey, s: Source) {
    && l.Reply? && l.outcome.Ok? && !AtRest(ProcOf(w, l.pid))
    && ProcOf(Apply(w, l), l.pid) == Ensured(c, Some(s))
  }

  lemma EndsWithCopy(w: World, l: Label, c: ClusterKey, s: Source)
    requires Inv(w) && NoneCollides(w, c) && Ends(w, l, c, s)
    ensures var w' := Apply(w, l);
            && CachedName(c) in w'.cache && w'.cache[CachedName(c)].cluster == c
            && w'.cache[CachedName(c)].tag == s.version && w'.cache[CachedName(c)].data == s.data
            && w'.published == w.published && w'.sources == w.sources
  {
    var p := ProcOf(w, l.pid);
    if p.ReadCopy? {
      TagTellsIn(w, c, s);
    }
  }

  /** In every run in which nobody's name collides with the cluster's: when a refresh succeeds -- by writing, or by skipping
      the write because the version is the one already cached -- `Config` reads the bytes the
      refresh found if the source is deleted just then, and reads them if it is still live at
      the version found. */
  lemma EnsuredConfig(ls: seq<Label>, l: Label, c: ClusterKey, s: Source)
    requires NoneCollides(Run(START, ls), c) && Ends(Run(START, ls), l, c, s)
    ensures var w := Apply(Run(START, ls), l);
            && Config(Apply(w, Unpublish(c)), c) == Some(s.data)
            && (c in w.sources && w.sources[c].version == s.version ==> Config(w, c) == Some(s.data))
  {
    RunInv(ls);
    var w := Run(START, ls);
    EndsWithCopy(w, l, c, s);
    if c in w.sources && w.sources[c].version == s.version {
      assert ProcInv(w, ProcOf(w, l.pid));
      var x, y := (c, s), (c, w.sources[c]);
      assert x in w.published && y in w.published;
    }
  }

  /** Only these clusters are in play. */
  ghost predicate InPlay(l: Label, clusters: set<ClusterKey>) {
    l.Publish? ==> l.cluster in clusters
  }

  /** Whatever `Config` returns for a cluster, its own source once held. */
  ghost predicate OwnBytes(w: World, c: ClusterKey) {
    Config(w, c).Some? ==> exists v :: (c, Source(Config(w, c).value, v)) in w.published
  }

  lemma PlayersInPlay(ls: seq<Label>, clusters: set<ClusterKey>)
    requires forall l | l in ls :: InPlay(l, clusters)
    ensures Players(Run(START, ls)) <= clusters
  {
    var inv := (w: World) => Players(w) <= clusters;
    forall w: World, l | inv(w) && InPlay(l, clusters) ensures inv(Apply(w, l)) {
      PlayersStep(w, l, clusters);
    }
    KeptThroughout(Apply, START, ls, (w, l) => InPlay(l, clusters), inv);
  }

  lemma PlayersStep(w: World, l: Label, clusters: set<ClusterKey>)
    requires Players(w) <= clusters && InPlay(l, clusters)
    ensures Players(Apply(w, l)) <= clusters
  {
    forall x | x in Apply(w, l).published ensures x.0 in clusters {
      assert x in w.published ==> x.0 in Players(w);
    }
  }

  lemma NoCollisionOwns(ls: seq<Label>, clusters: set<ClusterKey>, c: ClusterKey)
    requires NoCollision(clusters) && c in clusters && forall l | l in ls :: InPlay(l, clusters)
    ensures OwnBytes(Run(START, ls), c)
  {
    RunInv(ls);
    PlayersInPlay(ls, clusters);
    var w := Run(START, ls);
    if c in w.sources {
      assert (c, Source(w.sources[c].data, w.sources[c].version)) in w.published;
    } else if CachedName(c) in w.cache {
      var copy := w.cache[CachedName(c)];
      assert CopyInv(w, CachedName(c), copy);
      var x := (copy.cluster, Source(copy.data, copy.tag));
      assert x in w.published && x.0 in Players(w);
    }
  }

  ghost predicate Reachable(w: World, clusters: set<ClusterKey>) {
    exists ls :: (forall l | l in ls :: InPlay(l, clusters)) && Run(START, ls) == w
  }

  lemma Reach(w: World, l: Label, clusters: set<ClusterKey>)
    requires Reachable(w, clusters) && InPlay(l, clusters)
    ensures Reachable(Apply(w, l), clusters)
  {
    var ls :| (forall l | l in ls :: InPlay(l, clusters)) && Run(START, ls) == w;
    Extended(Apply, START, ls, (v, m) => true, l);
    assert Run(START, ls + [l]) == Apply(w, l);
  }

  ghost function Begun(c: ClusterKey, cache: map<string, Copy>, p: Proc): World {
    START.(sources := map[c := Source("y", 0)], published := {(c, Source("y", 0))},
           cache := cache, version := |cache|, procs := map[0 := p])
  }

  lemma RefreshStarts(c: ClusterKey)
    ensures Reachable(Begun(c, map[], ReadSource(c)), {c})
  {
    assert Run(START, []) == START;
    Reach(START, Publish(c, Source("y", 0)), {c});
    Reach(Apply(START, Publish(c, Source("y", 0))), Ensure(0, c), {c});
    assert Apply(Apply(START, Publish(c, Source("y", 0))), Ensure(0, c)) == Begun(c, map[], ReadSource(c));
  }

  lemma RefreshReads(c: ClusterKey)
    ensures Reachable(Begun(c, map[], CreateCopy(c, Source("y", 0))), {c})
  {
    RefreshStarts(c);
    Reach(Begun(c, map[], ReadSource(c)), Reply(0, Ok, 0), {c});
    assert Apply(Begun(c, map[], ReadSource(c)), Reply(0, Ok, 0)) == Begun(c, map[], ReadCopy(c, Source("y", 0)));
    Reach(Begun(c, map[], ReadCopy(c, Source("y", 0))), Reply(0, Ok, 0), {c});
    assert Apply(Begun(c, map[], ReadCopy(c, Source("y", 0))), Reply(0, Ok, 0)) == Begun(c, map[], CreateCopy(c, Source("y", 0)));
  }

  /** The world right after the first refresh of the only cluster with a source. */
  ghost function FirstCopy(c: ClusterKey): World {
    Begun(c, map[CachedName(c) := Copy(c, 0, "y", 0)], Ensured(c, Some(Source("y", 0))))
  }

  lemma FirstCopyReachable(c: ClusterKey)
    ensures Reachable(FirstCopy(c), {c})
  {
    RefreshReads(c);
    Reach(Begun(c, map[], CreateCopy(c, Source("y", 0))), Reply(0, Ok, 0), {c});
    assert Apply(Begun(c, map[], CreateCopy(c, Source("y", 0))), Reply(0, Ok, 0)) == FirstCopy(c);
  }

  /** A cluster that never had a source reads the bytes of one whose name collides with it. */
  lemma CollisionLeaks(a: ClusterKey, b: ClusterKey) returns (ls: seq<Label>)
    requires a != b && CachedName(a) == CachedName(b)
    ensures (forall l | l in ls :: InPlay(l, {b})) && !OwnBytes(Run(START, ls), a)
  {
    FirstCopyReachable(b);
    ls :| (forall l | l in ls :: InPlay(l, {b})) && Run(START, ls) == FirstCopy(b);
    assert Config(FirstCopy(b), a) == Some("y");
  }

  /** Over every run in which only `clusters` have sources, `Config` returns only bytes of the
      cluster asked about, exactly when no two of their names collide. */
  lemma AgreementExactly(clusters: set<ClusterKey>)
    ensures (forall ls, c | (forall l | l in ls :: InPlay(l, clusters)) && c in clusters :: OwnBytes(Run(START, ls), c))
            <==> NoCollision(clusters)
  {
    if NoCollision(clusters) {
      forall ls, c | (forall l | l in ls :: InPlay(l, clusters)) && c in clusters ensures OwnBytes(Run(START, ls), c) {
        NoCollisionOwns(ls, clusters, c);
      }
    } else {
      var a, b :| a in clusters && b in clusters && CachedName(a) == CachedName(b) && a != b;
      var ls := CollisionLeaks(a, b);
      assert forall l | l in ls :: InPlay(l, clusters);
    }
  }
}

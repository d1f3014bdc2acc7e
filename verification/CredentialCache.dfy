/** `Ensure`, `Config` and `GC` as the source writes them.  Whatever they do, interleaved with
    anything else at every call, is a run of the transition system. */
module CredentialCache {
  import opened Wrappers
  import opened Machines
  import opened Credentials
  import opened Runs

  predicate OwnStep(l: Label, pid: nat) {
    (l.Ensure? || l.List? || l.Reply? || l.Crash?) && l.pid == pid
  }

  lemma OthersLeaveProc(w: World, l: Label, pid: nat)
    requires !OwnStep(l, pid)
    ensures ProcOf(Apply(w, l), pid) == ProcOf(w, pid)
  {
  }

  /** Nobody else did anything, and the informer cache served nothing older than `moment`. */
  ghost predicate Undisturbed(labels: seq<Label>, pid: nat, moment: nat) {
    forall i | 0 <= i < |labels| :: OwnStep(labels[i], pid) && (labels[i].Reply? ==> labels[i].k >= moment)
  }

  ghost predicate Extends(more: seq<Label>, labels: seq<Label>) {
    |labels| <= |more| && more[..|labels|] == labels
  }

  /** How a refresh that went well ended: it found no source; or the copy carries the version it
      found, with the bytes it found if it wrote them, and then no write came after. */
  ghost predicate Refreshed(w: World, pid: nat, cluster: ClusterKey, wrote: bool, found: Option<Source>) {
    && ProcOf(w, pid) == Ensured(cluster, found) && (wrote ==> found.Some?)
    && (found.Some? ==>
          && CachedName(cluster) in w.cache
          && var copy := w.cache[CachedName(cluster)];
             && copy.tag == found.value.version
             && (wrote ==> copy.cluster == cluster && copy.data == found.value.data && copy.version + 1 == w.version))
  }

  /** The Cluster is not there, nor any qualifying Machine of it. */
  ghost predicate Gone(s: Scene, c: ClusterKey) {
    c !in s.clusters && forall x | x in s.machines :: !(x.0 == c.namespace && x.1.cluster == c.name && Ours(x.1))
  }

  ghost function Survivors(w: World): map<string, Copy> {
    map name | name in w.cache && !Gone(w.scene, w.cache[name].cluster) :: w.cache[name]
  }

  lemma {:induction false} ItemsAll(cache: map<string, Copy>, names: seq<string>)
    requires forall n | n in names :: n in cache
    ensures |ItemsOf(cache, names)| == |names|
    ensures forall j | 0 <= j < |names| :: ItemsOf(cache, names)[j] == Item(names[j], cache[names[j]].cluster)
  {
    if names != [] {
      ItemsAll(cache, names[1..]);
    }
  }

  /** The collection goes on to these items, or is over if there are none. */
  predicate OnTo(p: Proc, items: seq<Item>) {
    if items == [] then p.Swept? else p.CheckCluster? && p.items == items
  }

  /** `items[..i]` are done with: their copies are gone if their clusters are, and no other is. */
  ghost predicate SweptUpTo(origin: World, w: World, items: seq<Item>, i: nat)
    requires i <= |items|
  {
    && w.scene == origin.scene && w.past == origin.past
    && (forall name | name in w.cache :: name in origin.cache && w.cache[name] == origin.cache[name])
    && (forall name | name in origin.cache && name !in w.cache :: Gone(origin.scene, origin.cache[name].cluster))
    && (forall j | 0 <= j < i :: Gone(origin.scene, items[j].cluster) ==> items[j].name !in w.cache)
  }

  lemma SweptOne(origin: World, w: World, w': World, items: seq<Item>, i: nat, gone: bool)
    requires i < |items| && SweptUpTo(origin, w, items, i) && w'.scene == w.scene && w'.past == w.past
    requires gone == Gone(origin.scene, items[i].cluster)
    requires items[i].name in origin.cache ==> origin.cache[items[i].name].cluster == items[i].cluster
    requires w'.cache == if gone then w.cache - {items[i].name} else w.cache
    ensures SweptUpTo(origin, w', items, i + 1)
  {
  }

  lemma SweptAll(origin: World, w: World, names: seq<string>)
    requires (set n | n in names) == origin.cache.Keys
    requires var items := ItemsOf(origin.cache, names); SweptUpTo(origin, w, items, |items|)
    ensures w.cache == Survivors(origin)
  {
    ItemsAll(origin.cache, names);
    var items := ItemsOf(origin.cache, names);
    forall name | name in origin.cache ensures name in w.cache <==> !Gone(origin.scene, origin.cache[name].cluster) {
      assert name in (set n | n in names);
      var j :| 0 <= j < |names| && names[j] == name;
      assert items[j] == Item(name, origin.cache[name].cluster);
    }
  }

  class Cache {
    const pid: nat
    /** The world as it is, and how it came to be since the current operation was called. */
    var w: World
    ghost var origin: World
    ghost var states: seq<World>
    ghost var first: Option<Label>
    ghost var labels: seq<Label>

    ghost predicate Valid()
      reads this
    {
      && Chain(Apply, origin, states, labels) && w == states[|labels|]
      && (first.Some? ==> labels != [] && labels[0] == first.value)
    }

    ghost predicate Calm()
      reads this
    {
      Undisturbed(labels, pid, |origin.past|)
    }

    constructor (pid: nat, w: World)
      ensures this.pid == pid && this.w == w
    {
      this.pid, this.w := pid, w;
    }

    /** An operation's first step. */
    method Start(l: Label)
      modifies this
      ensures Valid() && origin == old(w) && first == Some(l) && w == Apply(old(w), l)
      ensures Calm() <==> OwnStep(l, pid) && (l.Reply? ==> l.k >= |origin.past|)
    {
      origin, first, states, labels := w, Some(l), [w, Apply(w, l)], [l];
      w := Apply(w, l);
      assert Linked(Apply, states, labels, 0);
      assert labels[0] == l;
    }

    method Take(l: Label)
      requires Valid()
      modifies this
      ensures origin == old(origin) && first == old(first)
      ensures Valid() && w == Apply(old(w), l) && labels == old(labels) + [l]
      ensures Calm() <==> old(Calm()) && OwnStep(l, pid) && (l.Reply? ==> l.k >= |origin.past|)
    {
      ChainExtends(Apply, origin, states, labels, l);
      w := Apply(w, l);
      states := states + [w];
      ghost var before := labels;
      labels := labels + [l];
      assert forall i | 0 <= i < |before| :: labels[i] == before[i];
      assert labels[|before|] == l;
    }

    /** Anything but this operation's own steps happens, any number of times. */
    method Meanwhile()
      requires Valid()
      modifies this
      ensures origin == old(origin) && first == old(first)
      ensures Valid() && ProcOf(w, pid) == old(ProcOf(w, pid)) && Extends(labels, old(labels))
      ensures Calm() ==> old(Calm()) && w == old(w)
    {
      var k: nat := *;
      while k > 0
        invariant Valid() && ProcOf(w, pid) == old(ProcOf(w, pid)) && Extends(labels, old(labels))
        invariant origin == old(origin) && first == old(first)
        invariant Calm() ==> old(Calm()) && w == old(w)
      {
        var l: Label := *;
        if !OwnStep(l, pid) {
          OthersLeaveProc(w, l, pid);
          Take(l);
        }
        k := k - 1;
      }
    }

    /** One call: what it reads, the caller finds in the world `was` in which it was answered. */
    method Call() returns (ok: bool, k: nat, was: World)
      requires Valid() && !AtRest(ProcOf(w, pid))
      modifies this
      ensures origin == old(origin) && first == old(first) && Valid()
      ensures ProcOf(was, pid) == old(ProcOf(w, pid))
      ensures ProcOf(w, pid) == if ok then Advance(was, ProcOf(was, pid), k) else Resting
      ensures ok ==> w == Apply(was, Reply(pid, Ok, k))
      ensures Calm() ==> old(Calm()) && was == old(w) && k >= |origin.past|
    {
      Meanwhile();
      was := w;
      var outcome: Outcome;
      outcome, k := *, *;
      ok := outcome.Ok?;
      Take(Reply(pid, outcome, k));
    }

    /** Create or Update with the copy of `source`. */
    method Send(cluster: ClusterKey, source: Source, version: Option<nat>) returns (ok: bool)
      requires Valid()
      requires ProcOf(w, pid) == if version.Some? then UpdateCopy(cluster, source, version.value) else CreateCopy(cluster, source)
      modifies this
      ensures origin == old(origin) && first == old(first) && Valid()
      ensures ProcOf(w, pid) == if ok then Ensured(cluster, Some(source)) else Resting
      ensures ok ==> Refreshed(w, pid, cluster, true, Some(source))
      ensures Calm() ==> old(Calm())
    {
      var answered, _, was := Call();
      ok := answered && if version.None? then CachedName(cluster) !in was.cache
                        else CachedName(cluster) in was.cache && was.cache[CachedName(cluster)].version == version.value;
    }

    /** `Ensure` (credentials.go:49-86). */
    method EnsureCopy(cluster: ClusterKey) returns (wrote: bool, ok: bool)
      requires AtRest(ProcOf(w, pid))
      modifies this
      ensures w == Run(old(w), labels) && labels != [] && labels[0] == Ensure(pid, cluster)
      ensures ok ==> exists found :: Refreshed(w, pid, cluster, wrote, found)
      ensures ok && !wrote && Undisturbed(labels, pid, |old(w).past|) ==> w.cache == old(w).cache
      ensures !ok ==> ProcOf(w, pid).Resting?
    {
      Start(Ensure(pid, cluster));
      wrote, ok := Refresh(cluster);
      ChainIsRun(Apply, origin, states, labels);
    }

    method Refresh(cluster: ClusterKey) returns (wrote: bool, ok: bool)
      requires Valid() && ProcOf(w, pid) == ReadSource(cluster)
      modifies this
      ensures origin == old(origin) && first == old(first) && Valid()
      ensures ok ==> exists found :: Refreshed(w, pid, cluster, wrote, found)
      ensures Calm() ==> old(Calm())
      ensures ok && !wrote && Calm() ==> w.cache == old(w.cache)
      ensures !ok ==> ProcOf(w, pid).Resting?
    {
      var live, _, seen := Call();
      if !live {
        return false, false;
      }
      if cluster !in seen.sources {
        assert Refreshed(w, pid, cluster, false, None);
        return false, true;
      }
      var source := seen.sources[cluster];
      var read, _, was := Call();
      if !read {
        return false, false;
      }
      wrote, ok := true, true;
      if CachedName(cluster) !in was.cache {
        ok := Send(cluster, source, None);
      } else if was.cache[CachedName(cluster)].tag == source.version {
        wrote := false;
        assert Refreshed(w, pid, cluster, false, Some(source));
      } else {
        ok := Send(cluster, source, Some(was.cache[CachedName(cluster)].version));
      }
    }

    /** `Config` (credentials.go:90-104): the live secret is read first, and
        only if it is not there the copy, later, with anything in between. */
    method ReadConfig<T>(cluster: ClusterKey, parse: string -> Option<T>)
      returns (failed: bool, config: Option<T>, ghost labels': seq<Label>)
      modifies this
      ensures w == Run(old(w), labels) && ProcOf(w, pid) == old(ProcOf(w, pid)) && Extends(labels, labels')
      ensures var live := Run(old(w), labels');
              !failed ==> config == if cluster in live.sources then parse(live.sources[cluster].data)
                                    else if CachedName(cluster) in w.cache then parse(w.cache[CachedName(cluster)].data)
                                    else None
      ensures !failed && w.sources == Run(old(w), labels').sources ==>
                config == if Config(w, cluster).Some? then parse(Config(w, cluster).value) else None
    {
      origin, first, states, labels := w, None, [w], [];
      Meanwhile();
      labels' := labels;
      ChainIsRun(Apply, origin, states, labels);
      failed, config := *, None;
      if failed {
        return;
      }
      if cluster in w.sources {
        config := parse(w.sources[cluster].data);
        return;
      }
      Meanwhile();
      ChainIsRun(Apply, origin, states, labels);
      failed := *;
      if !failed && CachedName(cluster) in w.cache {
        config := parse(w.cache[CachedName(cluster)].data);
      }
    }

    // ------------------------------------------------------------------ collection

    /** The list of copies, in some order. */
    method ListCopies() returns (names: seq<string>)
      ensures (set n | n in names) == w.cache.Keys
    {
      names := [];
      var rest := w.cache.Keys;
      while rest != {}
        invariant rest <= w.cache.Keys
        invariant forall n :: n in names <==> n in w.cache.Keys && n !in rest
        decreases rest
      {
        var n :| n in rest;
        names, rest := names + [n], rest - {n};
      }
    }

    /** The loop of `clusterGone` over the listed Machines (credentials.go:153-157). */
    method AnyQualifies(s: Scene, cluster: ClusterKey) returns (found: bool)
      ensures found == NeedsCopy(s, cluster)
      ensures found <==> exists x :: x in s.machines && x.0 == cluster.namespace && x.1.cluster == cluster.name && Ours(x.1)
    {
      var i := 0;
      while i < |s.machines|
        invariant 0 <= i <= |s.machines|
        invariant forall j | 0 <= j < i :: !MachineOf(s.machines[j], cluster)
      {
        if MachineOf(s.machines[i], cluster) {
          return true;
        }
        i := i + 1;
      }
      return false;
    }

    /** `clusterGone` (credentials.go:139-159) for the first of `items`. */
    method ClusterGone(items: seq<Item>, ghost since: nat) returns (ok: bool, gone: bool)
      requires Valid() && items != [] && ProcOf(w, pid) == CheckCluster(items, since)
      modifies this
      ensures origin == old(origin) && first == old(first) && Valid()
      ensures !ok ==> ProcOf(w, pid).Resting?
      ensures ok && gone ==> ProcOf(w, pid) == DeleteCopy(items, since)
      ensures ok && !gone ==> OnTo(ProcOf(w, pid), items[1..])
      ensures Calm() ==> old(Calm())
      ensures Calm() && ok ==>
                && w.cache == old(w.cache) && w.scene == old(w.scene) && w.past == old(w.past)
                && (w.past == origin.past ==> gone == Gone(w.scene, items[0].cluster))
    {
      var read, k, was := Call();
      if !read {
        return false, false;
      }
      if items[0].cluster in SceneAt(was, k).clusters {
        return true, false;
      }
      read, k, was := Call();
      if !read {
        return false, false;
      }
      var needed := AnyQualifies(SceneAt(was, k), items[0].cluster);
      return true, !needed;
    }

    /** The delete of a copy whose cluster is gone; not finding it is no error. */
    method Delete(items: seq<Item>, ghost since: nat) returns (ok: bool)
      requires Valid() && items != [] && ProcOf(w, pid) == DeleteCopy(items, since)
      modifies this
      ensures origin == old(origin) && first == old(first) && Valid()
      ensures !ok ==> ProcOf(w, pid).Resting?
      ensures ok ==> OnTo(ProcOf(w, pid), items[1..])
      ensures Calm() ==> old(Calm())
      ensures Calm() && ok ==> w.cache == old(w.cache) - {items[0].name} && w.scene == old(w.scene) && w.past == old(w.past)
    {
      var k, was;
      ok, k, was := Call();
    }

    /** `GC` (credentials.go:108-135). */
    method GC() returns (ok: bool)
      requires AtRest(ProcOf(w, pid))
      modifies this
      ensures w == Run(old(w), labels) && AtRest(ProcOf(w, pid)) && (ok ==> ProcOf(w, pid).Swept?)
      ensures ok && Undisturbed(labels, pid, |old(w).past|) ==> w.cache == Survivors(old(w))
    {
      var listed: bool := *;
      if !listed {
        labels := [];
        return false;
      }
      var names := ListCopies();
      Start(List(pid, names));
      ok := Sweep(names, ItemsOf(w.cache, names));
      ChainIsRun(Apply, origin, states, labels);
    }

    /** One turn of the loop: check the i-th listed copy, and delete it if its cluster is gone. */
    method SweepItem(items: seq<Item>, i: nat) returns (ok: bool)
      requires Valid() && i < |items| && OnTo(ProcOf(w, pid), items[i..])
      requires Calm() ==> SweptUpTo(origin, w, items, i)
      requires items[i].name in origin.cache ==> origin.cache[items[i].name].cluster == items[i].cluster
      modifies this
      ensures origin == old(origin) && first == old(first) && Valid()
      ensures !ok ==> ProcOf(w, pid).Resting?
      ensures ok ==> OnTo(ProcOf(w, pid), items[i + 1..])
      ensures ok && Calm() ==> SweptUpTo(origin, w, items, i + 1)
    {
      ghost var before := w;
      ghost var since := ProcOf(w, pid).since;
      assert items[i..][1..] == items[i + 1..] && items[i..][0] == items[i];
      var known, stale := ClusterGone(items[i..], since);
      if !known {
        return false;
      }
      if stale {
        var deleted := Delete(items[i..], since);
        if !deleted {
          return false;
        }
      }
      if Calm() {
        SweptOne(origin, before, w, items, i, stale);
      }
      return true;
    }

    /** The loop over the listed copies. */
    method Sweep(names: seq<string>, items: seq<Item>) returns (ok: bool)
      requires Valid() && OnTo(ProcOf(w, pid), items)
      requires (set n | n in names) == origin.cache.Keys && items == ItemsOf(origin.cache, names)
      requires w.cache == origin.cache && w.scene == origin.scene && w.past == origin.past
      modifies this
      ensures origin == old(origin) && first == old(first) && Valid()
      ensures AtRest(ProcOf(w, pid)) && (ok ==> ProcOf(w, pid).Swept?)
      ensures ok && Calm() ==> w.cache == Survivors(origin)
    {
      ItemsAll(origin.cache, names);
      var i := 0;
      assert items[0..] == items;
      while i < |items|
        invariant 0 <= i <= |items|
        invariant origin == old(origin) && first == old(first) && Valid()
        invariant OnTo(ProcOf(w, pid), items[i..])
        invariant Calm() ==> SweptUpTo(origin, w, items, i)
      {
        var swept := SweepItem(items, i);
        if !swept {
          return false;
        }
        i := i + 1;
      }
      ok := true;
      if Calm() {
        SweptAll(origin, w, names);
      }
    }
  }
}

/** The credential cache (internal/teardown/credentials.go) as a labelled transition system:
    refreshes and garbage collections run at once, interleaved with changes of the source
    secrets, the Clusters and the Machines.  Secrets are read live; Clusters and Machines come
    from an informer cache, which may serve any earlier state.  A label that is not enabled
    leaves the world unchanged. */
module Credentials {
  import opened Wrappers
  import opened Machines
  import opened Runs

  datatype ClusterKey = ClusterKey(namespace: string, name: string)

  /** The talosconfig of `<cluster>-talosconfig`; a secret without that key holds no bytes. */
  datatype Source = Source(data: string, version: nat)

  /** A cached copy: its labels, the source version it is tagged with, its bytes, its own version. */
  datatype Copy = Copy(cluster: ClusterKey, tag: nat, data: string, version: nat)

  /** The Clusters and the Machines, these with their namespaces. */
  datatype Scene = Scene(clusters: set<ClusterKey>, machines: seq<(string, Machine)>)

  function CachedName(c: ClusterKey): string {
    "talosconfig-" + c.namespace + "-" + c.name
  }

  predicate MachineOf(x: (string, Machine), c: ClusterKey) {
    x.0 == c.namespace && x.1.cluster == c.name && Qualifies(x.1)
  }

  predicate NeedsCopy(s: Scene, c: ClusterKey) {
    exists x | x in s.machines :: MachineOf(x, c)
  }

  /** What the list of copies says about one of them. */
  datatype Item = Item(name: string, cluster: ClusterKey)

  /** A refresh at its next call, or a collection checking its first item; `since` is the moment
      the check of that item began. */
  datatype Proc =
    | Resting
    | ReadSource(cluster: ClusterKey)
    | ReadCopy(cluster: ClusterKey, source: Source)
    | CreateCopy(cluster: ClusterKey, source: Source)
    | UpdateCopy(cluster: ClusterKey, source: Source, version: nat)
    | Ensured(cluster: ClusterKey, found: Option<Source>)
    | CheckCluster(items: seq<Item>, since: nat)
    | CheckMachines(items: seq<Item>, since: nat)
    | DeleteCopy(items: seq<Item>, since: nat)
    | Swept

  /** `published` is every version each source ever had, `past` every scene before this one. */
  datatype World = World(
    sources: map<ClusterKey, Source>,
    published: set<(ClusterKey, Source)>,
    cache: map<string, Copy>,
    version: nat,
    scene: Scene,
    past: seq<Scene>,
    procs: map<nat, Proc>)

  datatype Outcome = Ok | Failed | Ambiguous

  datatype Label =
    | Publish(cluster: ClusterKey, source: Source)
    | Unpublish(cluster: ClusterKey)
    | Stage(scene: Scene)
    | Lose(name: string)
    | Ensure(pid: nat, cluster: ClusterKey)
    | List(pid: nat, names: seq<string>)
    | Reply(pid: nat, outcome: Outcome, k: nat)
    | Crash(pid: nat)

  const START: World := World(map[], {}, map[], 0, Scene({}, []), [], map[])

  function ProcOf(w: World, pid: nat): Proc {
    if pid in w.procs then w.procs[pid] else Resting
  }

  predicate AtRest(p: Proc) {
    p.Resting? || p.Ensured? || p.Swept?
  }

  /** The scene at the k-th moment; the moments so far are 0 to |past|. */
  function SceneAt(w: World, k: nat): Scene {
    if k < |w.past| then w.past[k] else w.scene
  }

  function ItemsOf(cache: map<string, Copy>, names: seq<string>): seq<Item> {
    if names == [] then []
    else (if names[0] in cache then [Item(names[0], cache[names[0]].cluster)] else []) + ItemsOf(cache, names[1..])
  }

  function Checking(w: World, items: seq<Item>): Proc {
    if items == [] then Swept else CheckCluster(items, |w.past|)
  }

  /** Versions of one source do not repeat; versions of different sources may. */
  predicate NewVersion(w: World, c: ClusterKey, s: Source) {
    forall x | x in w.published && x.0 == c :: x.1.version != s.version
  }

  /** Whether the server takes the write a call stands for. */
  predicate Accepts(w: World, p: Proc) {
    match p
    case CreateCopy(c, s) => CachedName(c) !in w.cache
    case UpdateCopy(c, s, v) => CachedName(c) in w.cache && w.cache[CachedName(c)].version == v
    case DeleteCopy(items, since) => items != [] && items[0].name in w.cache
    case _ => false
  }

  function Store(w: World, p: Proc): World {
    match p
    case CreateCopy(c, s) => Filled(w, c, s)
    case UpdateCopy(c, s, v) => Filled(w, c, s)
    case DeleteCopy(items, since) => if items == [] then w else w.(cache := w.cache - {items[0].name})
    case _ => w
  }

  function Filled(w: World, c: ClusterKey, s: Source): World {
    w.(cache := w.cache[CachedName(c) := Copy(c, s.version, s.data, w.version)], version := w.version + 1)
  }

  /** `Ensure`, `GC` and `clusterGone`, once the call at `p` was answered well. */
  function Advance(w: World, p: Proc, k: nat): Proc {
    match p
    case ReadSource(c) => if c in w.sources then ReadCopy(c, w.sources[c]) else Ensured(c, None)
    case ReadCopy(c, s) =>
      if CachedName(c) !in w.cache then CreateCopy(c, s)
      else if w.cache[CachedName(c)].tag == s.version then Ensured(c, Some(s))
      else UpdateCopy(c, s, w.cache[CachedName(c)].version)
    case CreateCopy(c, s) => if Accepts(w, p) then Ensured(c, Some(s)) else Resting
    case UpdateCopy(c, s, v) => if Accepts(w, p) then Ensured(c, Some(s)) else Resting
    case CheckCluster(items, since) =>
      if items == [] then Swept
      else if items[0].cluster in SceneAt(w, k).clusters then Checking(w, items[1..])
      else CheckMachines(items, since)
    case CheckMachines(items, since) =>
      if items == [] then Swept
      else if NeedsCopy(SceneAt(w, k), items[0].cluster) then Checking(w, items[1..])
      else DeleteCopy(items, since)
    case DeleteCopy(items, since) => if items == [] then Swept else Checking(w, items[1..])
    case _ => p
  }

  function ApplyReply(w: World, pid: nat, outcome: Outcome, k: nat): World {
    var p := ProcOf(w, pid);
    if AtRest(p) then w
    else
      var w' := if !outcome.Failed? && Accepts(w, p) then Store(w, p) else w;
      w'.(procs := w.procs[pid := if outcome.Ok? then Advance(w, p, k) else Resting])
  }

  function Apply(w: World, l: Label): World {
    match l
    case Publish(c, s) =>
      if NewVersion(w, c, s) then w.(sources := w.sources[c := s], published := w.published + {(c, s)}) else w
    case Unpublish(c) => w.(sources := w.sources - {c})
    case Stage(scene) => w.(scene := scene, past := w.past + [w.scene])
    case Lose(name) => w.(cache := w.cache - {name})
    case Ensure(pid, c) => if AtRest(ProcOf(w, pid)) then w.(procs := w.procs[pid := ReadSource(c)]) else w
    case List(pid, names) =>
      if AtRest(ProcOf(w, pid)) then w.(procs := w.procs[pid := Checking(w, ItemsOf(w.cache, names))]) else w
    case Reply(pid, outcome, k) => ApplyReply(w, pid, outcome, k)
    case Crash(pid) => w.(procs := w.procs[pid := Resting])
  }

  function Run(w: World, ls: seq<Label>): World {
    Fold(Apply, w, ls)
  }

  ghost predicate Throughout(w: World, ls: seq<Label>, allowed: (World, Label) -> bool) {
    AllAlong(Apply, w, ls, allowed)
  }

  /** `Config`: the live secret's bytes, else the cached copy's. */
  function Config(w: World, c: ClusterKey): Option<string> {
    if c in w.sources then Some(w.sources[c].data)
    else if CachedName(c) in w.cache then Some(w.cache[CachedName(c)].data)
    else None
  }
}

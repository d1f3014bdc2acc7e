/** The pre-terminate teardown protocol (internal/teardown/reconciler.go) as a labelled
    transition system.

    Every call a reconcile makes is a step of its own, and between any two steps anything
    else may happen: other reconciles, other controllers, time, crashes.  A label that is not
    enabled leaves the world unchanged, so every sequence of labels is a run. */
module Protocol {
  import opened Wrappers
  import opened Machines
  import opened Ordering
  import opened Etcd
  import opened Peers
  import opened Runs

  const NANOS: nat := 1_000_000_000

  /** Phase deadlines, in nanoseconds after the observed-at second. */
  datatype Config = Config(etcdTimeout: int, resetTimeout: int)

  /** The next call of a running reconcile. */
  datatype Point =
    | StampHook
    | RefreshCreds
    | ObserveClock
    | StampObserved(second: int)
    | ReadCluster
    | ListTurn
    | EtcdConfig
    | ListPeers
    | Probe(queue: seq<Machine>)
    | DialVictim(id: nat)
    | Forfeit(id: nat)
    | Leave(id: nat)
    | Remove(id: nat)
    | EtcdDeadline
    | StampEtcd(etcd: EtcdOutcome)
    | ResolveReset
    | DialReset
    | CallReset
    | ResetDeadline
    | StampReset(reset: ResetOutcome)
    | Release

  /** `m` is the reconcile's own copy of the machine, `obs` the second the deadlines count from. */
  datatype Pc = Idle | Active(m: Machine, obs: int, at: Point)

  /** What a call answers.  `Ambiguous` is an error whose effect did happen. */
  datatype Answer =
    | Ok
    | Failed
    | Ambiguous
    | NoAddress
    | ClusterIs(deleting: bool)
    | Picks(picks: seq<(string, nat)>)
    | Machines(machines: seq<Machine>)
    | Members(resp: MemberList)

  predicate Effective(a: Answer) {
    a.Ok? || a.Ambiguous?
  }

  // --------------------------------------------------- the reconcile, step by step

  datatype Patch = Patch(sets: Annotations, deletes: set<Key>)

  predicate IsPatch(at: Point) {
    at.StampHook? || at.StampObserved? || at.StampEtcd? || at.StampReset? || at.Release?
  }

  function PatchAt(m: Machine, at: Point): Patch
    requires IsPatch(at)
  {
    match at
    case StampHook => Patch(map[Hook := Owner], LegacyHooks(m.annotations))
    case StampObserved(t) => Patch(map[ObservedAt := Timestamp(t)], {})
    case StampEtcd(v) => Patch(map[EtcdConclusion := Etcd(v)], {})
    case StampReset(v) => Patch(map[ResetConclusion := Reset(v)], {})
    case Release => Patch(map[], {Hook} + LegacyHooks(m.annotations))
  }

  /** A merge of the changed keys: it clobbers no other key and fails on no concurrent change. */
  function Merge(m: Machine, p: Patch): Machine {
    m.(annotations := (m.annotations - p.deletes) + p.sets)
  }

  function Patched(m: Machine, at: Point): Machine
    requires IsPatch(at)
  {
    Merge(m, PatchAt(m, at))
  }

  /** `Reconcile` up to its first call, given the machine it read. */
  function Decide(m: Machine): Pc {
    if !Qualifies(m) && !HasHook(m) then Idle
    else if m.deletion.None? then
      Active(m, 0, if HasHook(m) then RefreshCreds else StampHook)
    else if HasHook(m) then AtGate(m)
    else if ResetConclusion in m.annotations || !StampAllowed(m) then Idle
    else Active(m, 0, StampHook)
  }

  function AtGate(m: Machine): Pc {
    if !AtPreTerminate(m) || HasOtherPreTerminateHooks(m) then Idle
    else if ObservedAt in m.annotations && m.annotations[ObservedAt].Timestamp? then
      Active(m, m.annotations[ObservedAt].seconds, ReadCluster)
    else Active(m, 0, ObserveClock)
  }

  function EtcdStart(m: Machine, obs: int, clusterDeleting: bool): Pc {
    if EtcdConclusion in m.annotations then ResetStart(m, obs)
    else if clusterDeleting then Active(m, obs, StampEtcd(SkippedClusterDelete))
    else if !m.controlPlane then ResetStart(m, obs)
    else Active(m, obs, ListTurn)
  }

  function ResetStart(m: Machine, obs: int): Pc {
    if ResetConclusion in m.annotations then ReleaseStart(m, obs)
    else Active(m, obs, ResolveReset)
  }

  function ReleaseStart(m: Machine, obs: int): Pc {
    if HasHook(m) then Active(m, obs, Release) else Idle
  }

  function ProbeNext(m: Machine, obs: int, queue: seq<Machine>): Pc {
    Active(m, obs, if queue == [] then EtcdDeadline else Probe(queue))
  }

  /** `p` is a deleting, hooked machine that goes before `m`. */
  predicate GoesBefore(p: Machine, m: Machine) {
    && p.name != m.name
    && p.deletion.Some? && HasHook(p)
    && m.deletion.Some?
    && Before(p.deletion.value, p.name, m.deletion.value, m.name)
  }

  predicate Held(m: Machine, peers: seq<Machine>) {
    exists p | p in peers :: GoesBefore(p, m)
  }

  predicate Expired(now: nat, obs: int, timeout: int) {
    now > obs * NANOS + timeout
  }

  /** What the reconcile does next, once the call at `at` answered `a`. */
  function Advance(cfg: Config, now: nat, m: Machine, obs: int, at: Point, a: Answer): Pc {
    match at
    case StampHook => if a.Ok? then Active(Patched(m, at), obs, RefreshCreds) else Idle
    case RefreshCreds => if a.Ok? && m.deletion.Some? then AtGate(m) else Idle
    case ObserveClock => Active(m, obs, StampObserved(now / NANOS))
    case StampObserved(t) => if a.Ok? then Active(Patched(m, at), t, ReadCluster) else Idle
    case ReadCluster => if a.ClusterIs? then EtcdStart(m, obs, a.deleting) else Idle
    case ListTurn => if a.Machines? && !Held(m, a.machines) then Active(m, obs, EtcdConfig) else Idle
    case EtcdConfig => Active(m, obs, if a.Ok? then ListPeers else EtcdDeadline)
    case ListPeers => if a.Machines? then ProbeNext(m, obs, OrderPeers(a.machines, m)) else Active(m, obs, EtcdDeadline)
    case Probe(queue) =>
      if a.Members? then
        (match FindMember(a.resp, HostnameCandidates(m))
         case None => Active(m, obs, StampEtcd(NotMember))
         case Some(member) => Active(m, obs, DialVictim(member.id)))
      else ProbeNext(m, obs, if queue == [] then [] else queue[1..])
    case DialVictim(id) =>
      Active(m, obs, if !a.Ok? then Remove(id) else if EtcdLeaving in m.annotations then Leave(id) else Forfeit(id))
    case Forfeit(id) => Active(m, obs, Leave(id))
    case Leave(id) => Active(m, obs, if a.Ok? then StampEtcd(Left) else Remove(id))
    case Remove(id) => Active(m, obs, if a.Ok? then StampEtcd(Removed) else EtcdDeadline)
    case EtcdDeadline => if Expired(now, obs, cfg.etcdTimeout) then Active(m, obs, StampEtcd(Orphaned)) else Idle
    case StampEtcd(v) => if a.Ok? then ResetStart(Patched(m, at), obs) else Idle
    case ResolveReset =>
      Active(m, obs, if a.Ok? then DialReset else if a.NoAddress? then StampReset(SkippedNoAddress) else ResetDeadline)
    case DialReset => Active(m, obs, if a.Ok? then CallReset else ResetDeadline)
    case CallReset => Active(m, obs, if a.Ok? then StampReset(Done) else ResetDeadline)
    case ResetDeadline => if Expired(now, obs, cfg.resetTimeout) then Active(m, obs, StampReset(SkippedTimeout)) else Idle
    case StampReset(v) => if a.Ok? then ReleaseStart(Patched(m, at), obs) else Idle
    case Release => Idle
  }

  // ------------------------------------------------------------ one machine object

  /** One line of a machine's history: a reconcile read it, a call of a reconcile answered, or
      the reconcile was cut short. */
  datatype Entry =
    | Began(read: Machine)
    | Did(pc: Pc, answer: Answer, time: nat)
    | Crashed

  /** A machine object with every version it had, the reconcile working on it, and bookkeeping
      that no decision reads: whether it was hooked when its deletion began (`armed`), whether
      the machine controller passed the gate (`passed`), whether some reconcile found it to be
      its turn (`turn`), and the history of its reconciles. */
  datatype Cell = Cell(
    live: Machine,
    past: seq<Machine>,
    pc: Pc,
    armed: bool,
    passed: bool,
    turn: bool,
    trace: seq<Entry>)

  function NewCell(m: Machine): Cell {
    Cell(m, [], Idle, false, false, false, [])
  }

  function Write(c: Cell, m: Machine): Cell {
    c.(live := m, past := c.past + [c.live])
  }

  /** The version an informer cache may serve; past the end it serves the current one. */
  function Version(c: Cell, k: nat): Machine {
    if k < |c.past| then c.past[k] else c.live
  }

  datatype Act =
    | Read(k: nat)
    | Reply(answer: Answer)
    | Crash
    | Edit(m: Machine)
    | Delete(time: int)
    | Pass

  predicate SameOn(a: Annotations, b: Annotations, k: Key) {
    (k in a) == (k in b) && (k in a ==> a[k] == b[k])
  }

  predicate SameOwned(a: Annotations, b: Annotations) {
    SameOn(a, b, Hook) && SameOn(a, b, ObservedAt) && SameOn(a, b, EtcdConclusion) && SameOn(a, b, ResetConclusion)
  }

  /** What other writers may do to a machine: anything but identity, deletion timestamp and the
      four annotations this controller owns.  The Deleting reason moves past the pre-terminate
      wait only once the gate was passed. */
  predicate ForeignEdit(live: Machine, m: Machine, passed: bool) {
    && m == live.(bootstrapKind := m.bootstrapKind, bootstrapGroup := m.bootstrapGroup,
                  infraKind := m.infraKind, infraGroup := m.infraGroup, infraName := m.infraName,
                  annotations := m.annotations, conditions := m.conditions,
                  nodeRef := m.nodeRef, addresses := m.addresses)
    && SameOwned(live.annotations, m.annotations)
    && (passed || PreTerminateOrEarlier(DeletingReason(m.conditions)))
  }

  function StepReply(cfg: Config, now: nat, c: Cell, a: Answer): Cell
    requires c.pc.Active?
  {
    var m, obs, at := c.pc.m, c.pc.obs, c.pc.at;
    var c' := if IsPatch(at) && Effective(a) then Write(c, Merge(c.live, PatchAt(m, at))) else c;
    c'.(pc := Advance(cfg, now, m, obs, at, a),
        turn := c.turn || (at.ListTurn? && a.Machines? && !Held(m, a.machines)),
        trace := c.trace + [Did(c.pc, a, now)])
  }

  function StepCell(cfg: Config, now: nat, c: Cell, act: Act): Cell {
    match act
    case Read(k) =>
      if c.pc.Active? then c
      else c.(pc := Decide(Version(c, k)), trace := c.trace + [Began(Version(c, k))])
    case Reply(a) => if c.pc.Active? then StepReply(cfg, now, c, a) else c
    case Crash => if c.pc.Active? then c.(pc := Idle, trace := c.trace + [Crashed]) else c
    case Edit(m) => if ForeignEdit(c.live, m, c.passed) then Write(c, m) else c
    case Delete(t) =>
      if c.live.deletion.Some? then c
      else Write(c, c.live.(deletion := Some(t))).(armed := HasHook(c.live))
    case Pass => if c.live.deletion.Some? && GateOpen(c.live) then c.(passed := true) else c
  }

  // --------------------------------------------------------------------- the world

  datatype MemberId = MemberId(cluster: string, id: nat)
  datatype Seat = Seat(hostname: string, owner: string)

  /** `roster` is every member there ever was, `members` those there are: ids are not reused. */
  datatype World = World(
    cfg: Config,
    now: nat,
    cells: map<string, Cell>,
    collapsing: set<string>,
    roster: map<MemberId, Seat>,
    members: set<MemberId>)

  datatype Label =
    | Tick(nanos: nat)
    | Create(machine: Machine)
    | Collapse(cluster: string)
    | Join(member: MemberId, seat: Seat)
    | Depart(member: MemberId)
    | On(name: string, act: Act)

  function Start(cfg: Config): World {
    World(cfg, 0, map[], {}, map[], {})
  }

  function Listing(cells: map<string, Cell>, cluster: string, picks: seq<(string, nat)>): seq<Machine> {
    if picks == [] then []
    else
      var (name, k) := picks[0];
      (if name in cells && Version(cells[name], k).cluster == cluster && Version(cells[name], k).controlPlane
       then [Version(cells[name], k)] else [])
      + Listing(cells, cluster, picks[1..])
  }

  /** What the reconcile hears: a list holds versions of existing machines, and a cluster is seen
      deleting only if it is. */
  function Heard(w: World, m: Machine, a: Answer): Answer {
    match a
    case Picks(picks) => Machines(Listing(w.cells, m.cluster, picks))
    case Machines(_) => Failed
    case ClusterIs(deleting) => ClusterIs(deleting && m.cluster in w.collapsing)
    case _ => a
  }

  function HeardAct(w: World, c: Cell, act: Act): Act {
    if act.Reply? && c.pc.Active? then Reply(Heard(w, c.pc.m, act.answer)) else act
  }

  function OwnedBy(w: World, name: string): set<MemberId> {
    set id | id in w.roster && w.roster[id].owner == name
  }

  /** The etcd members an act of `name`'s reconcile takes out. */
  function TakenOut(w: World, name: string, c: Cell, act: Act): set<MemberId> {
    if act.Reply? && Effective(act.answer) && c.pc.Active? && c.pc.at.Leave? then OwnedBy(w, name)
    else if act.Reply? && Effective(act.answer) && c.pc.Active? && c.pc.at.Remove? then
      {MemberId(c.pc.m.cluster, c.pc.at.id)}
    else {}
  }

  predicate Creatable(w: World, m: Machine) {
    && m.name !in w.cells
    && m.deletion.None?
    && EtcdConclusion !in m.annotations && ResetConclusion !in m.annotations
    && PreTerminateOrEarlier(DeletingReason(m.conditions))
  }

  /** A deleting machine's node does not join etcd again. */
  predicate MayJoin(w: World, id: MemberId, seat: Seat) {
    id !in w.roster && !(seat.owner in w.cells && w.cells[seat.owner].live.deletion.Some?)
  }

  function Apply(w: World, l: Label): World {
    match l
    case Tick(d) => w.(now := w.now + d)
    case Create(m) => if Creatable(w, m) then w.(cells := w.cells[m.name := NewCell(m)]) else w
    case Collapse(cluster) => w.(collapsing := w.collapsing + {cluster})
    case Join(id, seat) =>
      if MayJoin(w, id, seat) then w.(roster := w.roster[id := seat], members := w.members + {id}) else w
    case Depart(id) => w.(members := w.members - {id})
    case On(name, act) =>
      if name !in w.cells then w
      else
        var c := w.cells[name];
        w.(cells := w.cells[name := StepCell(w.cfg, w.now, c, HeardAct(w, c, act))],
           members := w.members - TakenOut(w, name, c, act))
  }

  function Run(w: World, ls: seq<Label>): World {
    Fold(Apply, w, ls)
  }

  /** Every label of the run is issued in a state that meets `allowed`. */
  ghost predicate Throughout(w: World, ls: seq<Label>, allowed: (World, Label) -> bool) {
    AllAlong(Apply, w, ls, allowed)
  }
}

/** Why a reconcile makes each call, and why it ends (internal/teardown/reconciler.go:56-596): in every
    run, whatever is read, each call is led to by the answer before it, and a reconcile that was not
    cut short ends for one of a few reasons.  Said in terms of what the objects and answers hold. */
module Script {
  import opened Wrappers
  import opened Machines
  import opened Ordering
  import opened Etcd
  import opened Peers
  import opened Protocol
  import opened Runs
  import History

  // ------------------------------------------------------------------- what a machine shows

  ghost predicate Observed(m: Machine, t: int) {
    ObservedAt in m.annotations && m.annotations[ObservedAt] == Timestamp(t)
  }

  ghost predicate Unobserved(m: Machine) {
    forall t :: !Observed(m, t)
  }

  /** `p` is a deleting, hooked machine deleted earlier, or at the same time with a name that comes
      first. */
  ghost predicate Earlier(p: Machine, m: Machine) {
    && p.name != m.name && p.deletion.Some? && Hook in p.annotations && m.deletion.Some?
    && (p.deletion.value < m.deletion.value
        || (p.deletion.value == m.deletion.value && Precedes(p.name, m.name)))
  }

  ghost predicate Stamped(m: Machine, m': Machine, k: Key, v: Value) {
    m' == m.(annotations := m.annotations[k := v])
  }

  /** The hook is on, the leftovers are off, and nothing else changed. */
  ghost predicate HookedAnew(m: Machine, m': Machine) {
    && m' == m.(annotations := m'.annotations) && Hook in m'.annotations && m'.annotations[Hook] == Owner
    && forall k | k != Hook :: if k.PreTerminate? && k in m.annotations && m.annotations[k] == Owner
                               then k !in m'.annotations else SameOn(m.annotations, m'.annotations, k)
  }

  lemma EarlierExactly(p: Machine, m: Machine)
    ensures GoesBefore(p, m) <==> Earlier(p, m)
  {
    LessExactly(p.name, m.name);
  }

  // ---------------------------------------------------------------------- the script

  /** The entry is the answer `a` to the call at `at`. */
  ghost predicate Was(e: Entry, m: Machine, obs: int, at: Point) {
    e.Did? && e.pc == Active(m, obs, at)
  }

  /** Read just now, or read, hooked and given credentials. */
  ghost predicate Begins(e: Entry, m: Machine) {
    e == Began(m) || (Was(e, m, 0, RefreshCreds) && e.answer.Ok?)
  }

  /** The reconcile has got past the etcd phase. */
  ghost predicate EtcdBehind(e: Entry, m: Machine, obs: int) {
    || (Was(e, m, obs, ReadCluster) && e.answer.ClusterIs?
        && (EtcdConclusion in m.annotations || (!e.answer.deleting && !m.controlPlane)))
    || (e.Did? && e.pc.Active? && e.pc.obs == obs && e.pc.at.StampEtcd? && e.answer.Ok?
        && Stamped(e.pc.m, m, EtcdConclusion, Value.Etcd(e.pc.at.etcd)))
  }

  ghost predicate LedToEtcdStamp(cfg: Config, e: Entry, m: Machine, obs: int, v: EtcdOutcome) {
    match v
    case NotMember =>
      && e.Did? && e.pc.Active? && e.pc.at.Probe? && e.pc.m == m && e.pc.obs == obs && e.answer.Members?
      && forall x | x in Flatten(e.answer.resp) :: !MatchesMember(HostnameCandidates(m), x.hostname)
    case Left => e.Did? && e.pc.Active? && e.pc.at.Leave? && e.pc.m == m && e.pc.obs == obs && e.answer.Ok?
    case Removed => e.Did? && e.pc.Active? && e.pc.at.Remove? && e.pc.m == m && e.pc.obs == obs && e.answer.Ok?
    case Orphaned => Was(e, m, obs, EtcdDeadline) && e.time > obs * 1_000_000_000 + cfg.etcdTimeout
    case SkippedClusterDelete =>
      Was(e, m, obs, ReadCluster) && e.answer == ClusterIs(true) && EtcdConclusion !in m.annotations
  }

  ghost predicate LedToResetStamp(cfg: Config, e: Entry, m: Machine, obs: int, v: ResetOutcome) {
    match v
    case Done => Was(e, m, obs, CallReset) && e.answer.Ok?
    case SkippedNoAddress => Was(e, m, obs, ResolveReset) && e.answer.NoAddress?
    case SkippedTimeout => Was(e, m, obs, ResetDeadline) && e.time > obs * 1_000_000_000 + cfg.resetTimeout
  }

  ghost predicate LedToProbe(e: Entry, m: Machine, obs: int, queue: seq<Machine>) {
    && queue != [] && e.Did? && e.pc.Active? && e.pc.m == m && e.pc.obs == obs
    && (|| (e.pc.at.ListPeers? && e.answer.Machines? && queue == OrderPeers(e.answer.machines, m))
        || (e.pc.at.Probe? && !e.answer.Members? && e.pc.at.queue != [] && queue == e.pc.at.queue[1..]))
  }

  ghost predicate LedToDial(e: Entry, m: Machine, obs: int, id: nat) {
    && e.Did? && e.pc.Active? && e.pc.at.Probe? && e.pc.m == m && e.pc.obs == obs && e.answer.Members?
    && exists i :: FirstMatchAt(Flatten(e.answer.resp), HostnameCandidates(m), i) && Flatten(e.answer.resp)[i].id == id
  }

  /** The answer before it leads to this call. */
  ghost predicate LedTo(cfg: Config, e: Entry, m: Machine, obs: int, at: Point) {
    match at
    case StampHook =>
      && e == Began(m) && Ours(m) && !Hooked(m)
      && (m.deletion.Some? ==> ResetConclusion !in m.annotations && !PastGate(m))
    case RefreshCreds =>
      || (e == Began(m) && Hooked(m) && m.deletion.None?)
      || (e.Did? && e.pc.Active? && e.pc.at.StampHook? && e.answer.Ok? && HookedAnew(e.pc.m, m))
    case ObserveClock => Begins(e, m) && Hooked(m) && Ready(m) && Unobserved(m)
    case StampObserved(t) => Was(e, m, obs, ObserveClock) && t == e.time / 1_000_000_000
    case ReadCluster =>
      || (Begins(e, m) && Hooked(m) && Ready(m) && Observed(m, obs))
      || (e.Did? && e.pc.Active? && e.pc.at == StampObserved(obs) && e.answer.Ok? && Stamped(e.pc.m, m, ObservedAt, Timestamp(obs)))
    case ListTurn => Was(e, m, obs, ReadCluster) && e.answer == ClusterIs(false) && m.controlPlane && EtcdConclusion !in m.annotations
    case EtcdConfig => Was(e, m, obs, ListTurn) && e.answer.Machines? && forall p | p in e.answer.machines :: !Earlier(p, m)
    case ListPeers => Was(e, m, obs, EtcdConfig) && e.answer.Ok?
    case Probe(queue) => LedToProbe(e, m, obs, queue)
    case DialVictim(id) => LedToDial(e, m, obs, id)
    case Forfeit(id) => Was(e, m, obs, DialVictim(id)) && e.answer.Ok? && EtcdLeaving !in m.annotations
    case Leave(id) => (Was(e, m, obs, DialVictim(id)) && e.answer.Ok? && EtcdLeaving in m.annotations) || Was(e, m, obs, Forfeit(id))
    case Remove(id) => (Was(e, m, obs, DialVictim(id)) || Was(e, m, obs, Leave(id))) && !e.answer.Ok?
    case EtcdDeadline => History.EtcdAttemptFailed(e) && e.pc.m == m && e.pc.obs == obs
    case StampEtcd(v) => LedToEtcdStamp(cfg, e, m, obs, v)
    case ResolveReset => EtcdBehind(e, m, obs) && ResetConclusion !in m.annotations
    case DialReset => Was(e, m, obs, ResolveReset) && e.answer.Ok?
    case CallReset => Was(e, m, obs, DialReset) && e.answer.Ok?
    case ResetDeadline => History.ResetAttemptFailed(e) && e.pc.m == m && e.pc.obs == obs
    case StampReset(v) => LedToResetStamp(cfg, e, m, obs, v)
    case Release =>
      && Hooked(m) && ResetConclusion in m.annotations
      && (|| EtcdBehind(e, m, obs)
          || (e.Did? && e.pc.Active? && e.pc.obs == obs && e.pc.at.StampReset? && e.answer.Ok?
              && Stamped(e.pc.m, m, ResetConclusion, Value.Reset(e.pc.at.reset))))
  }

  ghost predicate Led(cfg: Config, e: Entry, pc: Pc) {
    pc.Active? ==> LedTo(cfg, e, pc.m, pc.obs, pc.at)
  }

  /** A version that asks for nothing. */
  ghost predicate NothingToDo(m: Machine) {
    || (!Ours(m) && !Hooked(m))
    || (m.deletion.Some? && Hooked(m) && !Ready(m))
    || (m.deletion.Some? && !Hooked(m) && (ResetConclusion in m.annotations || PastGate(m)))
  }

  /** The reconcile may end after this. */
  ghost predicate MayEnd(cfg: Config, e: Entry) {
    match e
    case Crashed => true
    case Began(m) => NothingToDo(m)
    case Did(pc, a, time) =>
      pc.Active? &&
      match pc.at
      case StampHook => !a.Ok?
      case RefreshCreds => !a.Ok? || pc.m.deletion.None? || !Ready(pc.m)
      case StampObserved(_) => !a.Ok?
      case ReadCluster => !a.ClusterIs?
      case ListTurn => !a.Machines? || exists p :: p in a.machines && Earlier(p, pc.m)
      case EtcdDeadline => time <= pc.obs * 1_000_000_000 + cfg.etcdTimeout
      case StampEtcd(_) => !a.Ok?
      case ResetDeadline => time <= pc.obs * 1_000_000_000 + cfg.resetTimeout
      case StampReset(_) => !a.Ok?
      case Release => true
      case _ => false
  }

  // ------------------------------------------------------------------- it is followed

  lemma DecideFollows(cfg: Config, m: Machine)
    ensures Led(cfg, Began(m), Decide(m)) && (Decide(m).Idle? ==> MayEnd(cfg, Began(m)))
  {
    ReadyExactly(m);
  }

  lemma GateFollows(cfg: Config, e: Entry, m: Machine)
    requires Begins(e, m) && Hooked(m) && m.deletion.Some?
    ensures Led(cfg, e, AtGate(m)) && (AtGate(m).Idle? ==> !Ready(m))
  {
    ReadyExactly(m);
  }

  lemma ResetFollows(cfg: Config, e: Entry, m: Machine, obs: int)
    requires EtcdBehind(e, m, obs) && Hooked(m)
    ensures Led(cfg, e, ResetStart(m, obs)) && ResetStart(m, obs).Active?
  {
  }

  lemma PatchIsStamp(m: Machine, k: Key, v: Value)
    ensures Stamped(m, Merge(m, Patch(map[k := v], {})), k, v)
  {
    assert m.annotations - {} == m.annotations;
  }

  lemma HookPatch(m: Machine)
    ensures HookedAnew(m, Patched(m, StampHook))
  {
  }

  lemma StampFollows(cfg: Config, now: nat, m: Machine, obs: int, at: Point, a: Answer)
    requires IsPatch(at) && (!at.StampHook? ==> Hooked(m))
    ensures var e, pc := Did(Active(m, obs, at), a, now), Advance(cfg, now, m, obs, at, a);
            Led(cfg, e, pc) && (pc.Idle? ==> MayEnd(cfg, e))
  {
    var e := Did(Active(m, obs, at), a, now);
    match at
    case StampHook => HookPatch(m);
    case StampObserved(t) => PatchIsStamp(m, ObservedAt, Timestamp(t));
    case StampEtcd(v) =>
      PatchIsStamp(m, EtcdConclusion, Value.Etcd(v));
      if a.Ok? {
        ResetFollows(cfg, e, Patched(m, at), obs);
      }
    case StampReset(v) => PatchIsStamp(m, ResetConclusion, Value.Reset(v));
    case Release =>
  }

  lemma BeforeTurnFollows(cfg: Config, now: nat, m: Machine, obs: int, at: Point, a: Answer)
    requires (at.RefreshCreds? || at.ObserveClock? || at.ReadCluster? || at.ListTurn?) && Hooked(m)
    requires at.RefreshCreds? ==> obs == 0
    ensures var e, pc := Did(Active(m, obs, at), a, now), Advance(cfg, now, m, obs, at, a);
            Led(cfg, e, pc) && (pc.Idle? ==> MayEnd(cfg, e))
  {
    var e := Did(Active(m, obs, at), a, now);
    if at.RefreshCreds? && a.Ok? && m.deletion.Some? {
      GateFollows(cfg, e, m);
    } else if at.ReadCluster? && a.ClusterIs? && EtcdBehind(e, m, obs) {
      ResetFollows(cfg, e, m, obs);
    } else if at.ListTurn? && a.Machines? {
      forall p ensures GoesBefore(p, m) <==> Earlier(p, m) {
        EarlierExactly(p, m);
      }
    }
  }

  lemma EtcdFollows(cfg: Config, now: nat, m: Machine, obs: int, at: Point, a: Answer)
    requires at.EtcdConfig? || at.ListPeers? || at.Probe? || at.DialVictim? || at.Forfeit? || at.Leave? || at.Remove? || at.EtcdDeadline?
    ensures var e, pc := Did(Active(m, obs, at), a, now), Advance(cfg, now, m, obs, at, a);
            Led(cfg, e, pc) && (pc.Idle? ==> MayEnd(cfg, e))
  {
    if at.Probe? && a.Members? {
      FirstMatchSpec(Flatten(a.resp), HostnameCandidates(m));
    }
  }

  lemma ResetCallsFollow(cfg: Config, now: nat, m: Machine, obs: int, at: Point, a: Answer)
    requires at.ResolveReset? || at.DialReset? || at.CallReset? || at.ResetDeadline?
    ensures var e, pc := Did(Active(m, obs, at), a, now), Advance(cfg, now, m, obs, at, a);
            Led(cfg, e, pc) && (pc.Idle? ==> MayEnd(cfg, e))
  {
  }

  lemma AdvanceFollows(cfg: Config, now: nat, m: Machine, obs: int, at: Point, a: Answer)
    requires (!at.StampHook? ==> Hooked(m)) && (at.RefreshCreds? ==> obs == 0)
    ensures var e, pc := Did(Active(m, obs, at), a, now), Advance(cfg, now, m, obs, at, a);
            Led(cfg, e, pc) && (pc.Idle? ==> MayEnd(cfg, e))
  {
    if IsPatch(at) {
      StampFollows(cfg, now, m, obs, at, a);
    } else if at.RefreshCreds? || at.ObserveClock? || at.ReadCluster? || at.ListTurn? {
      BeforeTurnFollows(cfg, now, m, obs, at, a);
    } else if at.ResolveReset? || at.DialReset? || at.CallReset? || at.ResetDeadline? {
      ResetCallsFollow(cfg, now, m, obs, at, a);
    } else {
      EtcdFollows(cfg, now, m, obs, at, a);
    }
  }
}

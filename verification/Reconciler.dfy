/** The reconciler's methods as the source writes them: each mutates its copy of the machine,
    patches, lists, dials, and may be interleaved with anything else at every call.  Their
    contracts tie them to the transition system: whatever a `Reconcile` does is a run of it, so
    every theorem about runs is a theorem about this code. */
module Reconciler {
  import opened Wrappers
  import opened Machines
  import opened Etcd
  import opened Peers
  import opened Protocol
  import opened Runs
  import Ordering

  /** The `*clusterv1.Machine` a reconcile works on. */
  class MachineCopy {
    var m: Machine

    constructor (m: Machine)
      ensures this.m == m
    {
      this.m := m;
    }
  }

  /** A step of `name`'s own reconcile. */
  predicate OwnStep(l: Label, name: string) {
    l.On? && l.name == name && (l.act.Read? || l.act.Reply? || l.act.Crash?)
  }

  lemma OthersLeavePc(w: World, l: Label, name: string)
    requires name in w.cells && !OwnStep(l, name)
    ensures name in Apply(w, l).cells && Apply(w, l).cells[name].pc == w.cells[name].pc
    ensures Apply(w, l).cells[name].trace == w.cells[name].trace
    ensures Apply(w, l).cfg == w.cfg
  {
  }

  /** The history went on from `before` by calls alone. */
  ghost predicate GoesOn(before: seq<Entry>, trace: seq<Entry>) {
    && |before| <= |trace|
    && (forall i | 0 <= i < |before| :: trace[i] == before[i])
    && (forall i | |before| <= i < |trace| :: trace[i].Did?)
  }

  /** One more call was made, and answered so. */
  ghost predicate Called(before: seq<Entry>, trace: seq<Entry>, pc: Pc, a: Answer) {
    && |trace| == |before| + 1 && trace[..|before|] == before
    && trace[|before|].Did? && trace[|before|].pc == pc && trace[|before|].answer == a
  }

  /** The first of the new calls read the clock in the second `obs`. */
  ghost predicate ReadClock(before: seq<Entry>, trace: seq<Entry>, m: Machine, obs: int) {
    && |before| < |trace| && trace[|before|].Did? && trace[|before|].pc == Active(m, 0, ObserveClock)
    && trace[|before|].time / NANOS == obs
  }

  /** The peers to try, in order, given what the list call answered. */
  ghost function PeersHeard(heard: Answer, m: Machine): seq<Machine> {
    if heard.Machines? then OrderPeers(heard.machines, m) else []
  }

  /** Peers were listed, and then the first of them probed one by one, with these answers. */
  ghost predicate Probed(before: seq<Entry>, trace: seq<Entry>, m: Machine, obs: int, heard: Answer, answers: seq<Answer>) {
    && |trace| == |before| + 1 + |answers| && |answers| <= |PeersHeard(heard, m)|
    && Called(before, trace[..|before| + 1], Active(m, obs, ListPeers), heard)
    && forall i | 0 <= i < |answers| :: ProbedAt(trace[|before| + 1 + i], m, obs, PeersHeard(heard, m), i, answers[i])
  }

  /** The entry is the probe of the i-th peer. */
  ghost predicate ProbedAt(e: Entry, m: Machine, obs: int, order: seq<Machine>, i: nat, a: Answer) {
    i < |order| && e.Did? && e.pc == Active(m, obs, Probe(order[i..])) && e.answer == a
  }

  lemma ProbedMore(before: seq<Entry>, soFar: seq<Entry>, trace: seq<Entry>, m: Machine, obs: int, heard: Answer, answers: seq<Answer>, a: Answer)
    requires Probed(before, soFar, m, obs, heard, answers) && |answers| < |PeersHeard(heard, m)|
    requires Called(soFar, trace, Active(m, obs, Probe(PeersHeard(heard, m)[|answers|..])), a)
    ensures Probed(before, trace, m, obs, heard, answers + [a])
  {
    assert trace[..|before| + 1] == soFar[..|before| + 1];
    forall i | 0 <= i < |answers + [a]|
      ensures ProbedAt(trace[|before| + 1 + i], m, obs, PeersHeard(heard, m), i, (answers + [a])[i])
    {
      if i < |answers| {
        assert trace[|before| + 1 + i] == trace[..|soFar|][|before| + 1 + i] == soFar[|before| + 1 + i];
      }
    }
  }

  /** A stamp of the hook that succeeded is among the calls since. */
  ghost predicate HookCalled(before: seq<Entry>, trace: seq<Entry>) {
    exists i :: |before| <= i < |trace| && trace[i].Did? && trace[i].pc.Active? && trace[i].pc.at.StampHook? && trace[i].answer.Ok?
  }

  /** The reconcile read this version and then made calls; if it went well and the version was to be
      hooked, it hooked it. */
  ghost predicate Reconciled(read: Machine, before: seq<Entry>, trace: seq<Entry>, ok: bool) {
    GoesOn(before + [Began(read)], trace) && (ok && ToBeHooked(read) ==> HookCalled(before, trace))
  }

  lemma HookStaysCalled(before: seq<Entry>, trace: seq<Entry>, more: seq<Entry>)
    requires HookCalled(before, trace) && GoesOn(trace, more)
    ensures HookCalled(before, more)
  {
    var i :| |before| <= i < |trace| && trace[i].Did? && trace[i].pc.Active? && trace[i].pc.at.StampHook? && trace[i].answer.Ok?;
    assert more[i] == trace[i];
  }

  lemma ReconciledOn(read: Machine, before: seq<Entry>, trace: seq<Entry>, more: seq<Entry>, ok: bool)
    requires Reconciled(read, before, trace, ok) && GoesOn(trace, more)
    ensures Reconciled(read, before, more, ok)
  {
    if ok && ToBeHooked(read) {
      HookStaysCalled(before, trace, more);
    }
  }

  class Controller {
    const cfg: Config
    /** The world as it is, and how it came to be. */
    var w: World
    ghost var states: seq<World>
    ghost var labels: seq<Label>
    /** The world in which the current `Reconcile` was called. */
    ghost var origin: World
    /** The machine's history when it had just been read. */
    ghost var before: seq<Entry>
    /** Clients dialed and not closed. */
    var open: set<nat>
    var dialed: nat

    ghost predicate Valid()
      reads this
    {
      && Chain(Apply, origin, states, labels) && w == states[|labels|] && w.cfg == cfg
      && forall h | h in open :: h < dialed
    }

    ghost predicate At(name: string, pc: Pc)
      reads this
    {
      name in w.cells && w.cells[name].pc == pc && GoesOn(before, w.cells[name].trace)
    }

    constructor (cfg: Config)
      ensures Valid() && w == Start(cfg) && open == {}
    {
      this.cfg, w, origin, before, states, labels := cfg, Start(cfg), Start(cfg), [], [Start(cfg)], [];
      open, dialed := {}, 0;
    }

    // ------------------------------------------------------------ the outside

    method Take(l: Label)
      requires Valid()
      modifies this
      ensures origin == old(origin) && before == old(before) && open == old(open)
      ensures Valid() && w == Apply(old(w), l) && labels == old(labels) + [l]
    {
      ChainExtends(Apply, origin, states, labels, l);
      w := Apply(w, l);
      states := states + [w];
      labels := labels + [l];
    }

    /** Anything but this machine's own reconcile happens, any number of times. */
    method Meanwhile(name: string)
      requires Valid() && name in w.cells
      modifies this
      ensures origin == old(origin) && before == old(before) && open == old(open)
      ensures Valid() && name in w.cells
      ensures w.cells[name].pc == old(w.cells[name].pc) && w.cells[name].trace == old(w.cells[name].trace)
    {
      var k: nat := *;
      while k > 0
        invariant Valid() && name in w.cells
        invariant w.cells[name].pc == old(w.cells[name].pc) && w.cells[name].trace == old(w.cells[name].trace)
        invariant origin == old(origin) && before == old(before) && open == old(open)
      {
        var l: Label := *;
        if !OwnStep(l, name) {
          OthersLeavePc(w, l, name);
          Take(l);
        }
        k := k - 1;
      }
    }

    /** Make the call at `at`; the other side answers `raw`, the reconcile hears `a` at time `now`. */
    method Tell(name: string, m: Machine, obs: int, at: Point, raw: Answer) returns (a: Answer, now: nat)
      requires Valid() && At(name, Active(m, obs, at))
      modifies this
      ensures origin == old(origin) && before == old(before) && open == old(open)
      ensures Valid() && At(name, Advance(cfg, now, m, obs, at, a))
      ensures w.cells[name].trace == old(w.cells[name].trace) + [Did(Active(m, obs, at), a, now)]
      ensures !raw.Picks? && !raw.Machines? && !raw.ClusterIs? ==> a == raw
    {
      Meanwhile(name);
      a, now := Heard(w, m, raw), w.now;
      Take(On(name, Reply(raw)));
    }

    method Call(name: string, m: Machine, obs: int, at: Point) returns (a: Answer, now: nat)
      requires Valid() && At(name, Active(m, obs, at))
      modifies this
      ensures origin == old(origin) && before == old(before) && open == old(open)
      ensures Valid() && At(name, Advance(cfg, now, m, obs, at, a))
      ensures w.cells[name].trace == old(w.cells[name].trace) + [Did(Active(m, obs, at), a, now)]
    {
      var raw: Answer := *;
      a, now := Tell(name, m, obs, at, raw);
    }

    method Dial() returns (client: nat)
      requires Valid()
      modifies this
      ensures origin == old(origin) && before == old(before) && w == old(w)
      ensures Valid() && client !in old(open) && open == old(open) + {client}
    {
      client := dialed;
      dialed := dialed + 1;
      open := open + {client};
    }

    method Close(client: nat)
      requires Valid()
      modifies this
      ensures origin == old(origin) && before == old(before) && w == old(w)
      ensures Valid() && open == old(open) - {client}
    {
      open := open - {client};
    }

    // ------------------------------------------------------------- annotations

    static predicate Carries(m: Machine, key: Key, value: Value) {
      key in m.annotations && m.annotations[key] == value
    }

    /** `patchAnnotations` (reconciler.go:233-247): unless the mutation changed nothing, the copy's
        map is mutated, then sent. */
    method PatchAnnotations(name: string, machine: MachineCopy, obs: int, at: Point, mutated: Annotations, changed: bool) returns (ok: bool)
      requires Valid()
      requires changed ==> IsPatch(at) && At(name, Active(machine.m, obs, at)) && mutated == Patched(machine.m, at).annotations
      modifies this, machine
      ensures origin == old(origin) && before == old(before) && open == old(open) && Valid()
      ensures !changed ==> ok && w == old(w) && machine.m == old(machine.m)
      ensures changed ==> machine.m == Patched(old(machine.m), at)
      ensures changed && ok ==> exists now :: At(name, Advance(cfg, now, old(machine.m), obs, at, Ok))
      ensures changed && ok ==> name in w.cells && Called(old(w.cells[name].trace), w.cells[name].trace, Active(old(machine.m), obs, at), Ok)
      ensures changed && !ok ==> At(name, Idle)
      ensures changed ==> name in w.cells && GoesOn(old(w.cells[name].trace), w.cells[name].trace)
    {
      if !changed {
        return true;
      }
      var before := machine.m;
      machine.m := machine.m.(annotations := mutated);
      var a, now := Call(name, before, obs, at);
      ok := a.Ok?;
    }

    /** `stampPhase` (reconciler.go:251-259). */
    method StampPhase(name: string, machine: MachineCopy, obs: int, at: Point, key: Key, value: Value) returns (ok: bool)
      requires Valid()
      requires !Carries(machine.m, key, value) ==>
                 IsPatch(at) && At(name, Active(machine.m, obs, at)) && PatchAt(machine.m, at) == Patch(map[key := value], {})
      modifies this, machine
      ensures origin == old(origin) && before == old(before) && open == old(open) && Valid()
      ensures Carries(machine.m, key, value)
      ensures old(Carries(machine.m, key, value)) ==> ok && w == old(w) && machine.m == old(machine.m)
      ensures !old(Carries(machine.m, key, value)) ==> machine.m == Patched(old(machine.m), at)
      ensures !old(Carries(machine.m, key, value)) && ok ==> exists now :: At(name, Advance(cfg, now, old(machine.m), obs, at, Ok))
      ensures !old(Carries(machine.m, key, value)) && !ok ==> At(name, Idle)
    {
      assert machine.m.annotations - {} == machine.m.annotations;
      ok := PatchAnnotations(name, machine, obs, at, machine.m.annotations[key := value], !Carries(machine.m, key, value));
    }

    /** `ensureHook` (reconciler.go:95-112). */
    method EnsureHook(name: string, machine: MachineCopy) returns (ok: bool)
      requires Valid()
      requires HasHook(machine.m) || StampAllowed(machine.m) ==>
                 At(name, Active(machine.m, 0, if HasHook(machine.m) then RefreshCreds else StampHook))
      modifies this, machine
      ensures origin == old(origin) && before == old(before) && open == old(open) && Valid()
      ensures old(HasHook(machine.m) || !StampAllowed(machine.m)) ==> ok && w == old(w) && machine.m == old(machine.m)
      ensures old(!HasHook(machine.m) && StampAllowed(machine.m)) ==> machine.m == Patched(old(machine.m), StampHook)
      ensures ok && HasHook(machine.m) ==> At(name, Active(machine.m, 0, RefreshCreds))
      ensures ok && old(!HasHook(machine.m) && StampAllowed(machine.m)) ==>
                name in w.cells && Called(old(w.cells[name].trace), w.cells[name].trace, Active(old(machine.m), 0, StampHook), Ok)
      ensures !ok ==> At(name, Idle)
    {
      if HasHook(machine.m) || !StampAllowed(machine.m) {
        return true;
      }
      var ann := machine.m.annotations[Hook := Owner];
      var legacy := CollectLegacyHooks(machine.m);
      var i := 0;
      while i < |legacy|
        invariant 0 <= i <= |legacy|
        invariant ann == (machine.m.annotations - (set k | k in legacy[..i])) + map[Hook := Owner]
      {
        assert legacy[i] in LegacyHooks(machine.m.annotations);
        ann := ann - {legacy[i]};
        assert legacy[..i + 1] == legacy[..i] + [legacy[i]];
        i := i + 1;
      }
      assert legacy[..i] == legacy;
      ok := PatchAnnotations(name, machine, 0, StampHook, ann, true);
    }

    /** `ensureCredentials` (reconciler.go:81-91), as a call that works or fails. */
    method EnsureCredentials(name: string, machine: MachineCopy) returns (ok: bool)
      requires Valid() && At(name, Active(machine.m, 0, RefreshCreds))
      modifies this
      ensures origin == old(origin) && before == old(before) && open == old(open)
      ensures Valid()
      ensures At(name, if ok && machine.m.deletion.Some? then AtGate(machine.m) else Idle)
    {
      var a, _ := Call(name, machine.m, 0, RefreshCreds);
      ok := a.Ok?;
    }

    /** `ensureObservedAt` (reconciler.go:167-181). */
    method EnsureObservedAt(name: string, machine: MachineCopy) returns (ok: bool, obs: int)
      requires Valid() && At(name, AtGate(machine.m)) && AtGate(machine.m).Active?
      modifies this, machine
      ensures origin == old(origin) && before == old(before) && open == old(open)
      ensures Valid()
      ensures machine.m == old(machine.m).(annotations := machine.m.annotations)
      ensures HasHook(machine.m) == old(HasHook(machine.m))
      ensures var m := old(machine.m);
              if ObservedAt in m.annotations && m.annotations[ObservedAt].Timestamp?
              then ok && obs == m.annotations[ObservedAt].seconds && machine.m == m && w == old(w)
              else machine.m == Patched(m, StampObserved(obs)) && name in w.cells && ReadClock(old(w.cells[name].trace), w.cells[name].trace, m, obs)
      ensures ok ==> At(name, Active(machine.m, obs, ReadCluster))
      ensures !ok ==> At(name, Idle)
    {
      obs := 0;
      if ObservedAt in machine.m.annotations {
        var value := machine.m.annotations[ObservedAt];
        if value.Timestamp? {
          return true, value.seconds;
        }
      }
      var _, now := Call(name, machine.m, 0, ObserveClock);
      obs := now / NANOS;
      assert machine.m.annotations - {} == machine.m.annotations;
      ok := PatchAnnotations(name, machine, 0, StampObserved(obs), machine.m.annotations[ObservedAt := Timestamp(obs)], true);
    }

    // --------------------------------------------------------------- etcd phase

    /** `serializeControlPlane` (reconciler.go:294-310). */
    method SerializeControlPlane(name: string, machine: MachineCopy, obs: int) returns (proceed: bool, ghost heard: Answer)
      requires Valid() && At(name, Active(machine.m, obs, ListTurn)) && machine.m.deletion.Some?
      modifies this
      ensures origin == old(origin) && before == old(before) && open == old(open)
      ensures Valid()
      ensures At(name, if proceed then Active(machine.m, obs, EtcdConfig) else Idle)
      ensures Called(old(w.cells[name].trace), w.cells[name].trace, Active(machine.m, obs, ListTurn), heard)
      ensures proceed <==> heard.Machines? && forall p | p in heard.machines :: !GoesBefore(p, machine.m)
    {
      var a, _ := Call(name, machine.m, obs, ListTurn);
      proceed, heard := false, a;
      if !a.Machines? {
        return;
      }
      var i := 0;
      while i < |a.machines|
        invariant 0 <= i <= |a.machines|
        invariant forall j | 0 <= j < i :: !GoesBefore(a.machines[j], machine.m)
      {
        var peer := a.machines[i];
        i := i + 1;
        if peer.name == machine.m.name || peer.deletion.None? || !HasHook(peer) {
          continue;
        }
        if peer.deletion.value < machine.m.deletion.value
           || (peer.deletion.value == machine.m.deletion.value && Ordering.Less(peer.name, machine.m.name)) {
          assert GoesBefore(peer, machine.m) && peer in a.machines;
          return;
        }
      }
      proceed := true;
    }

    /** `probePeer` (reconciler.go:423-451): a client stays open only if the peer was dialed,
        proved healthy and listed its members. */
    method ProbePeer(name: string, m: Machine, obs: int, queue: seq<Machine>)
      returns (client: Option<nat>, a: Answer, ghost dialed: bool, ghost healthy: bool)
      requires Valid() && queue != [] && At(name, Active(m, obs, Probe(queue)))
      modifies this
      ensures origin == old(origin) && before == old(before)
      ensures Valid() && client.Some? == a.Members? && (client.Some? ==> dialed && healthy)
      ensures name in w.cells && Called(old(w.cells[name].trace), w.cells[name].trace, Active(m, obs, Probe(queue)), a)
      ensures client.Some? ==> client.value !in old(open) && open == old(open) + {client.value}
      ensures client.None? ==> open == old(open)
      ensures exists now :: At(name, Advance(cfg, now, m, obs, Probe(queue), a))
    {
      client := None;
      var resolved: bool, dials: bool, runs: bool := *, *, *;
      dialed, healthy := resolved && dials, runs;
      var now;
      if !resolved || !dials {
        a, now := Tell(name, m, obs, Probe(queue), Failed);
        return;
      }
      var peer := Dial();
      if !runs {
        Close(peer);
        a, now := Tell(name, m, obs, Probe(queue), Failed);
        return;
      }
      a, now := Call(name, m, obs, Probe(queue));
      if !a.Members? {
        Close(peer);
        return;
      }
      client := Some(peer);
    }

    /** `findHealthyPeer` (reconciler.go:406-418): candidates are tried in order; the first that
        answers is the peer, and no other client stays open. */
    method FindHealthyPeer(name: string, m: Machine, obs: int)
      returns (client: Option<nat>, resp: MemberList, answers: seq<Answer>, ghost heard: Answer)
      requires Valid() && At(name, Active(m, obs, ListPeers))
      modifies this
      ensures origin == old(origin) && before == old(before)
      ensures Valid()
      ensures name in w.cells && Probed(old(w.cells[name].trace), w.cells[name].trace, m, obs, heard, answers)
      ensures client.Some? ==>
                && client.value !in old(open) && open == old(open) + {client.value}
                && answers != [] && answers[|answers| - 1] == Members(resp)
                && (forall i | 0 <= i < |answers| - 1 :: !answers[i].Members?)
                && At(name, match FindMember(resp, HostnameCandidates(m))
                            case None => Active(m, obs, StampEtcd(NotMember))
                            case Some(member) => Active(m, obs, DialVictim(member.id)))
      ensures client.None? ==>
                && open == old(open) && At(name, Active(m, obs, EtcdDeadline))
                && |answers| == |PeersHeard(heard, m)| && (forall i | 0 <= i < |answers| :: !answers[i].Members?)
    {
      client, resp, answers := None, [], [];
      ghost var before' := w.cells[name].trace;
      var a, _ := Call(name, m, obs, ListPeers);
      heard := a;
      if !a.Machines? {
        return;
      }
      var order := ChoosePeers(a.machines, m);
      var i := 0;
      while i < |order|
        invariant Valid() && 0 <= i <= |order| && |answers| == i
        invariant client.None? && open == old(open) && origin == old(origin) && before == old(before)
        invariant At(name, ProbeNext(m, obs, order[i..]))
        invariant forall j | 0 <= j < i :: !answers[j].Members?
        invariant Probed(before', w.cells[name].trace, m, obs, heard, answers)
      {
        ghost var soFar := w.cells[name].trace;
        var peer, answer, _, _ := ProbePeer(name, m, obs, order[i..]);
        client := peer;
        ProbedMore(before', soFar, w.cells[name].trace, m, obs, heard, answers, answer);
        answers := answers + [answer];
        if client.Some? {
          resp := answer.resp;
          return;
        }
        assert order[i..][1..] == order[i + 1..];
        i := i + 1;
      }
    }

    /** `leaveViaVictim` (reconciler.go:484-516). */
    method LeaveViaVictim(name: string, m: Machine, obs: int, id: nat) returns (left: bool)
      requires Valid() && At(name, Active(m, obs, DialVictim(id)))
      modifies this
      ensures origin == old(origin) && before == old(before)
      ensures Valid() && open == old(open)
      ensures At(name, Active(m, obs, if left then StampEtcd(Left) else Remove(id)))
    {
      var resolved: bool, dials: bool := *, *;
      if !resolved || !dials {
        var _, _ := Tell(name, m, obs, DialVictim(id), Failed);
        return false;
      }
      var victim := Dial();
      var a, _ := Call(name, m, obs, DialVictim(id));
      if !a.Ok? {
        Close(victim);
        return false;
      }
      left := Leaves(name, m, obs, id);
      Close(victim);
    }

    method Leaves(name: string, m: Machine, obs: int, id: nat) returns (left: bool)
      requires Valid() && At(name, Active(m, obs, if EtcdLeaving in m.annotations then Leave(id) else Forfeit(id)))
      modifies this
      ensures origin == old(origin) && before == old(before)
      ensures Valid() && open == old(open)
      ensures At(name, Active(m, obs, if left then StampEtcd(Left) else Remove(id)))
    {
      if EtcdLeaving !in m.annotations {
        var _, _ := Call(name, m, obs, Forfeit(id));
      }
      var leave, _ := Call(name, m, obs, Leave(id));
      left := leave.Ok?;
    }

    /** `tryEtcdRemoval` (reconciler.go:367-398). */
    method TryEtcdRemoval(name: string, m: Machine, obs: int) returns (outcome: Option<EtcdOutcome>)
      requires Valid() && At(name, Active(m, obs, EtcdConfig))
      modifies this
      ensures origin == old(origin) && before == old(before)
      ensures Valid() && open == old(open)
      ensures At(name, Active(m, obs, if outcome.Some? then StampEtcd(outcome.value) else EtcdDeadline))
    {
      var a, _ := Call(name, m, obs, EtcdConfig);
      if !a.Ok? {
        return None;
      }
      var peer, resp, _, _ := FindHealthyPeer(name, m, obs);
      if peer.None? {
        return None;
      }
      var hostnames := ListHostnames(m);
      var member := SearchMembers(resp, hostnames);
      if member.None? {
        Close(peer.value);
        return Some(NotMember);
      }
      outcome := LeaveOrRemove(name, m, obs, member.value.id);
      Close(peer.value);
    }

    /** Ask the victim to leave, else remove it by id through the peer. */
    method LeaveOrRemove(name: string, m: Machine, obs: int, id: nat) returns (outcome: Option<EtcdOutcome>)
      requires Valid() && At(name, Active(m, obs, DialVictim(id)))
      modifies this
      ensures origin == old(origin) && before == old(before)
      ensures Valid() && open == old(open)
      ensures At(name, Active(m, obs, if outcome.Some? then StampEtcd(outcome.value) else EtcdDeadline))
    {
      var left := LeaveViaVictim(name, m, obs, id);
      if left {
        return Some(Left);
      }
      var removal, _ := Call(name, m, obs, Remove(id));
      outcome := if removal.Ok? then Some(Removed) else None;
    }

    /** The attempt, and its deadline if it fails. */
    method RemoveOrTimeOut(name: string, m: Machine, obs: int) returns (outcome: Option<EtcdOutcome>)
      requires Valid() && At(name, Active(m, obs, EtcdConfig))
      modifies this
      ensures origin == old(origin) && before == old(before)
      ensures Valid() && open == old(open)
      ensures At(name, if outcome.Some? then Active(m, obs, StampEtcd(outcome.value)) else Idle)
    {
      outcome := TryEtcdRemoval(name, m, obs);
      if outcome.None? {
        var _, now := Call(name, m, obs, EtcdDeadline);
        if now > obs * NANOS + cfg.etcdTimeout {
          outcome := Some(Orphaned);
        }
      }
    }

    /** `ensureEtcdRemoved` (reconciler.go:329-349). */
    method EnsureEtcdRemoved(name: string, machine: MachineCopy, obs: int) returns (ok: bool)
      requires Valid() && At(name, Active(machine.m, obs, EtcdConfig)) && EtcdConclusion !in machine.m.annotations
      requires HasHook(machine.m)
      modifies this, machine
      ensures origin == old(origin) && before == old(before)
      ensures Valid() && open == old(open) && HasHook(machine.m)
      ensures At(name, if ok then ResetStart(machine.m, obs) else Idle)
    {
      var outcome := RemoveOrTimeOut(name, machine.m, obs);
      if outcome.None? {
        return false;
      }
      ok := StampPhase(name, machine, obs, StampEtcd(outcome.value), EtcdConclusion, Value.Etcd(outcome.value));
    }

    /** `etcdPhase` (reconciler.go:266-289). */
    method EtcdPhase(name: string, machine: MachineCopy, obs: int, clusterDeleting: bool) returns (ok: bool)
      requires Valid() && At(name, EtcdStart(machine.m, obs, clusterDeleting))
      requires machine.m.deletion.Some? && HasHook(machine.m)
      modifies this, machine
      ensures origin == old(origin) && before == old(before)
      ensures Valid() && open == old(open) && HasHook(machine.m)
      ensures At(name, if ok then ResetStart(machine.m, obs) else Idle)
    {
      if EtcdConclusion in machine.m.annotations {
        return true;
      }
      if clusterDeleting {
        ok := StampPhase(name, machine, obs, StampEtcd(SkippedClusterDelete), EtcdConclusion, Value.Etcd(SkippedClusterDelete));
        return;
      }
      if !machine.m.controlPlane {
        return true;
      }
      var proceed, _ := SerializeControlPlane(name, machine, obs);
      if !proceed {
        return false;
      }
      ok := EnsureEtcdRemoved(name, machine, obs);
    }

    // -------------------------------------------------------- reset and release

    /** `tryReset` (reconciler.go:560-596). */
    method TryReset(name: string, m: Machine, obs: int) returns (outcome: Option<ResetOutcome>)
      requires Valid() && At(name, Active(m, obs, ResolveReset))
      modifies this
      ensures origin == old(origin) && before == old(before)
      ensures Valid() && open == old(open)
      ensures At(name, Active(m, obs, if outcome.Some? then StampReset(outcome.value) else ResetDeadline))
    {
      var a, _ := Call(name, m, obs, ResolveReset);
      if a.NoAddress? {
        return Some(SkippedNoAddress);
      }
      if !a.Ok? {
        return None;
      }
      var dial, _ := Call(name, m, obs, DialReset);
      if !dial.Ok? {
        return None;
      }
      var victim := Dial();
      var reset, _ := Call(name, m, obs, CallReset);
      Close(victim);
      outcome := if reset.Ok? then Some(Done) else None;
    }

    /** The attempt, and its deadline if it fails. */
    method ResetOrTimeOut(name: string, m: Machine, obs: int) returns (outcome: Option<ResetOutcome>)
      requires Valid() && At(name, Active(m, obs, ResolveReset))
      modifies this
      ensures origin == old(origin) && before == old(before)
      ensures Valid() && open == old(open)
      ensures At(name, if outcome.Some? then Active(m, obs, StampReset(outcome.value)) else Idle)
    {
      outcome := TryReset(name, m, obs);
      if outcome.None? {
        var _, now := Call(name, m, obs, ResetDeadline);
        if now > obs * NANOS + cfg.resetTimeout {
          outcome := Some(SkippedTimeout);
        }
      }
    }

    /** `resetPhase` (reconciler.go:526-556). */
    method ResetPhase(name: string, machine: MachineCopy, obs: int) returns (ok: bool)
      requires Valid() && At(name, ResetStart(machine.m, obs)) && HasHook(machine.m)
      modifies this, machine
      ensures origin == old(origin) && before == old(before)
      ensures Valid() && open == old(open) && HasHook(machine.m)
      ensures At(name, if ok then Active(machine.m, obs, Release) else Idle)
    {
      if ResetConclusion in machine.m.annotations {
        return true;
      }
      var outcome := ResetOrTimeOut(name, machine.m, obs);
      if outcome.None? {
        return false;
      }
      ok := StampPhase(name, machine, obs, StampReset(outcome.value), ResetConclusion, Value.Reset(outcome.value));
    }

    /** `release` (reconciler.go:208-228). */
    method ReleaseHook(name: string, machine: MachineCopy, obs: int) returns (ok: bool)
      requires Valid() && At(name, ReleaseStart(machine.m, obs))
      modifies this, machine
      ensures origin == old(origin) && before == old(before) && open == old(open)
      ensures Valid() && At(name, Idle)
      ensures !old(HasHook(machine.m)) ==> ok && w == old(w) && machine.m == old(machine.m)
      ensures old(HasHook(machine.m)) ==> machine.m == Patched(old(machine.m), Release)
    {
      if !HasHook(machine.m) {
        return true;
      }
      var ann := machine.m.annotations - {Hook};
      var legacy := CollectLegacyHooks(machine.m);
      var i := 0;
      while i < |legacy|
        invariant 0 <= i <= |legacy|
        invariant ann == machine.m.annotations - ({Hook} + (set k | k in legacy[..i]))
      {
        ann := ann - {legacy[i]};
        assert legacy[..i + 1] == legacy[..i] + [legacy[i]];
        i := i + 1;
      }
      assert legacy[..i] == legacy;
      assert ann + map[] == ann;
      ok := PatchAnnotations(name, machine, obs, Release, ann, true);
    }

    // --------------------------------------------------------------- reconcile

    /** `reconcileDeleting` (reconciler.go:115-163). */
    method ReconcileDeleting(name: string, machine: MachineCopy) returns (ok: bool)
      requires Valid() && machine.m.deletion.Some? && At(name, Decide(machine.m))
      requires Qualifies(machine.m) || HasHook(machine.m)
      modifies this, machine
      ensures origin == old(origin) && GoesOn(old(before), before)
      ensures Valid() && At(name, Idle) && open == old(open)
      ensures ok && old(ToBeHooked(machine.m)) ==> HookCalled(old(before), before)
    {
      ReadyExactly(machine.m);
      if !HasHook(machine.m) {
        if ResetConclusion in machine.m.annotations {
          return true;
        }
        if !StampAllowed(machine.m) {
          return true;
        }
        ok := EnsureHook(name, machine);
        if !ok {
          return;
        }
        before := w.cells[name].trace;
        ok := EnsureCredentials(name, machine);
        if !ok {
          return;
        }
      }
      var reason := FindDeletingReason(machine.m);
      if reason != WaitingForPreTerminateHook {
        return true;
      }
      var others := ScanForeignHooks(machine.m);
      if others {
        return true;
      }
      ok := TearDown(name, machine);
    }

    /** The phases, once the machine waits at the gate for this controller alone. */
    method TearDown(name: string, machine: MachineCopy) returns (ok: bool)
      requires Valid() && HasHook(machine.m) && machine.m.deletion.Some? && At(name, AtGate(machine.m)) && AtGate(machine.m).Active?
      modifies this, machine
      ensures origin == old(origin) && before == old(before)
      ensures Valid() && At(name, Idle) && open == old(open)
    {
      var obs;
      ok, obs := EnsureObservedAt(name, machine);
      if !ok {
        return;
      }
      var cluster, _ := Call(name, machine.m, obs, ReadCluster);
      if !cluster.ClusterIs? {
        return false;
      }
      ok := EtcdPhase(name, machine, obs, cluster.deleting);
      if !ok {
        return;
      }
      ok := ResetPhase(name, machine, obs);
      if !ok {
        return;
      }
      ok := ReleaseHook(name, machine, obs);
    }

    /** `Reconcile` (reconciler.go:56-77).  Started while no reconcile of the machine is under way,
        it takes the world along a run -- its own steps and whatever happens between them.  It
        reads some version of the machine and then makes calls until the protocol has none left
        to make, and closes every client it dialed. */
    method Reconcile(name: string) returns (ok: bool)
      requires Valid() && (name in w.cells ==> w.cells[name].pc.Idle?)
      modifies this
      ensures Valid() && w == Run(old(w), labels) && open == old(open)
      ensures name in old(w.cells) ==>
                && name in w.cells && w.cells[name].pc.Idle?
                && exists read :: Reconciled(read, old(w.cells[name].trace), w.cells[name].trace, ok)
    {
      origin, states, labels := w, [w], [];
      if name !in w.cells {
        return true;
      }
      ghost var was := w.cells[name].trace;
      ok := Handle(name);
      ghost var read :| Reconciled(read, was, before, ok);
      ReconciledOn(read, was, before, w.cells[name].trace, ok);
      ChainIsRun(Apply, origin, states, labels);
    }

    method Handle(name: string) returns (ok: bool)
      requires Valid() && name in w.cells && w.cells[name].pc.Idle?
      modifies this
      ensures origin == old(origin)
      ensures Valid() && At(name, Idle) && open == old(open)
      ensures exists read :: Reconciled(read, old(w.cells[name].trace), before, ok)
    {
      ghost var was := w.cells[name].trace;
      Meanwhile(name);
      var k: nat := *;
      var machine := new MachineCopy(Version(w.cells[name], k));
      ghost var read := machine.m;
      before := w.cells[name].trace + [Began(machine.m)];
      Take(On(name, Read(k)));
      if !Qualifies(machine.m) && !HasHook(machine.m) {
        assert Reconciled(read, was, before, true);
        return true;
      }
      if machine.m.deletion.None? {
        ok := ReconcileNormal(name, machine);
      } else {
        ok := ReconcileDeleting(name, machine);
      }
      assert Reconciled(read, was, before, ok);
    }

    /** `reconcileNormal` (reconciler.go:72-77). */
    method ReconcileNormal(name: string, machine: MachineCopy) returns (ok: bool)
      requires Valid() && machine.m.deletion.None? && At(name, Decide(machine.m))
      requires Qualifies(machine.m) || HasHook(machine.m)
      modifies this, machine
      ensures origin == old(origin) && GoesOn(old(before), before)
      ensures Valid() && At(name, Idle) && open == old(open)
      ensures ok && old(ToBeHooked(machine.m)) ==> HookCalled(old(before), before)
    {
      ok := EnsureHook(name, machine);
      if ok {
        before := w.cells[name].trace;
        ok := EnsureCredentials(name, machine);
      }
    }
  }
}

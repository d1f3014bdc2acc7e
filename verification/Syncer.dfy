/** `Sync` and `applyManaged` as the source writes them, on a desired object they stamp and
    overwrite in place.  Whatever a `Sync` does, interleaved with anything else at every call, is
    a run of the transition system. */
module Syncer {
  import opened Wrappers
  import opened Names
  import opened Inventory
  import opened Desired
  import opened Sync
  import opened Runs
  import Defaults
  import Stored
  import Template

  predicate OwnStep(l: Label, pid: nat) {
    !l.Foreign? && !l.Delete? && l.pid == pid
  }

  /** Not one of the steps that begin a sync of `pid` or cut it short. */
  predicate Steady(l: Label, pid: nat) {
    OwnStep(l, pid) ==> l.Get? || l.GetFails? || l.Write?
  }

  /** The labels of one whole, uncut sync, with whatever else happened meanwhile. */
  ghost predicate OneSync(labels: seq<Label>, pid: nat, r: Request) {
    && labels != [] && labels[0] == Begin(pid, r)
    && forall i | 1 <= i < |labels| :: Steady(labels[i], pid)
  }

  lemma OthersLeaveProc(w: World, l: Label, pid: nat)
    requires !OwnStep(l, pid)
    ensures ProcOf(Apply(w, l), pid) == ProcOf(w, pid)
  {
  }

  /** Objects seen stay seen, and the log of writes only grows. */
  ghost predicate Grows(w: World, w': World) {
    && w.seen <= w'.seen && |w.log| <= |w'.log|
    && forall i | 0 <= i < |w.log| :: w'.log[i] == w.log[i]
  }

  lemma ApplyGrows(w: World, l: Label)
    ensures Grows(w, Apply(w, l))
  {
  }

  ghost predicate WrittenSince(w: World, from: nat, key: Key, f: Fields) {
    exists i :: from <= i < |w.log| && w.log[i].key == key && Stored.Carries(w.log[i].written.fields, f)
  }

  ghost predicate SeenUnmanaged(w: World, key: Key) {
    exists o :: (key, o) in w.seen && !Managed(o)
  }

  /** The object was written since, with these fields, or is somebody else's. */
  ghost predicate Upserted(w: World, from: nat, key: Key, f: Fields) {
    WrittenSince(w, from, key, f) || SeenUnmanaged(w, key)
  }

  lemma UpsertedStays(w: World, w': World, from: nat, later: nat, key: Key, f: Fields)
    requires Grows(w, w') && from <= later && Upserted(w, later, key, f)
    ensures Upserted(w', from, key, f)
  {
    if WrittenSince(w, later, key, f) {
      var i :| later <= i < |w.log| && w.log[i].key == key && Stored.Carries(w.log[i].written.fields, f);
      assert w'.log[i] == w.log[i];
    } else {
      var o :| (key, o) in w.seen && !Managed(o);
      assert (key, o) in w'.seen;
    }
  }

  lemma AllUpserted(w0: World, w1: World, w2: World, w3: World, job: Job)
    requires Grows(w0, w1) && Grows(w1, w2) && Grows(w2, w3)
    requires Upserted(w1, |w0.log|, job.KeyAt(0), job.FieldsAt(0))
    requires Upserted(w2, |w1.log|, job.KeyAt(1), job.FieldsAt(1))
    requires Upserted(w3, |w2.log|, job.KeyAt(2), job.FieldsAt(2))
    ensures forall step | 0 <= step <= 2 :: Upserted(w3, |w0.log|, job.KeyAt(step), job.FieldsAt(step))
  {
    assert Grows(w1, w3);
    UpsertedStays(w1, w3, |w0.log|, |w0.log|, job.KeyAt(0), job.FieldsAt(0));
    UpsertedStays(w2, w3, |w0.log|, |w1.log|, job.KeyAt(1), job.FieldsAt(1));
    UpsertedStays(w3, w3, |w0.log|, |w2.log|, job.KeyAt(2), job.FieldsAt(2));
    forall step | 0 <= step <= 2 ensures Upserted(w3, |w0.log|, job.KeyAt(step), job.FieldsAt(step)) {
      assert step == 0 || step == 1 || step == 2;
    }
  }

  ghost predicate WrittenAs(w: World, from: nat, key: Key, r: Request, step: nat) {
    exists i :: from <= i < |w.log| && w.log[i].key == key && Stored.Holds(w.log[i].written.fields, r, step)
  }

  ghost predicate SomebodyElses(w: World, key: Key) {
    exists o :: (key, o) in w.seen && !Stored.Is(o.fields, ManagedBy, Str("tinkerbell-bmc-discovery-controller"))
  }

  /** The object of the step-th apply was written since as the request says, or one without the
      managed-by label was there. */
  ghost predicate Synced(w: World, from: nat, r: Request, step: nat) {
    WrittenAs(w, from, Stored.KeyOf(r, step), r, step) || SomebodyElses(w, Stored.KeyOf(r, step))
  }

  lemma UnmanagedIsSomebodyElses(w: World, key: Key)
    requires SeenUnmanaged(w, key)
    ensures SomebodyElses(w, key)
  {
    var o :| (key, o) in w.seen && !Managed(o);
    assert !Stored.Is(o.fields, ManagedBy, Str("tinkerbell-bmc-discovery-controller"));
  }

  lemma UpsertedIsSynced(w: World, from: nat, r: Request, step: nat, key: Key, f: Fields)
    requires Upserted(w, from, key, f) && key == Stored.KeyOf(r, step) && Stored.Holds(f, r, step)
    ensures Synced(w, from, r, step)
  {
    if WrittenSince(w, from, key, f) {
      var i :| from <= i < |w.log| && w.log[i].key == key && Stored.Carries(w.log[i].written.fields, f);
      Stored.CarriedHolds(w.log[i].written.fields, f, r, step);
      assert WrittenAs(w, from, key, r, step);
    } else {
      UnmanagedIsSomebodyElses(w, key);
    }
  }

  ghost predicate Existed(w: World, key: Key) {
    exists o :: (key, o) in w.seen
  }

  /** The object a sync is about to assert. */
  class DesiredObject {
    var fields: Fields
    var version: Option<nat>

    constructor (fields: Fields)
      ensures this.fields == fields && version == None
    {
      this.fields, version := fields, None;
    }

    /** `stampOwnership` (syncer.go:174-190). */
    method StampOwnership(ep: Endpoint, now: string)
      modifies this
      ensures fields == old(fields) + Ownership(ep, now) && version == old(version)
    {
      fields := fields[ManagedBy := MANAGED];
      fields := fields[LastSeen := Str(now)];
      fields := fields[MdnsInstance := Str(ep.instance)];
      fields := fields[MdnsService := Str(ep.service)];
    }

    /** The `carry` closure (syncer.go:86-92). */
    method CarryNetboot(live: Fields)
      modifies this
      ensures fields == Carry(old(fields), live) && version == old(version)
    {
      if Interfaces !in fields || !fields[Interfaces].Nics? || |fields[Interfaces].nics| == 0 {
        return;
      }
      var nics := fields[Interfaces].nics;
      fields := fields[Interfaces := Nics(nics[0 := nics[0].(netboot := Some(NetbootFor(Some(live))))])];
    }
  }

  class Worker {
    const opts: Options
    const pid: nat
    /** The world as it is, and how it came to be since the current `Sync` was called. */
    var w: World
    ghost var origin: World
    ghost var request: Request
    ghost var states: seq<World>
    ghost var labels: seq<Label>

    ghost predicate Valid()
      reads this
    {
      Chain(Apply, origin, states, labels) && w == states[|labels|] && OneSync(labels, pid, request)
    }

    ghost predicate At(p: Proc)
      reads this
    {
      ProcOf(w, pid) == p
    }

    constructor (opts: Options, pid: nat, w: World)
      ensures this.opts == opts && this.pid == pid && this.w == w
    {
      this.opts, this.pid, this.w := opts, pid, w;
    }

    method Take(l: Label)
      requires Valid() && Steady(l, pid)
      modifies this
      ensures origin == old(origin) && request == old(request) && Grows(old(w), w)
      ensures Valid() && w == Apply(old(w), l)
    {
      ChainExtends(Apply, origin, states, labels, l);
      ApplyGrows(w, l);
      w := Apply(w, l);
      states := states + [w];
      labels := labels + [l];
    }

    /** Anything but this sync's own steps happens, any number of times. */
    method Meanwhile()
      requires Valid()
      modifies this
      ensures origin == old(origin) && request == old(request) && Grows(old(w), w)
      ensures Valid() && At(old(ProcOf(w, pid)))
    {
      var k: nat := *;
      while k > 0
        invariant Valid() && At(old(ProcOf(w, pid)))
        invariant origin == old(origin) && request == old(request) && Grows(old(w), w)
      {
        var l: Label := *;
        if !OwnStep(l, pid) {
          OthersLeaveProc(w, l, pid);
          Take(l);
        }
        k := k - 1;
      }
    }

    /** A Get answers with any state the object ever had, absence included, or fails. */
    method Get(job: Job, step: nat) returns (ok: bool, live: Option<Obj>)
      requires Valid() && At(Reading(job, step))
      modifies this
      ensures origin == old(origin) && request == old(request) && Grows(old(w), w)
      ensures Valid() && At(if ok then Decided(job, step, live) else Resting)
      ensures ok && live.Some? ==> (job.KeyAt(step), live.value) in w.seen
    {
      Meanwhile();
      ok, live := *, *;
      if !ok {
        Take(GetFails(pid));
        return;
      }
      if live.Some? && (job.KeyAt(step), live.value) !in w.seen {
        live := None;
      }
      Take(Label.Get(pid, live));
    }

    /** Create or Apply: the server accepts it, refuses it, or is not heard. */
    method Send(ghost p: Proc, payload: Fields, version: Option<nat>) returns (ok: bool)
      requires Valid() && At(p) && (p.Creating? || p.Applying?)
      requires payload == Payload(p.job, p.step, ReadBy(p))
      requires version == if p.Applying? then Some(p.read.version) else None
      modifies this
      ensures origin == old(origin) && request == old(request) && Grows(old(w), w)
      ensures Valid() && At(if ok then Next(p.job, p.step) else Resting)
      ensures ok ==>
                && |old(w.log)| < |w.log| && (p.job.KeyAt(p.step), w.log[|w.log| - 1].written) in w.seen
                && var e := w.log[|w.log| - 1];
                   && e.key == p.job.KeyAt(p.step) && (forall f | f in payload :: f in e.written.fields && e.written.fields[f] == payload[f])
                   && (version.None? ==> e.replaced.None? && e.written.fields == payload)
                   && (version.Some? ==> e.replaced.Some? && e.replaced.value.version == version.value)
    {
      Meanwhile();
      var outcome: Outcome, choice: Choice := *, *;
      ok := outcome.Ok? && Effective(w, Write(pid, outcome, choice));
      Take(Write(pid, outcome, choice));
    }

    /** `applyManaged` (syncer.go:108-154). */
    method ApplyManaged(job: Job, step: nat, desired: DesiredObject, ep: Endpoint, now: string) returns (ok: bool)
      requires Valid() && At(Reading(job, step))
      requires desired.fields + Ownership(ep, now) == job.FieldsAt(step) && desired.version == None
      modifies this, desired
      ensures origin == old(origin) && request == old(request) && Grows(old(w), w)
      ensures Valid() && At(if ok then Next(job, step) else Resting)
      ensures ok ==> Existed(w, job.KeyAt(step)) && Upserted(w, |old(w.log)|, job.KeyAt(step), job.FieldsAt(step))
    {
      desired.StampOwnership(ep, now);
      var found, live := Get(job, step);
      if !found {
        return false;
      }
      if live.None? {
        ok := Send(Creating(job, step), desired.fields, desired.version);
        assert ok ==> WrittenSince(w, |old(w.log)|, job.KeyAt(step), job.FieldsAt(step));
        return;
      }
      if !Managed(live.value) {
        assert SeenUnmanaged(w, job.KeyAt(step));
        return true;
      }
      Stored.PayloadCarries(job, step, live);
      if step == 2 {
        desired.CarryNetboot(live.value.fields);
      }
      desired.version := Some(live.value.version);
      ok := Send(Applying(job, step, live.value), desired.fields, desired.version);
      assert ok ==> WrittenSince(w, |old(w.log)|, job.KeyAt(step), job.FieldsAt(step));
    }

    /** The name of an endpoint's resources (syncer.go:52-59). */
    method PickName(ep: Endpoint, dev: Device) returns (name: string)
      ensures name == Template.SyncName(opts.template, ep, dev)
    {
      name := Template.Render(opts.template, ep, dev);
      if name == "" {
        name := ResourceName(ep);
      }
    }

    /** `Sync` (syncer.go:48-97). */
    method Sync(ep: Endpoint, dev: Option<Device>, creds: Defaults.Credentials, now: Stamps) returns (ok: bool)
      requires ProcOf(w, pid).Resting?
      modifies this
      ensures dev.None? ==> !ok && w == old(w)
      ensures dev.Some? ==> OneSync(labels, pid, Request(opts, ep, dev.value, creds, now))
      ensures dev.Some? ==> w == Run(old(w), labels) && ProcOf(w, pid).Resting?
      ensures ok ==> forall step | 0 <= step <= 2 ::
                Synced(w, |old(w.log)|, Request(opts, ep, dev.value, creds, now), step)
    {
      if dev.None? {
        return false;
      }
      var name := PickName(ep, dev.value);
      var r := Request(opts, ep, dev.value, creds, now);
      var begun := Apply(w, Begin(pid, r));
      origin, request, states, labels := w, r, [w, begun], [Begin(pid, r)];
      w := begun;
      assert Linked(Apply, states, labels, 0);
      ok := SyncAll(r, name, PrimaryMac(dev.value), JobOf(r));
      ChainIsRun(Apply, origin, states, labels);
      if ok {
        forall step | 0 <= step <= 2 ensures Synced(w, |old(w.log)|, r, step) {
          Stored.JobHolds(r, step);
          UpsertedIsSynced(w, |old(w.log)|, r, step, JobOf(r).KeyAt(step), JobOf(r).FieldsAt(step));
        }
      }
    }

    method SyncAll(r: Request, name: string, mac: string, job: Job) returns (ok: bool)
      requires Valid() && At(Reading(job, 0)) && r.opts == opts
      requires job == Plan(name, mac, opts, r.ep, r.dev, r.creds, r.now)
      modifies this
      ensures origin == old(origin) && request == old(request)
      ensures Valid() && At(Resting)
      ensures ok ==> forall step | 0 <= step <= 2 :: Upserted(w, |old(w.log)|, job.KeyAt(step), job.FieldsAt(step))
    {
      var authName := name + "-bmc-auth";
      var secret := new DesiredObject(AuthSecret(r.creds));
      ok := ApplyManaged(job, 0, secret, r.ep, r.now.secret);
      if !ok {
        return;
      }
      ghost var w1 := w;
      var machine := new DesiredObject(BmcMachine(r.ep, Key(SecretKind, authName), opts.insecureTLS));
      ok := ApplyManaged(job, 1, machine, r.ep, r.now.machine);
      if !ok {
        return;
      }
      ghost var w2 := w;
      var hardware := new DesiredObject(Hardware(r.dev, mac, name, Key(MachineKind, name), opts));
      ok := ApplyManaged(job, 2, hardware, r.ep, r.now.hardware);
      if ok {
        AllUpserted(old(w), w1, w2, w, job);
      }
    }
  }
}

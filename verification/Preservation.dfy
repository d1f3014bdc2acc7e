/** What discovery leaves alone: objects it does not manage, other controllers' fields, and the
    live netboot (internal/sync/syncer.go:77-154, internal/sync/mapping.go:107-168). */
module Preservation {
  import opened Wrappers
  import opened Desired
  import opened Sync
  import opened Runs
  import Inventory
  import Template
  import Linearization

  /** Somebody else writes or deletes the object. */
  predicate Outside(l: Label, key: Key) {
    (l.Foreign? || l.Delete?) && l.key == key
  }

  ghost predicate SamePath(a: Fields, b: Fields, p: Path) {
    (p in a) == (p in b) && (p in a ==> a[p] == b[p])
  }

  ghost predicate OwnsContract(key: Key, o: Obj) {
    forall p | p in o.owned :: Contract(key.kind, p)
  }

  /** A write stays within the paths discovery owned before it or owns after it. */
  ghost predicate EntryKeeps(e: Entry) {
    && OwnsContract(e.key, e.written)
    && (e.replaced.Some? ==>
          && OwnsContract(e.key, e.replaced.value)
          && forall p | p !in e.replaced.value.owned && p !in e.written.owned ::
               SamePath(e.replaced.value.fields, e.written.fields, p))
  }

  ghost predicate Inv(w: World) {
    && Linearization.Inv(w)
    && (forall key | key in w.server.store :: OwnsContract(key, w.server.store[key]))
    && (forall e | e in w.log :: EntryKeeps(e))
  }

  lemma PayloadInContract(job: Job, step: nat, read: Option<Obj>)
    requires WellFormed(job) && step <= 2
    ensures Payload(job, step, read).Keys == job.FieldsAt(step).Keys
    ensures forall p | p in Payload(job, step, read) :: Contract(job.KeyAt(step).kind, p)
  {
    assert StepWellFormed(job, step);
    if read.Some? {
      CarrySpec(job.FieldsAt(2), read.value.fields);
    }
  }

  lemma AppliedKeeps(key: Key, o: Obj, payload: Fields, choice: Choice, version: nat)
    requires OwnsContract(key, o) && forall p | p in payload :: Contract(key.kind, p)
    ensures var o' := Applied(o, payload, choice, version);
            && OwnsContract(key, o')
            && forall p | p !in o.owned && p !in o'.owned :: SamePath(o.fields, o'.fields, p)
  {
  }

  lemma WriteKeeps(w: World, l: Label)
    requires Inv(w) && Effective(w, l)
    ensures var p := ProcOf(w, l.pid);
            var key, o := p.job.KeyAt(p.step), Written(w.server, p, l.choice);
            && OwnsContract(key, o) && EntryKeeps(Entry(key, ReadBy(p), Lookup(w.server, key), o))
  {
    var p := ProcOf(w, l.pid);
    var key, payload := p.job.KeyAt(p.step), Payload(p.job, p.step, ReadBy(p));
    PayloadInContract(p.job, p.step, ReadBy(p));
    if p.Applying? {
      AppliedKeeps(key, w.server.store[key], payload, l.choice, w.server.version);
    }
  }

  lemma ApplyInv(w: World, l: Label)
    requires Inv(w)
    ensures Inv(Apply(w, l))
  {
    Linearization.ApplyInv(w, l);
    if Effective(w, l) {
      WriteKeeps(w, l);
    }
  }

  lemma RunInv(ls: seq<Label>)
    ensures Inv(Run(START, ls))
  {
    forall w, l | Inv(w) ensures Inv(Apply(w, l)) {
      ApplyInv(w, l);
    }
    KeptThroughout(Apply, START, ls, (w, l) => true, Inv);
  }

  /** In every run discovery owns only paths of its contract, and each of its writes changes only
      paths it owned before or owns after. */
  lemma OwnsOnlyItsContract(ls: seq<Label>)
    ensures var w := Run(START, ls);
            && (forall key | key in w.server.store :: OwnsContract(key, w.server.store[key]))
            && (forall e | e in w.log :: EntryKeeps(e))
  {
    RunInv(ls);
  }

  // ------------------------------------------------------- what nobody else touches stays

  lemma KeptWhileAlone(w: World, ls: seq<Label>, key: Key, inv: World -> bool)
    requires Inv(w) && inv(w) && forall l | l in ls :: !Outside(l, key)
    requires forall v, l | Inv(v) && inv(v) && !Outside(l, key) :: inv(Apply(v, l))
    ensures inv(Run(w, ls))
  {
    var both := v => Inv(v) && inv(v);
    forall v, l | both(v) && !Outside(l, key) ensures both(Apply(v, l)) {
      ApplyInv(v, l);
    }
    KeptThroughout(Apply, w, ls, (v, l) => !Outside(l, key), both);
  }

  /** Only a sync that works on the object changes it. */
  ghost predicate WritesTo(w: World, l: Label, key: Key) {
    Effective(w, l) && var p := ProcOf(w, l.pid); p.job.KeyAt(p.step) == key
  }

  lemma OthersLeaveIt(w: World, l: Label, key: Key)
    requires !Outside(l, key) && !WritesTo(w, l, key)
    ensures Lookup(Apply(w, l).server, key) == Lookup(w.server, key)
  {
  }

  lemma UnmanagedStep(w: World, l: Label, key: Key, o: Obj)
    requires Inv(w) && !Outside(l, key) && Lookup(w.server, key) == Some(o) && !Managed(o)
    ensures Lookup(Apply(w, l).server, key) == Some(o)
  {
    if WritesTo(w, l, key) {
      Linearization.AcceptedReadsCurrent(w, ProcOf(w, l.pid));
    } else {
      OthersLeaveIt(w, l, key);
    }
  }

  /** An object without the managed-by label is neither modified nor adopted, from any reachable
      state, however the syncs interleave: it stays as it is until somebody else writes it. */
  lemma UnmanagedUntouched(before: seq<Label>, ls: seq<Label>, key: Key, o: Obj)
    requires Lookup(Run(START, before).server, key) == Some(o)
    requires !(ManagedBy in o.fields && o.fields[ManagedBy] == Str("tinkerbell-bmc-discovery-controller"))
    requires forall l | l in ls :: !Outside(l, key)
    ensures Lookup(Run(Run(START, before), ls).server, key) == Some(o)
  {
    RunInv(before);
    var inv := (v: World) => Lookup(v.server, key) == Some(o);
    forall v, l | Inv(v) && inv(v) && !Outside(l, key) ensures inv(Apply(v, l)) {
      UnmanagedStep(v, l, key, o);
    }
    KeptWhileAlone(Run(START, before), ls, key, inv);
  }

  ghost function ValueAt(w: World, key: Key, p: Path): Option<Value> {
    if key in w.server.store && p in w.server.store[key].fields then Some(w.server.store[key].fields[p]) else None
  }

  lemma WriteKeepsForeign(w: World, l: Label, key: Key, p: Path)
    requires Inv(w) && WritesTo(w, l, key) && key in w.server.store && !Contract(key.kind, p)
    ensures SamePath(w.server.store[key].fields, Written(w.server, ProcOf(w, l.pid), l.choice).fields, p)
  {
    WriteKeeps(w, l);
    var o, o' := w.server.store[key], Written(w.server, ProcOf(w, l.pid), l.choice);
    assert p !in o.owned && p !in o'.owned;
  }

  lemma ForeignPathStep(w: World, l: Label, key: Key, p: Path)
    requires Inv(w) && !Outside(l, key) && key in w.server.store && !Contract(key.kind, p)
    ensures key in Apply(w, l).server.store && ValueAt(Apply(w, l), key, p) == ValueAt(w, key, p)
  {
    if WritesTo(w, l, key) {
      WriteKeepsForeign(w, l, key, p);
    } else {
      OthersLeaveIt(w, l, key);
    }
  }

  /** A path outside the contract keeps the value others gave it, whatever discovery does. */
  lemma ForeignPathsSurvive(before: seq<Label>, ls: seq<Label>, key: Key, p: Path)
    requires key in Run(START, before).server.store && !Contract(key.kind, p)
    requires forall l | l in ls :: !Outside(l, key)
    ensures ValueAt(Run(Run(START, before), ls), key, p) == ValueAt(Run(START, before), key, p)
  {
    RunInv(before);
    var w := Run(START, before);
    var value := ValueAt(w, key, p);
    var inv := (v: World) => key in v.server.store && ValueAt(v, key, p) == value;
    forall v, l | Inv(v) && inv(v) && !Outside(l, key) ensures inv(Apply(v, l)) {
      ForeignPathStep(v, l, key, p);
    }
    KeptWhileAlone(w, ls, key, inv);
  }

  // ---------------------------------------------------------------------- live netboot

  /** The netboot of the first interface. */
  ghost function PrimaryNetboot(f: Fields): Option<Netboot> {
    if Interfaces in f && f[Interfaces].Nics? && f[Interfaces].nics != [] then f[Interfaces].nics[0].netboot else None
  }

  ghost predicate AssertsNics(job: Job) {
    Interfaces in job.hardware && job.hardware[Interfaces].Nics? && job.hardware[Interfaces].nics != []
  }

  lemma MacMeansNics(r: Request)
    ensures AssertsNics(JobOf(r)) == (Inventory.PrimaryMac(r.dev) != "")
    ensures Interfaces in JobOf(r).hardware ==> AssertsNics(JobOf(r))
  {
    InterfacesNeedMac(Template.SyncName(r.opts.template, r.ep, r.dev), Inventory.PrimaryMac(r.dev), r.opts, r.ep, r.dev, r.creds, r.now);
  }

  lemma CarriesNetboot(job: Job, o: Obj, choice: Choice, version: nat)
    requires AssertsNics(job) && PrimaryNetboot(o.fields).Some?
    ensures PrimaryNetboot(Applied(o, Payload(job, 2, Some(o)), choice, version).fields) == PrimaryNetboot(o.fields)
  {
    CarrySpec(job.hardware, o.fields);
  }

  lemma DropsNetboot(job: Job, o: Obj, version: nat)
    requires Interfaces !in job.hardware && Interfaces in o.owned
    ensures PrimaryNetboot(Applied(o, Payload(job, 2, Some(o)), Choice({Interfaces}, {}), version).fields).None?
  {
    CarrySpec(job.hardware, o.fields);
  }

  /** An apply leaves the live netboot as it was, whatever the server does with the paths no
      longer asserted, exactly when the inventory has a MAC or discovery does not own the
      interfaces. */
  lemma NetbootKeptExactly(r: Request, o: Obj, version: nat)
    requires PrimaryNetboot(o.fields).Some?
    ensures (forall choice ::
               PrimaryNetboot(Applied(o, Payload(JobOf(r), 2, Some(o)), choice, version).fields) == PrimaryNetboot(o.fields))
            <==> (Inventory.PrimaryMac(r.dev) != "" || Interfaces !in o.owned)
  {
    MacMeansNics(r);
    NetbootKept(JobOf(r), o, version);
  }

  lemma NetbootKept(job: Job, o: Obj, version: nat)
    requires PrimaryNetboot(o.fields).Some? && (Interfaces in job.hardware ==> AssertsNics(job))
    ensures (forall choice ::
               PrimaryNetboot(Applied(o, Payload(job, 2, Some(o)), choice, version).fields) == PrimaryNetboot(o.fields))
            <==> (AssertsNics(job) || Interfaces !in o.owned)
  {
    if AssertsNics(job) {
      forall choice ensures PrimaryNetboot(Applied(o, Payload(job, 2, Some(o)), choice, version).fields) == PrimaryNetboot(o.fields) {
        CarriesNetboot(job, o, choice, version);
      }
    } else if Interfaces in o.owned {
      DropsNetboot(job, o, version);
    } else {
      CarrySpec(job.hardware, o.fields);
    }
  }

  /** A sync of this Hardware carries a MAC. */
  ghost predicate WithMac(l: Label, key: Key) {
    l.Begin? && JobOf(l.request).KeyAt(2) == key ==> Inventory.PrimaryMac(l.request.dev) != ""
  }

  ghost predicate AllAssertNics(w: World, key: Key) {
    forall pid | pid in w.procs && !w.procs[pid].Resting? && w.procs[pid].job.KeyAt(2) == key :: AssertsNics(w.procs[pid].job)
  }

  lemma NicsStep(w: World, l: Label, key: Key)
    requires AllAssertNics(w, key) && WithMac(l, key)
    ensures AllAssertNics(Apply(w, l), key)
  {
    if l.Begin? {
      MacMeansNics(l.request);
    }
  }

  ghost predicate Boots(w: World, key: Key, nb: Netboot) {
    key in w.server.store && PrimaryNetboot(w.server.store[key].fields) == Some(nb)
  }

  lemma NetbootStep(w: World, l: Label, key: Key, nb: Netboot)
    requires Inv(w) && AllAssertNics(w, key) && !Outside(l, key) && Boots(w, key, nb) && key.kind.HardwareKind?
    ensures Boots(Apply(w, l), key, nb)
  {
    if WritesTo(w, l, key) {
      var p := ProcOf(w, l.pid);
      Linearization.AcceptedReadsCurrent(w, p);
      CarriesNetboot(p.job, p.read, l.choice, w.server.version);
    } else {
      OthersLeaveIt(w, l, key);
    }
  }

  /** When every sync of the object carries a MAC, the netboot somebody else set on it stays set,
      over whole runs, whatever is synced beside it. */
  lemma NetbootStays(before: seq<Label>, ls: seq<Label>, key: Key, nb: Netboot)
    requires key.kind.HardwareKind? && Boots(Run(START, before), key, nb)
    requires forall l | l in before + ls :: WithMac(l, key)
    requires forall l | l in ls :: !Outside(l, key)
    ensures Boots(Run(Run(START, before), ls), key, nb)
  {
    var w := Run(START, before);
    RunInv(before);
    forall v, l | AllAssertNics(v, key) && WithMac(l, key) ensures AllAssertNics(Apply(v, l), key) {
      NicsStep(v, l, key);
    }
    KeptThroughout(Apply, START, before, (v, l) => WithMac(l, key), v => AllAssertNics(v, key));
    var inv := (v: World) => Inv(v) && AllAssertNics(v, key) && Boots(v, key, nb);
    forall v, l | inv(v) && WithMac(l, key) && !Outside(l, key) ensures inv(Apply(v, l)) {
      ApplyInv(v, l);
      NicsStep(v, l, key);
      NetbootStep(v, l, key, nb);
    }
    KeptThroughout(Apply, w, ls, (v, l) => WithMac(l, key) && !Outside(l, key), inv);
  }

  // ------------------------------------------------------------------- reference order

  /** The Machine or Hardware written refers to `k`: to a Secret, or to a Machine. */
  ghost predicate Names(e: Entry, k: Key) {
    var f := e.written.fields;
    || (e.key.kind.MachineKind? && AuthSecretRef in f && f[AuthSecretRef] == Reference(k) && k.kind.SecretKind?)
    || (e.key.kind.HardwareKind? && BmcRef in f && f[BmcRef] == Reference(k) && k.kind.MachineKind?)
  }

  ghost predicate Exists(w: World, k: Key) {
    k in w.server.store
  }

  /** A sync that went past `k` leaves it there. */
  ghost predicate WentPast(w: World, p: Proc, k: Key) {
    !p.Resting? && p.step > 0 && p.job.KeyAt(p.step - 1) == k ==> Exists(w, k)
  }

  ghost predicate SeenExists(w: World, k: Key) {
    forall x | x in w.seen && x.0 == k :: Exists(w, k)
  }

  ghost predicate OrderInv(w: World, k: Key) {
    && Linearization.Inv(w) && SeenExists(w, k)
    && (forall pid | pid in w.procs :: WentPast(w, w.procs[pid], k))
    && (forall e | e in w.log :: Names(e, k) ==> Exists(w, k))
  }

  /** What a write refers to is what its sync went past just before. */
  lemma WriteNames(w: World, l: Label)
    requires Linearization.Inv(w) && Effective(w, l)
    ensures var p := ProcOf(w, l.pid);
            var key, o := p.job.KeyAt(p.step), Written(w.server, p, l.choice);
            var e := Entry(key, ReadBy(p), Lookup(w.server, key), o);
            && (p.step > 0 ==> Names(e, p.job.KeyAt(p.step - 1)))
            && (forall k | Names(e, k) :: p.step > 0 && k == p.job.KeyAt(p.step - 1))
  {
    var p := ProcOf(w, l.pid);
    assert StepWellFormed(p.job, p.step);
    if p.Applying? {
      CarrySpec(p.job.FieldsAt(2), p.read.fields);
    }
  }

  lemma KeyStays(w: World, l: Label, k: Key)
    requires SeenExists(w, k) && l != Delete(k)
    ensures SeenExists(Apply(w, l), k) && (Exists(w, k) ==> Exists(Apply(w, l), k))
  {
  }

  lemma ProcsStep(w: World, l: Label, pid: nat, k: Key)
    requires OrderInv(w, k) && l != Delete(k) && pid in Apply(w, l).procs
    ensures WentPast(Apply(w, l), Apply(w, l).procs[pid], k)
  {
    KeyStays(w, l, k);
    assert pid in w.procs ==> WentPast(w, w.procs[pid], k);
    var p := ProcOf(w, pid);
    if l.Get? && l.pid == pid && l.answer.Some? && p.Reading? {
      var x := (p.job.KeyAt(p.step), l.answer.value);
      assert x in w.seen && x.0 == k ==> Exists(w, k);
    }
  }

  lemma LogStep(w: World, l: Label, k: Key)
    requires OrderInv(w, k) && l != Delete(k)
    ensures forall e | e in Apply(w, l).log :: Names(e, k) ==> Exists(Apply(w, l), k)
  {
    KeyStays(w, l, k);
    if Effective(w, l) {
      WriteNames(w, l);
    }
    forall e | e in Apply(w, l).log && Names(e, k) ensures Exists(Apply(w, l), k) {
      assert e in w.log ==> Exists(w, k);
    }
  }

  lemma OrderStep(w: World, l: Label, k: Key)
    requires OrderInv(w, k) && l != Delete(k)
    ensures OrderInv(Apply(w, l), k)
  {
    var w' := Apply(w, l);
    Linearization.ApplyInv(w, l);
    KeyStays(w, l, k);
    forall pid | pid in w'.procs ensures WentPast(w', w'.procs[pid], k) {
      ProcsStep(w, l, pid, k);
    }
    LogStep(w, l, k);
  }

  ghost predicate NamesSome(e: Entry) {
    e.key.kind.SecretKind? || exists k :: Names(e, k)
  }

  ghost predicate NamesInv(w: World) {
    Linearization.Inv(w) && forall e | e in w.log :: NamesSome(e)
  }

  lemma NamesStep(w: World, l: Label)
    requires NamesInv(w)
    ensures NamesInv(Apply(w, l))
  {
    Linearization.ApplyInv(w, l);
    if Effective(w, l) {
      WriteNames(w, l);
    }
  }

  lemma StillThere(ls: seq<Label>, e: Entry, k: Key)
    requires e in Run(START, ls).log && Names(e, k) && Delete(k) !in ls
    ensures Exists(Run(START, ls), k)
  {
    forall w, l | OrderInv(w, k) && l != Delete(k) ensures OrderInv(Apply(w, l), k) {
      OrderStep(w, l, k);
    }
    KeptThroughout(Apply, START, ls, (w, l) => l != Delete(k), w => OrderInv(w, k));
  }

  /** At every point of every run, wherever syncs fail or stop: a Machine discovery wrote names a
      Secret, a Hardware it wrote names a Machine, and what it names exists unless somebody deleted
      that very object. */
  lemma ReferenceOrder(ls: seq<Label>, e: Entry)
    requires e in Run(START, ls).log && !e.key.kind.SecretKind?
    ensures exists k :: Names(e, k) && (Delete(k) !in ls ==> Exists(Run(START, ls), k))
  {
    forall w, l | NamesInv(w) ensures NamesInv(Apply(w, l)) {
      NamesStep(w, l);
    }
    KeptThroughout(Apply, START, ls, (w, l) => true, NamesInv);
    assert NamesSome(e);
    var k :| Names(e, k);
    if Delete(k) !in ls {
      StillThere(ls, e, k);
    }
  }
}

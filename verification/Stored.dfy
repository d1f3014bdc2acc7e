/** What the objects discovery writes hold (internal/sync/mapping.go:49-156,
    internal/sync/syncer.go:48-97, 174-190), field by field. */
module Stored {
  import opened Wrappers
  import opened Names
  import opened Inventory
  import opened Template
  import opened Desired
  import opened Sync
  import opened Runs
  import Defaults
  import Linearization

  ghost predicate Is(f: Fields, p: Path, v: Value) {
    p in f && f[p] == v
  }

  /** The label and the annotations of every object discovery writes. */
  ghost predicate Owned(f: Fields, ep: Endpoint, now: string) {
    && Is(f, ManagedBy, Str("tinkerbell-bmc-discovery-controller"))
    && Is(f, LastSeen, Str(now)) && Is(f, MdnsInstance, Str(ep.instance)) && Is(f, MdnsService, Str(ep.service))
  }

  ghost predicate HoldsSecret(f: Fields, r: Request) {
    && Owned(f, r.ep, r.now.secret)
    && Is(f, Username, Str(r.creds.username)) && Is(f, Password, Str(r.creds.password))
  }

  ghost predicate HoldsMachine(f: Fields, r: Request, name: string) {
    && Owned(f, r.ep, r.now.machine)
    && Is(f, Host, Str(r.ep.ip)) && Is(f, Port, Num(r.ep.port)) && Is(f, InsecureTLS, Flag(r.opts.insecureTLS))
    && Is(f, ProviderOptions, Num(r.ep.port))
    && Is(f, AuthSecretRef, Reference(Key(SecretKind, name + "-bmc-auth")))
  }

  /** All but the interfaces. */
  ghost predicate HoldsHardware(f: Fields, r: Request, name: string, mac: string) {
    && Owned(f, r.ep, r.now.hardware)
    && Is(f, AgentID, Str(mac)) && Is(f, InstanceID, Str(if mac != "" then mac else r.dev.serial))
    && Is(f, InstanceHostname, Str(name)) && Is(f, ManufacturerSlug, Str(Sanitized(r.dev.vendor)))
    && Is(f, BmcRef, Reference(Key(MachineKind, name)))
    && (r.opts.facilityCode != "" ==> Is(f, FacilityCode, Str(r.opts.facilityCode)))
    && (r.opts.autoEnrollment ==> Is(f, EnrollmentEnabled, Flag(true)))
    && (DriveNames(r.dev.drives) != [] ==> Is(f, Disks, Value.Names(DriveNames(r.dev.drives))))
  }

  /** The object of the step-th apply of this request. */
  ghost predicate Holds(f: Fields, r: Request, step: nat) {
    var name, mac := SyncName(r.opts.template, r.ep, r.dev), PrimaryMac(r.dev);
    if step == 0 then HoldsSecret(f, r)
    else if step == 1 then HoldsMachine(f, r, name)
    else HoldsHardware(f, r, name, mac)
  }

  ghost function KeyOf(r: Request, step: nat): Key {
    var name := SyncName(r.opts.template, r.ep, r.dev);
    if step == 0 then Key(SecretKind, name + "-bmc-auth")
    else if step == 1 then Key(MachineKind, name)
    else Key(HardwareKind, name)
  }

  /** The disks are the names of the drives that have one, in order. */
  lemma {:induction false} DrivesInOrder(a: seq<Option<string>>, b: seq<Option<string>>)
    ensures DriveNames(a + b) == DriveNames(a) + DriveNames(b)
    ensures forall d :: DriveNames([Some(d)]) == if d == "" then [] else [d]
    ensures DriveNames([None]) == []
  {
    if b == [] {
      assert a + b == a;
    } else {
      assert (a + b)[..|a + b| - 1] == a + b[..|b| - 1];
      DrivesInOrder(a, b[..|b| - 1]);
    }
    forall d ensures DriveNames([Some(d)]) == if d == "" then [] else [d] {
      assert [Some(d)][..0] == [];
    }
    var none: seq<Option<string>> := [None];
    assert none[..0] == [];
  }

  // ------------------------------------------------------------------------ the payloads

  predicate Stamp(p: Path) {
    p.ManagedBy? || p.LastSeen? || p.MdnsInstance? || p.MdnsService?
  }

  /** Stamping adds the four keys and leaves the others. */
  lemma Overlaid(base: Fields, ep: Endpoint, now: string)
    ensures Owned(base + Ownership(ep, now), ep, now)
    ensures forall p | p in base && !Stamp(p) :: Is(base + Ownership(ep, now), p, base[p])
  {
    OwnershipKeys(ep, now);
  }

  lemma OwnershipKeys(ep: Endpoint, now: string)
    ensures Owned(Ownership(ep, now), ep, now) && forall p | p in Ownership(ep, now) :: Stamp(p)
  {
  }

  lemma SecretHolds(creds: Defaults.Credentials)
    ensures var f := AuthSecret(creds); Is(f, Username, Str(creds.username)) && Is(f, Password, Str(creds.password))
  {
  }

  lemma MachineHolds(ep: Endpoint, secret: Key, tls: bool)
    ensures var f := BmcMachine(ep, secret, tls);
            && Is(f, Host, Str(ep.ip)) && Is(f, Port, Num(ep.port)) && Is(f, InsecureTLS, Flag(tls))
            && Is(f, ProviderOptions, Num(ep.port)) && Is(f, AuthSecretRef, Reference(secret))
  {
  }

  lemma PlanSecret(r: Request, f: Fields)
    requires f == AuthSecret(r.creds) + Ownership(r.ep, r.now.secret)
    ensures HoldsSecret(f, r)
  {
    SecretHolds(r.creds);
    Overlaid(AuthSecret(r.creds), r.ep, r.now.secret);
  }

  lemma PlanMachine(r: Request, name: string, f: Fields, base: Fields)
    requires base == BmcMachine(r.ep, Key(SecretKind, name + "-bmc-auth"), r.opts.insecureTLS)
    requires f == base + Ownership(r.ep, r.now.machine)
    ensures HoldsMachine(f, r, name)
  {
    MachineHolds(r.ep, Key(SecretKind, name + "-bmc-auth"), r.opts.insecureTLS);
    Overlaid(base, r.ep, r.now.machine);
  }

  lemma PlanHardware(r: Request, name: string, mac: string, f: Fields, base: Fields)
    requires base == Hardware(r.dev, mac, name, Key(MachineKind, name), r.opts)
    requires f == base + Ownership(r.ep, r.now.hardware)
    ensures HoldsHardware(f, r, name, mac)
  {
    HardwareHolds(r, name, mac);
    Overlaid(base, r.ep, r.now.hardware);
  }

  lemma HardwareHolds(r: Request, name: string, mac: string)
    ensures var f := Hardware(r.dev, mac, name, Key(MachineKind, name), r.opts);
            && Is(f, AgentID, Str(mac)) && Is(f, InstanceID, Str(if mac != "" then mac else r.dev.serial))
            && Is(f, InstanceHostname, Str(name)) && Is(f, ManufacturerSlug, Str(Sanitized(r.dev.vendor)))
            && Is(f, BmcRef, Reference(Key(MachineKind, name)))
            && (r.opts.facilityCode != "" ==> Is(f, FacilityCode, Str(r.opts.facilityCode)))
            && (r.opts.autoEnrollment ==> Is(f, EnrollmentEnabled, Flag(true)))
            && (DriveNames(r.dev.drives) != [] ==> Is(f, Disks, Value.Names(DriveNames(r.dev.drives))))
  {
  }

  lemma JobHolds(r: Request, step: nat)
    requires step <= 2
    ensures Holds(JobOf(r).FieldsAt(step), r, step) && JobOf(r).KeyAt(step) == KeyOf(r, step)
  {
    var name, mac := SyncName(r.opts.template, r.ep, r.dev), PrimaryMac(r.dev);
    var job := JobOf(r);
    PlanSecret(r, job.secret);
    PlanMachine(r, name, job.machine, BmcMachine(r.ep, Key(SecretKind, name + "-bmc-auth"), r.opts.insecureTLS));
    PlanHardware(r, name, mac, job.hardware, Hardware(r.dev, mac, name, Key(MachineKind, name), r.opts));
  }

  /** `g` holds what `f` asserts, except perhaps for the interfaces. */
  ghost predicate Carries(g: Fields, f: Fields) {
    forall p | p in f && p != Interfaces :: Is(g, p, f[p])
  }

  lemma CarriedHolds(g: Fields, f: Fields, r: Request, step: nat)
    requires Carries(g, f) && Holds(f, r, step)
    ensures Holds(g, r, step)
  {
    var name, mac := SyncName(r.opts.template, r.ep, r.dev), PrimaryMac(r.dev);
    if step == 0 {
      CarriesSecret(g, f, r);
    } else if step == 1 {
      CarriesMachine(g, f, r, name);
    } else {
      CarriesHardware(g, f, r, name, mac);
    }
  }

  lemma CarriesSecret(g: Fields, f: Fields, r: Request)
    requires Carries(g, f) && HoldsSecret(f, r)
    ensures HoldsSecret(g, r)
  {
  }

  lemma CarriesMachine(g: Fields, f: Fields, r: Request, name: string)
    requires Carries(g, f) && HoldsMachine(f, r, name)
    ensures HoldsMachine(g, r, name)
  {
  }

  lemma CarriesHardware(g: Fields, f: Fields, r: Request, name: string, mac: string)
    requires Carries(g, f) && HoldsHardware(f, r, name, mac)
    ensures HoldsHardware(g, r, name, mac)
  {
  }

  // -------------------------------------------------------------------- over whole runs

  /** Every running sync works on one of these requests. */
  ghost predicate Asked(w: World, asked: set<(nat, Request)>) {
    forall pid | pid in w.procs && !w.procs[pid].Resting? :: AskedFor(w.procs[pid].job, pid, asked)
  }

  ghost predicate AskedFor(job: Job, pid: nat, asked: set<(nat, Request)>) {
    exists r :: (pid, r) in asked && job == JobOf(r)
  }

  ghost predicate AsksFor(l: Label, asked: set<(nat, Request)>) {
    l.Begin? ==> (l.pid, l.request) in asked
  }

  lemma AskedStep(w: World, l: Label, asked: set<(nat, Request)>)
    requires Asked(w, asked) && AsksFor(l, asked)
    ensures Asked(Apply(w, l), asked)
  {
    forall pid | pid in Apply(w, l).procs && !Apply(w, l).procs[pid].Resting?
      ensures AskedFor(Apply(w, l).procs[pid].job, pid, asked)
    {
      JobStays(w, l, pid);
      if l.Begin? && l.pid == pid {
        assert AskedFor(JobOf(l.request), pid, asked);
      }
    }
  }

  /** A sync works on its request to its end. */
  lemma JobStays(w: World, l: Label, pid: nat)
    requires pid in Apply(w, l).procs && !Apply(w, l).procs[pid].Resting?
    ensures var job := Apply(w, l).procs[pid].job;
            || (pid in w.procs && !w.procs[pid].Resting? && job == w.procs[pid].job)
            || (l.Begin? && l.pid == pid && job == JobOf(l.request))
  {
    if !l.Begin? {
      JobStaysAside(w, l, pid);
    }
  }

  lemma JobStaysAside(w: World, l: Label, pid: nat)
    requires !l.Begin? && pid in Apply(w, l).procs && !Apply(w, l).procs[pid].Resting?
    ensures pid in w.procs && !w.procs[pid].Resting? && Apply(w, l).procs[pid].job == w.procs[pid].job
  {
    match l
    case Get(q, answer) =>
    case Write(q, outcome, choice) =>
    case _ =>
  }

  lemma PayloadCarries(job: Job, step: nat, read: Option<Obj>)
    ensures Carries(Payload(job, step, read), job.FieldsAt(step))
  {
    if read.Some? {
      CarrySpec(job.FieldsAt(2), read.value.fields);
    }
  }

  lemma WrittenCarries(s: Server, p: Proc, choice: Choice)
    requires p.Creating? || p.Applying?
    ensures Carries(Written(s, p, choice).fields, p.job.FieldsAt(p.step))
  {
    PayloadCarries(p.job, p.step, ReadBy(p));
  }

  /** The request a write is made for. */
  ghost predicate WrittenFor(ls: seq<Label>, l: Label, r: Request, step: nat, o: Obj) {
    && l.Write? && Begin(l.pid, r) in ls && step <= 2
    && KeyOf(r, step) in Apply(Run(START, ls), l).server.store && Apply(Run(START, ls), l).server.store[KeyOf(r, step)] == o
    && Holds(o.fields, r, step)
  }

  /** In every run: a write that takes effect leaves on the server, under the name of the request some
      earlier sync of that worker was begun with, an object that holds what the request says. */
  lemma StoredAsRequested(ls: seq<Label>, l: Label)
    requires Effective(Run(START, ls), l)
    ensures exists r, o :: WrittenFor(ls, l, r, ProcOf(Run(START, ls), l.pid).step, o)
  {
    var asked := set x | x in ls && x.Begin? :: (x.pid, x.request);
    forall w, x | Asked(w, asked) && AsksFor(x, asked) ensures Asked(Apply(w, x), asked) {
      AskedStep(w, x, asked);
    }
    forall i | 0 <= i < |ls| ensures AsksFor(ls[i], asked) {
      assert ls[i] in ls;
    }
    KeptThroughout(Apply, START, ls, (w, x) => AsksFor(x, asked), w => Asked(w, asked));
    Linearization.RunInv(ls);
    var w := Run(START, ls);
    var p := ProcOf(w, l.pid);
    assert AskedFor(p.job, l.pid, asked);
    var r :| (l.pid, r) in asked && p.job == JobOf(r);
    JobHolds(r, p.step);
    StoredAt(w, l);
    WrittenHolds(w.server, p, l.choice, r);
    var x :| x in ls && x.Begin? && (x.pid, x.request) == (l.pid, r);
    assert x == Begin(l.pid, r);
    assert WrittenFor(ls, l, r, p.step, Written(w.server, p, l.choice));
  }

  lemma StoredAt(w: World, l: Label)
    requires Effective(w, l)
    ensures var p := ProcOf(w, l.pid);
            var key := p.job.KeyAt(p.step);
            key in Apply(w, l).server.store && Apply(w, l).server.store[key] == Written(w.server, p, l.choice)
  {
  }

  lemma WrittenHolds(s: Server, p: Proc, choice: Choice, r: Request)
    requires (p.Creating? || p.Applying?) && Holds(p.job.FieldsAt(p.step), r, p.step)
    ensures Holds(Written(s, p, choice).fields, r, p.step)
  {
    WrittenCarries(s, p, choice);
    CarriedHolds(Written(s, p, choice).fields, p.job.FieldsAt(p.step), r, p.step);
  }

  /** A Hardware that discovery creates for a device with a MAC has that one interface, armed for
      netboot and workflows. */
  lemma CreatedInterface(w: World, l: Label, r: Request)
    requires Effective(w, l) && ProcOf(w, l.pid) == Creating(JobOf(r), 2) && PrimaryMac(r.dev) != ""
    ensures var o := Written(w.server, ProcOf(w, l.pid), l.choice);
            var name := SyncName(r.opts.template, r.ep, r.dev);
            Is(o.fields, Interfaces, Nics([Interface(Some(Netboot(Some(true), Some(true))), PrimaryMac(r.dev), name)]))
  {
    InterfacesNeedMac(SyncName(r.opts.template, r.ep, r.dev), PrimaryMac(r.dev), r.opts, r.ep, r.dev, r.creds, r.now);
  }
}

/** Every version discovery writes was computed from exactly the version it replaces. */
module Linearization {
  import opened Wrappers
  import Template
  import Inventory
  import opened Desired
  import opened Sync
  import opened Runs

  ghost predicate JobInv(p: Proc) {
    p.Resting? || (WellFormed(p.job) && p.step <= 2)
  }

  ghost predicate ProcInv(w: World, p: Proc) {
    JobInv(p) && (p.Applying? ==> Managed(p.read) && (p.job.KeyAt(p.step), p.read) in w.seen)
  }

  /** A version tells an object from everything its key ever held. */
  ghost predicate VersionsTell(w: World) {
    && (forall key | key in w.server.store :: (key, w.server.store[key]) in w.seen)
    && (forall x | x in w.seen ::
          && x.1.version < w.server.version
          && (x.0 in w.server.store && w.server.store[x.0].version == x.1.version ==> w.server.store[x.0] == x.1))
  }

  ghost predicate EntryOk(e: Entry) {
    e.read == e.replaced && (e.replaced.Some? ==> Managed(e.replaced.value))
  }

  ghost predicate Inv(w: World) {
    && VersionsTell(w)
    && (forall pid | pid in w.procs :: ProcInv(w, w.procs[pid]))
    && (forall e | e in w.log :: EntryOk(e))
  }

  lemma JobIsWellFormed(r: Request)
    ensures WellFormed(JobOf(r))
  {
    PlanIsWellFormed(Template.SyncName(r.opts.template, r.ep, r.dev), Inventory.PrimaryMac(r.dev), r.opts, r.ep, r.dev, r.creds, r.now);
  }

  lemma PutTells(w: World, key: Key, o: Obj)
    requires VersionsTell(w) && o.version == w.server.version
    ensures VersionsTell(WithObj(w, key, o))
  {
  }

  /** What an accepted write replaces is what its sync read. */
  lemma AcceptedReadsCurrent(w: World, p: Proc)
    requires VersionsTell(w) && ProcInv(w, p) && (p.Creating? || p.Applying?) && Accepts(w.server, p)
    ensures ReadBy(p) == Lookup(w.server, p.job.KeyAt(p.step))
  {
    if p.Applying? {
      var x := (p.job.KeyAt(p.step), p.read);
      assert x in w.seen;
    }
  }

  lemma WriteInv(w: World, pid: nat, outcome: Outcome, choice: Choice)
    requires Inv(w)
    ensures Inv(Apply(w, Write(pid, outcome, choice)))
  {
    var p, l := ProcOf(w, pid), Write(pid, outcome, choice);
    if Effective(w, l) {
      AcceptedReadsCurrent(w, p);
      PutTells(w, p.job.KeyAt(p.step), Written(w.server, p, choice));
    }
  }

  lemma ApplyInv(w: World, l: Label)
    requires Inv(w)
    ensures Inv(Apply(w, l))
  {
    match l
    case Foreign(key, fields, owned) => PutTells(w, key, ForeignObj(w.server, key, fields, owned));
    case Delete(key) =>
    case Begin(pid, request) => JobIsWellFormed(request);
    case Get(pid, answer) =>
    case GetFails(pid) =>
    case Write(pid, outcome, choice) => WriteInv(w, pid, outcome, choice);
    case Crash(pid) =>
  }

  lemma RunInv(ls: seq<Label>)
    ensures Inv(Run(START, ls))
  {
    forall w, l | Inv(w) ensures Inv(Apply(w, l)) {
      ApplyInv(w, l);
    }
    KeptThroughout(Apply, START, ls, (w, l) => true, Inv);
  }

  /** In every run, every version discovery wrote was computed from the very version it replaced,
      or from absence where there was nothing; and what it replaced carried the managed-by label. */
  lemma WritesReplaceWhatTheyRead(ls: seq<Label>, e: Entry)
    requires e in Run(START, ls).log
    ensures e.read == e.replaced && (e.replaced.Some? ==> Managed(e.replaced.value))
  {
    RunInv(ls);
  }

  // ----------------------------------------------------------------- the atomic system

  /** The same upsert in one step: look, decide and write with nothing in between. */
  function Upsert(s: Server, job: Job, step: nat, choice: Choice): Server {
    var key := job.KeyAt(step);
    var live := Lookup(s, key);
    match live
    case None => Put(s, key, Created(Payload(job, step, None), s.version))
    case Some(o) => if Managed(o) then Put(s, key, Applied(o, Payload(job, step, live), choice, s.version)) else s
  }

  datatype Atom =
    | Outside(key: Key, fields: Fields, owned: set<Path>)
    | Removal(key: Key)
    | Upserting(job: Job, step: nat, choice: Choice)
    | Nothing

  function Do(s: Server, a: Atom): Server {
    match a
    case Outside(key, fields, owned) => Put(s, key, ForeignObj(s, key, fields, owned))
    case Removal(key) => s.(store := s.store - {key})
    case Upserting(job, step, choice) => Upsert(s, job, step, choice)
    case Nothing => s
  }

  /** What a label is in the atomic system. */
  function AtomOf(w: World, l: Label): Atom {
    match l
    case Foreign(key, fields, owned) => Outside(key, fields, owned)
    case Delete(key) => Removal(key)
    case Write(pid, _, choice) =>
      if Effective(w, l) then Upserting(ProcOf(w, pid).job, ProcOf(w, pid).step, choice) else Nothing
    case _ => Nothing
  }

  lemma WriteIsAtomic(w: World, l: Label)
    requires Inv(w) && Effective(w, l)
    ensures Apply(w, l).server == Upsert(w.server, ProcOf(w, l.pid).job, ProcOf(w, l.pid).step, l.choice)
  {
    AcceptedReadsCurrent(w, ProcOf(w, l.pid));
  }

  lemma StepRefines(w: World, l: Label)
    requires Inv(w)
    ensures Apply(w, l).server == Do(w.server, AtomOf(w, l))
  {
    if l.Write? && Effective(w, l) {
      WriteIsAtomic(w, l);
    }
  }

  /** Get-then-conditional-write refines one atomic step: the server goes, in every run, through
      the very states it goes through when every upsert happens at once. */
  lemma Refines(ls: seq<Label>, k: nat)
    requires k <= |ls|
    ensures Run(START, ls[..k]).server == Fold(Do, START.server, Image(Apply, AtomOf, START, ls)[..k])
  {
    forall w, l | Inv(w) ensures Inv(Apply(w, l)) && Apply(w, l).server == Do(w.server, AtomOf(w, l)) {
      ApplyInv(w, l);
      StepRefines(w, l);
    }
    SimulatesRun(Apply, Do, (w: World) => w.server, AtomOf, Inv, START, ls, k);
  }
}

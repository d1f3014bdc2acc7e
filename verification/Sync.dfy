/** Discovery's upserts against a shared API server (internal/sync/syncer.go:48-154) as a
    labelled transition system.

    Any number of syncs run at once, interleaved with any other writers.  A Get may answer with
    any state its object ever had, so with absence too; every call may fail, or report an error
    after taking effect; a sync may stop anywhere.  A label that is not enabled leaves the world
    unchanged, so every sequence of labels is a run. */
module Sync {
  import opened Wrappers
  import opened Names
  import opened Inventory
  import Defaults
  import opened Desired
  import opened Runs

  // ----------------------------------------------------------------------- the server

  /** `owned` are the paths whose field manager is discovery. */
  datatype Obj = Obj(fields: Fields, owned: set<Path>, version: nat)

  /** `version` is the next resource version; none is handed out twice. */
  datatype Server = Server(store: map<Key, Obj>, version: nat)

  function Lookup(s: Server, key: Key): Option<Obj> {
    if key in s.store then Some(s.store[key]) else None
  }

  function Put(s: Server, key: Key, o: Obj): Server {
    Server(s.store[key := o], s.version + 1)
  }

  /** Another writer puts any fields, on a new or an existing object.  It may take paths over
      from discovery; it cannot make discovery own one. */
  function ForeignObj(s: Server, key: Key, fields: Fields, owned: set<Path>): Obj {
    Obj(fields, if key in s.store then owned * s.store[key].owned * fields.Keys else {}, s.version)
  }

  predicate Managed(o: Obj) {
    ManagedBy in o.fields && o.fields[ManagedBy] == MANAGED
  }

  /** Which of the paths discovery owned and no longer asserts the server removes, and which it
      merely stops counting as discovery's: that turns on co-owners this model does not keep. */
  datatype Choice = Choice(dropped: set<Path>, disowned: set<Path>)

  function Created(payload: Fields, version: nat): Obj {
    Obj(payload, payload.Keys, version)
  }

  /** A forced server-side apply: the payload's paths become discovery's, with its values. */
  function Applied(o: Obj, payload: Fields, choice: Choice, version: nat): Obj {
    var idle := o.owned - payload.Keys;
    Obj((o.fields - (choice.dropped * idle)) + payload, payload.Keys + (idle - choice.dropped - choice.disowned), version)
  }

  // ------------------------------------------------------------------- the syncs

  /** The arguments of a `Sync` whose inventory is not nil. */
  datatype Request = Request(opts: Options, ep: Endpoint, dev: Device, creds: Defaults.Credentials, now: Stamps)

  function JobOf(r: Request): Job {
    JobFor(r.opts, r.ep, r.dev, r.creds, r.now)
  }

  /** Where a sync stands in its `step`-th `applyManaged`. */
  datatype Proc =
    | Resting
    | Reading(job: Job, step: nat)
    | Creating(job: Job, step: nat)
    | Applying(job: Job, step: nat, read: Obj)

  /** What is sent, given what was read: the hardware carries the live netboot forward. */
  function Payload(job: Job, step: nat, read: Option<Obj>): Fields {
    if step == 2 && read.Some? then Carry(job.FieldsAt(2), read.value.fields) else job.FieldsAt(step)
  }

  function Next(job: Job, step: nat): Proc {
    if step < 2 then Reading(job, step + 1) else Resting
  }

  /** `applyManaged` after its Get: create, skip, or apply. */
  function Decided(job: Job, step: nat, read: Option<Obj>): Proc {
    match read
    case None => Creating(job, step)
    case Some(o) => if Managed(o) then Applying(job, step, o) else Next(job, step)
  }

  function ReadBy(p: Proc): Option<Obj> {
    if p.Applying? then Some(p.read) else None
  }

  /** A create fails on an existing object, an apply unless the version is the one it carries. */
  predicate Accepts(s: Server, p: Proc)
    requires p.Creating? || p.Applying?
  {
    var key := p.job.KeyAt(p.step);
    if p.Creating? then key !in s.store else key in s.store && s.store[key].version == p.read.version
  }

  function Written(s: Server, p: Proc, choice: Choice): Obj
    requires p.Creating? || p.Applying?
  {
    var key, payload := p.job.KeyAt(p.step), Payload(p.job, p.step, ReadBy(p));
    if p.Applying? && key in s.store then Applied(s.store[key], payload, choice, s.version) else Created(payload, s.version)
  }

  // --------------------------------------------------------------------- the world

  /** A line of the log: discovery computed `written` from `read` and put it in place of `replaced`. */
  datatype Entry = Entry(key: Key, read: Option<Obj>, replaced: Option<Obj>, written: Obj)

  /** `seen` is every object there ever was. */
  datatype World = World(server: Server, seen: set<(Key, Obj)>, procs: map<nat, Proc>, log: seq<Entry>)

  datatype Outcome = Ok | Failed | Ambiguous

  datatype Label =
    | Foreign(key: Key, fields: Fields, owned: set<Path>)
    | Delete(key: Key)
    | Begin(pid: nat, request: Request)
    | Get(pid: nat, answer: Option<Obj>)
    | GetFails(pid: nat)
    | Write(pid: nat, outcome: Outcome, choice: Choice)
    | Crash(pid: nat)

  const START: World := World(Server(map[], 0), {}, map[], [])

  function ProcOf(w: World, pid: nat): Proc {
    if pid in w.procs then w.procs[pid] else Resting
  }

  function WithObj(w: World, key: Key, o: Obj): World {
    w.(server := Put(w.server, key, o), seen := w.seen + {(key, o)})
  }

  predicate Effective(w: World, l: Label) {
    && l.Write? && !l.outcome.Failed?
    && var p := ProcOf(w, l.pid); (p.Creating? || p.Applying?) && Accepts(w.server, p)
  }

  function ApplyWrite(w: World, pid: nat, outcome: Outcome, choice: Choice): World {
    var p := ProcOf(w, pid);
    if Effective(w, Write(pid, outcome, choice)) then
      var key, o := p.job.KeyAt(p.step), Written(w.server, p, choice);
      WithObj(w, key, o).(
        procs := w.procs[pid := if outcome.Ok? then Next(p.job, p.step) else Resting],
        log := w.log + [Entry(key, ReadBy(p), Lookup(w.server, key), o)])
    else if p.Creating? || p.Applying? then w.(procs := w.procs[pid := Resting])
    else w
  }

  function ApplyGet(w: World, pid: nat, answer: Option<Obj>): World {
    var p := ProcOf(w, pid);
    if p.Reading? && (answer.Some? ==> (p.job.KeyAt(p.step), answer.value) in w.seen)
    then w.(procs := w.procs[pid := Decided(p.job, p.step, answer)])
    else w
  }

  function Apply(w: World, l: Label): World {
    match l
    case Foreign(key, fields, owned) => WithObj(w, key, ForeignObj(w.server, key, fields, owned))
    case Delete(key) => w.(server := w.server.(store := w.server.store - {key}))
    case Begin(pid, request) =>
      if ProcOf(w, pid).Resting? then w.(procs := w.procs[pid := Reading(JobOf(request), 0)]) else w
    case Get(pid, answer) => ApplyGet(w, pid, answer)
    case GetFails(pid) => if ProcOf(w, pid).Reading? then w.(procs := w.procs[pid := Resting]) else w
    case Write(pid, outcome, choice) => ApplyWrite(w, pid, outcome, choice)
    case Crash(pid) => w.(procs := w.procs[pid := Resting])
  }

  function Run(w: World, ls: seq<Label>): World {
    Fold(Apply, w, ls)
  }

  ghost predicate Throughout(w: World, ls: seq<Label>, allowed: (World, Label) -> bool) {
    AllAlong(Apply, w, ls, allowed)
  }
}

/** The sparse objects discovery asserts: `Desired*`, `netbootFor` and `stampOwnership`
    (internal/sync/mapping.go:49-168, internal/sync/syncer.go:171-190). */
module Desired {
  import opened Text
  import opened Wrappers
  import opened Names
  import opened Inventory
  import opened Template
  import opened Defaults

  datatype Kind = SecretKind | MachineKind | HardwareKind
  datatype Key = Key(kind: Kind, name: string)

  /** Leaf paths.  `Foreign` is every path discovery never asserts: `spec.userData`, instance
      operating system and state, other controllers' labels and annotations, status. */
  datatype Path =
    | ManagedBy | LastSeen | MdnsInstance | MdnsService
    | Username | Password
    | Host | Port | AuthSecretRef | InsecureTLS | ProviderOptions
    | AgentID | EnrollmentEnabled | BmcRef | ManufacturerSlug | InstanceID | InstanceHostname | FacilityCode
    | Interfaces | Disks
    | Foreign(path: string)

  datatype Netboot = Netboot(allowPXE: Option<bool>, allowWorkflow: Option<bool>)
  datatype Interface = Interface(netboot: Option<Netboot>, mac: string, hostname: string)

  datatype Value =
    | Str(text: string)
    | Num(number: int)
    | Flag(flag: bool)
    | Reference(key: Key)
    | Nics(nics: seq<Interface>)
    | Names(names: seq<string>)

  type Fields = map<Path, Value>

  const MANAGED: Value := Str("tinkerbell-bmc-discovery-controller")

  /** The ownership contract: the paths of each kind discovery may assert. */
  predicate Contract(kind: Kind, p: Path) {
    match p
    case ManagedBy => true
    case LastSeen => true
    case MdnsInstance => true
    case MdnsService => true
    case Username => kind.SecretKind?
    case Password => kind.SecretKind?
    case Host => kind.MachineKind?
    case Port => kind.MachineKind?
    case AuthSecretRef => kind.MachineKind?
    case InsecureTLS => kind.MachineKind?
    case ProviderOptions => kind.MachineKind?
    case Foreign(_) => false
    case _ => kind.HardwareKind?
  }

  datatype Options = Options(template: string, insecureTLS: bool, facilityCode: string, autoEnrollment: bool)

  /** What the clock reads when each of the three objects is stamped. */
  datatype Stamps = Stamps(secret: string, machine: string, hardware: string)

  function Ownership(ep: Endpoint, now: string): Fields {
    map[ManagedBy := MANAGED, LastSeen := Str(now), MdnsInstance := Str(ep.instance), MdnsService := Str(ep.service)]
  }

  function AuthSecret(creds: Credentials): Fields {
    map[Username := Str(creds.username), Password := Str(creds.password)]
  }

  function BmcMachine(ep: Endpoint, secret: Key, insecureTLS: bool): Fields {
    map[Host := Str(ep.ip), Port := Num(ep.port), AuthSecretRef := Reference(secret),
        InsecureTLS := Flag(insecureTLS), ProviderOptions := Num(ep.port)]
  }

  function DriveNames(drives: seq<Option<string>>): seq<string> {
    if drives == [] then []
    else DriveNames(drives[..|drives| - 1])
         + match drives[|drives| - 1] case None => [] case Some(d) => if d == "" then [] else [d]
  }

  const DEFAULT_NETBOOT: Netboot := Netboot(Some(true), Some(true))

  /** `netbootFor`: the live primary interface's netboot, or the defaults. */
  function NetbootFor(live: Option<Fields>): Netboot {
    match live
    case Some(f) =>
      if Interfaces in f && f[Interfaces].Nics? && f[Interfaces].nics != [] && f[Interfaces].nics[0].netboot.Some?
      then f[Interfaces].nics[0].netboot.value else DEFAULT_NETBOOT
    case None => DEFAULT_NETBOOT
  }

  function Identity(dev: Device, mac: string, name: string, machine: Key): Fields {
    map[AgentID := Str(mac), BmcRef := Reference(machine), ManufacturerSlug := Str(Sanitized(dev.vendor)),
        InstanceID := Str(if mac == "" then dev.serial else mac), InstanceHostname := Str(name)]
  }

  /** `DesiredHardware`, with the create-time netboot.  Enrollment is asserted only when it is on:
      the field is left out of the payload when false. */
  function Hardware(dev: Device, mac: string, name: string, machine: Key, opts: Options): Fields {
    var identity := Identity(dev, mac, name, machine);
    var enrolled := if opts.autoEnrollment then identity[EnrollmentEnabled := Flag(true)] else identity;
    var located := if opts.facilityCode == "" then enrolled else enrolled[FacilityCode := Str(opts.facilityCode)];
    var wired := if mac == "" then located
                 else located[Interfaces := Nics([Interface(Some(DEFAULT_NETBOOT), mac, name)])];
    if DriveNames(dev.drives) == [] then wired else wired[Disks := Names(DriveNames(dev.drives))]
  }

  /** `carry`: the live netboot goes into the first asserted interface, if one is asserted. */
  function Carry(desired: Fields, live: Fields): Fields {
    if Interfaces in desired && desired[Interfaces].Nics? && desired[Interfaces].nics != [] then
      var nics := desired[Interfaces].nics;
      desired[Interfaces := Nics(nics[0 := nics[0].(netboot := Some(NetbootFor(Some(live))))])]
    else desired
  }

  /** What one `Sync` sets out to write: secret, machine, hardware, in this order. */
  datatype Job = Job(name: string, secret: Fields, machine: Fields, hardware: Fields) {
    function KeyAt(step: nat): Key {
      if step == 0 then Key(SecretKind, name + "-bmc-auth")
      else Key(if step == 1 then MachineKind else HardwareKind, name)
    }

    function FieldsAt(step: nat): Fields {
      if step == 0 then secret else if step == 1 then machine else hardware
    }
  }

  function Plan(name: string, mac: string, opts: Options, ep: Endpoint, dev: Device, creds: Credentials, now: Stamps): Job {
    Job(name,
        AuthSecret(creds) + Ownership(ep, now.secret),
        BmcMachine(ep, Key(SecretKind, name + "-bmc-auth"), opts.insecureTLS) + Ownership(ep, now.machine),
        Hardware(dev, mac, name, Key(MachineKind, name), opts) + Ownership(ep, now.hardware))
  }

  /** The job of a `Sync`. */
  function JobFor(opts: Options, ep: Endpoint, dev: Device, creds: Credentials, now: Stamps): Job {
    Plan(SyncName(opts.template, ep, dev), PrimaryMac(dev), opts, ep, dev, creds, now)
  }

  /** A job asserts only paths of the contract, stamps the managed-by label, and refers to what
      it writes first. */
  ghost predicate WellFormed(job: Job) {
    forall step | 0 <= step <= 2 :: StepWellFormed(job, step)
  }

  ghost predicate StepWellFormed(job: Job, step: nat) {
    var f := job.FieldsAt(step);
    && (forall p | p in f :: Contract(job.KeyAt(step).kind, p))
    && ManagedBy in f && f[ManagedBy] == MANAGED
    && (step == 1 ==> AuthSecretRef in f && f[AuthSecretRef] == Reference(job.KeyAt(0)))
    && (step == 2 ==> BmcRef in f && f[BmcRef] == Reference(job.KeyAt(1)))
  }

  lemma SecretWellFormed(job: Job, ep: Endpoint, creds: Credentials, now: string)
    requires job.secret == AuthSecret(creds) + Ownership(ep, now)
    ensures StepWellFormed(job, 0)
  {
  }

  lemma MachineWellFormed(job: Job, ep: Endpoint, insecureTLS: bool, now: string)
    requires job.machine == BmcMachine(ep, job.KeyAt(0), insecureTLS) + Ownership(ep, now)
    ensures StepWellFormed(job, 1)
  {
  }

  lemma HardwareFields(dev: Device, mac: string, name: string, machine: Key, opts: Options)
    ensures var f := Hardware(dev, mac, name, machine, opts);
            && (forall p | p in f :: Contract(HardwareKind, p)) && BmcRef in f && f[BmcRef] == Reference(machine)
            && (Interfaces in f <==> mac != "")
            && (mac != "" ==> f[Interfaces] == Nics([Interface(Some(DEFAULT_NETBOOT), mac, name)]))
  {
    var identity := Identity(dev, mac, name, machine);
    assert forall p | p in identity ::
        Contract(HardwareKind, p) && p != Interfaces;
  }

  lemma HardwareWellFormed(job: Job, ep: Endpoint, hardware: Fields, now: string)
    requires job.hardware == hardware + Ownership(ep, now)
    requires forall p | p in hardware :: Contract(HardwareKind, p)
    requires BmcRef in hardware && hardware[BmcRef] == Reference(job.KeyAt(1))
    ensures StepWellFormed(job, 2)
  {
  }

  lemma PlanIsWellFormed(name: string, mac: string, opts: Options, ep: Endpoint, dev: Device, creds: Credentials, now: Stamps)
    ensures WellFormed(Plan(name, mac, opts, ep, dev, creds, now))
  {
    var job := Plan(name, mac, opts, ep, dev, creds, now);
    SecretWellFormed(job, ep, creds, now.secret);
    MachineWellFormed(job, ep, opts.insecureTLS, now.machine);
    HardwareFields(dev, mac, job.name, job.KeyAt(1), opts);
    HardwareWellFormed(job, ep, Hardware(dev, mac, job.name, job.KeyAt(1), opts), now.hardware);
  }

  /** A hardware payload asserts the interfaces exactly when the device has a MAC; then it is
      the one primary interface. */
  lemma InterfacesNeedMac(name: string, mac: string, opts: Options, ep: Endpoint, dev: Device, creds: Credentials, now: Stamps)
    ensures var f := Plan(name, mac, opts, ep, dev, creds, now).hardware;
            && (Interfaces in f <==> mac != "")
            && (mac != "" ==> f[Interfaces] == Nics([Interface(Some(DEFAULT_NETBOOT), mac, name)]))
  {
    HardwareFields(dev, mac, name, Key(MachineKind, name), opts);
  }

  /** `carry` changes nothing but the netboot of the first interface, and makes it the live one. */
  lemma CarrySpec(desired: Fields, live: Fields)
    ensures Carry(desired, live).Keys == desired.Keys
    ensures forall p | p in desired && p != Interfaces :: Carry(desired, live)[p] == desired[p]
    ensures Interfaces in desired && desired[Interfaces].Nics? && desired[Interfaces].nics != [] ==>
              var nics := Carry(desired, live)[Interfaces];
              && nics.Nics? && |nics.nics| == |desired[Interfaces].nics|
              && nics.nics[0] == desired[Interfaces].nics[0].(netboot := Some(NetbootFor(Some(live))))
              && nics.nics[1..] == desired[Interfaces].nics[1..]
  {
  }
}

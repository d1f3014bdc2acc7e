/** The Machine object as the teardown controller sees it, and the predicates of
    internal/teardown/qualify.go.

    Annotation keys and values are classified by what the controller can tell apart:
    `Hook` is `pre-terminate.delete.hook.machine.cluster.x-k8s.io/talos-teardown`,
    `PreTerminate(s)` is any other key that starts with the pre-terminate prefix, and
    `Owner` is the value `talos-machine-teardown`. */
module Machines {
  import opened Wrappers

  datatype Key =
    | Hook
    | PreTerminate(suffix: string)
    | ObservedAt
    | EtcdConclusion
    | ResetConclusion
    | EtcdLeaving
    | Other(name: string)

  datatype EtcdOutcome = NotMember | Left | Removed | Orphaned | SkippedClusterDelete
  datatype ResetOutcome = Done | SkippedTimeout | SkippedNoAddress

  /** `Timestamp` is any text that parses as RFC 3339, `Text` any other foreign text. */
  datatype Value =
    | Owner
    | Timestamp(seconds: int)
    | Etcd(etcd: EtcdOutcome)
    | Reset(reset: ResetOutcome)
    | Text(text: string)

  type Annotations = map<Key, Value>

  datatype RefKind = TalosConfig | TinkerbellMachine | OtherKind(kind: string)
  datatype RefGroup = BootstrapGroup | InfrastructureGroup | OtherGroup(group: string)

  datatype AddressType = HostName | InternalIP | ExternalIP | OtherAddress
  datatype Address = Address(kind: AddressType, address: string)

  /** Reasons of the Deleting condition, in the order the machine controller visits them;
      `Later` is every reason past the pre-terminate gate. */
  datatype Reason =
    | NoReason
    | Deleting
    | WaitingForPreDrainHook
    | DrainingNode
    | WaitingForVolumeDetach
    | WaitingForPreTerminateHook
    | Later(reason: string)

  datatype Condition = Condition(isDeleting: bool, isTrue: bool, reason: Reason)

  datatype Machine = Machine(
    name: string,
    cluster: string,
    controlPlane: bool,
    bootstrapKind: RefKind,
    bootstrapGroup: RefGroup,
    infraKind: RefKind,
    infraGroup: RefGroup,
    infraName: string,
    created: int,
    deletion: Option<int>,
    annotations: Annotations,
    conditions: seq<Condition>,
    nodeRef: string,
    addresses: seq<Address>)

  predicate Qualifies(m: Machine) {
    && m.bootstrapKind == TalosConfig
    && m.bootstrapGroup == BootstrapGroup
    && m.infraKind == TinkerbellMachine
    && m.infraGroup == InfrastructureGroup
  }

  predicate HasHook(m: Machine) {
    Hook in m.annotations
  }

  function DeletingReason(conditions: seq<Condition>): Reason {
    if conditions == [] then NoReason
    else if conditions[0].isDeleting && conditions[0].isTrue then conditions[0].reason
    else DeletingReason(conditions[1..])
  }

  /** The first true Deleting condition is the i-th, and gives this reason. */
  ghost predicate FirstReasonAt(conditions: seq<Condition>, r: Reason, i: int) {
    && 0 <= i < |conditions| && conditions[i].isDeleting && conditions[i].isTrue && conditions[i].reason == r
    && forall j | 0 <= j < i :: !(conditions[j].isDeleting && conditions[j].isTrue)
  }

  ghost predicate FirstReason(conditions: seq<Condition>, r: Reason) {
    exists i :: FirstReasonAt(conditions, r, i)
  }

  lemma {:induction false} ReasonExactly(conditions: seq<Condition>, r: Reason)
    ensures FirstReason(conditions, r) ==> DeletingReason(conditions) == r
    ensures DeletingReason(conditions) == r && r != NoReason ==> FirstReason(conditions, r)
    ensures (forall j | 0 <= j < |conditions| :: !(conditions[j].isDeleting && conditions[j].isTrue)) ==>
              DeletingReason(conditions) == NoReason
  {
    if conditions != [] {
      var rest := conditions[1..];
      ReasonExactly(rest, r);
      if conditions[0].isDeleting && conditions[0].isTrue {
        assert FirstReasonAt(conditions, conditions[0].reason, 0);
        assert forall i :: FirstReasonAt(conditions, r, i) ==> i == 0;
      } else {
        if FirstReason(conditions, r) {
          var i :| FirstReasonAt(conditions, r, i);
          assert forall j | 0 <= j < i - 1 :: rest[j] == conditions[j + 1];
          assert FirstReasonAt(rest, r, i - 1);
        }
        if FirstReason(rest, r) {
          var i :| FirstReasonAt(rest, r, i);
          assert forall j | 0 < j < i + 1 :: conditions[j] == rest[j - 1];
          assert FirstReasonAt(conditions, r, i + 1);
        }
      }
    }
  }

  predicate PreTerminateOrEarlier(r: Reason) {
    !r.Later?
  }

  predicate StampAllowed(m: Machine) {
    m.deletion.None? || PreTerminateOrEarlier(DeletingReason(m.conditions))
  }

  predicate AtPreTerminate(m: Machine) {
    DeletingReason(m.conditions) == WaitingForPreTerminateHook
  }

  predicate HasPreTerminatePrefix(k: Key) {
    k.Hook? || k.PreTerminate?
  }

  predicate ForeignHook(ann: Annotations, k: Key) {
    k in ann && k.PreTerminate? && ann[k] != Owner
  }

  predicate HasOtherPreTerminateHooks(m: Machine) {
    exists k | k in m.annotations :: ForeignHook(m.annotations, k)
  }

  function LegacyHooks(ann: Annotations): set<Key> {
    set k | k in ann && k.PreTerminate? && ann[k] == Owner
  }

  /** The Cluster API gate: the machine controller goes on only when this holds. */
  predicate GateOpen(m: Machine) {
    forall k | k in m.annotations :: !HasPreTerminatePrefix(k)
  }

  // ------------------------------------------------------------------- what a machine shows

  ghost predicate Ours(m: Machine) {
    && m.bootstrapKind == TalosConfig && m.bootstrapGroup == BootstrapGroup
    && m.infraKind == TinkerbellMachine && m.infraGroup == InfrastructureGroup
  }

  ghost predicate Hooked(m: Machine) {
    Hook in m.annotations
  }

  /** The machine controller has gone past the gate. */
  ghost predicate PastGate(m: Machine) {
    exists reason :: FirstReason(m.conditions, Later(reason))
  }

  /** Some other controller holds a pre-terminate hook. */
  ghost predicate HeldByOthers(m: Machine) {
    exists s :: PreTerminate(s) in m.annotations && m.annotations[PreTerminate(s)] != Owner
  }

  /** Deleting, waiting at the gate, and for this controller alone. */
  ghost predicate Ready(m: Machine) {
    m.deletion.Some? && FirstReason(m.conditions, WaitingForPreTerminateHook) && !HeldByOthers(m)
  }

  /** A version to be hooked: ours, without the hook, and not deleting, or deleting but neither concluded
      nor past the gate. */
  ghost predicate ToBeHooked(m: Machine) {
    Ours(m) && !Hooked(m) && (m.deletion.Some? ==> ResetConclusion !in m.annotations && !PastGate(m))
  }

  lemma ReadyExactly(m: Machine)
    ensures AtPreTerminate(m) <==> FirstReason(m.conditions, WaitingForPreTerminateHook)
    ensures HasOtherPreTerminateHooks(m) <==> HeldByOthers(m)
    ensures PreTerminateOrEarlier(DeletingReason(m.conditions)) <==> !PastGate(m)
  {
    ReasonExactly(m.conditions, WaitingForPreTerminateHook);
    ReasonExactly(m.conditions, DeletingReason(m.conditions));
    forall reason ensures FirstReason(m.conditions, Later(reason)) ==> DeletingReason(m.conditions) == Later(reason) {
      ReasonExactly(m.conditions, Later(reason));
    }
    if HasOtherPreTerminateHooks(m) {
      var k :| k in m.annotations && ForeignHook(m.annotations, k);
      assert k == PreTerminate(k.suffix);
    }
  }

  // ---------------------------------------------------------------------------- the loops

  /** The loop of `deletingReason` (qualify.go:30-37). */
  method FindDeletingReason(m: Machine) returns (r: Reason)
    ensures r == DeletingReason(m.conditions)
    ensures FirstReason(m.conditions, r)
            || (r == NoReason && forall j | 0 <= j < |m.conditions| :: !(m.conditions[j].isDeleting && m.conditions[j].isTrue))
  {
    var i := 0;
    while i < |m.conditions|
      invariant 0 <= i <= |m.conditions|
      invariant DeletingReason(m.conditions) == DeletingReason(m.conditions[i..])
      invariant forall j | 0 <= j < i :: !(m.conditions[j].isDeleting && m.conditions[j].isTrue)
    {
      var c := m.conditions[i];
      if c.isDeleting && c.isTrue {
        assert FirstReasonAt(m.conditions, c.reason, i);
        return c.reason;
      }
      i := i + 1;
    }
    return NoReason;
  }

  /** The scan of `HasOtherPreTerminateHooks` (qualify.go:73-87), keys in any order. */
  method ScanForeignHooks(m: Machine) returns (found: bool)
    ensures found == HasOtherPreTerminateHooks(m)
    ensures found <==> exists s :: PreTerminate(s) in m.annotations && m.annotations[PreTerminate(s)] != Owner
  {
    var rest := m.annotations.Keys;
    while rest != {}
      invariant rest <= m.annotations.Keys
      invariant forall k | k in m.annotations :: ForeignHook(m.annotations, k) ==> k in rest
      decreases |rest|
    {
      var key :| key in rest;
      rest := rest - {key};
      if key == Hook || m.annotations[key] == Owner {
        continue;
      }
      if HasPreTerminatePrefix(key) {
        assert ForeignHook(m.annotations, key) && key == PreTerminate(key.suffix);
        return true;
      }
    }
    return false;
  }

  /** The scan of `legacyHookKeys` (qualify.go:92-103), keys in any order. */
  method CollectLegacyHooks(m: Machine) returns (keys: seq<Key>)
    ensures (set k | k in keys) == LegacyHooks(m.annotations)
    ensures forall k :: k in keys <==> k in m.annotations && k != Hook && k.PreTerminate? && m.annotations[k] == Owner
    ensures forall i, j | 0 <= i < j < |keys| :: keys[i] != keys[j]
  {
    keys := [];
    var rest := m.annotations.Keys;
    while rest != {}
      invariant rest <= m.annotations.Keys
      invariant forall k :: k in keys <==> k in LegacyHooks(m.annotations) && k !in rest
      invariant forall i, j | 0 <= i < j < |keys| :: keys[i] != keys[j]
      decreases |rest|
    {
      var key :| key in rest;
      rest := rest - {key};
      if key == Hook || m.annotations[key] != Owner {
        continue;
      }
      if HasPreTerminatePrefix(key) {
        keys := keys + [key];
      }
    }
  }
}

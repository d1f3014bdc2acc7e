/** Which control-plane machine is asked first: `orderPeers` (reconciler.go:461-479) and
    `sortByAge` (setup.go:105-112). */
module Peers {
  import opened Wrappers
  import opened Machines
  import opened Ordering

  predicate Older(a: Machine, b: Machine) {
    Before(a.created, a.name, b.created, b.name)
  }

  predicate Eligible(m: Machine, victim: Machine) {
    && m.name != victim.name
    && m.deletion.None?
    && EtcdLeaving !in m.annotations
  }

  predicate Joined(m: Machine) {
    m.nodeRef != ""
  }

  function Insert(m: Machine, s: seq<Machine>): seq<Machine> {
    if s == [] || !Older(m, s[|s| - 1]) then s + [m]
    else Insert(m, s[..|s| - 1]) + [s[|s| - 1]]
  }

  function SortedByAge(s: seq<Machine>): seq<Machine> {
    if s == [] then []
    else Insert(s[|s| - 1], SortedByAge(s[..|s| - 1]))
  }

  /** The eligible machines of `s` that hold a NodeRef, or those that do not. */
  function Candidates(s: seq<Machine>, victim: Machine, joined: bool): seq<Machine> {
    if s == [] then []
    else
      var m := s[|s| - 1];
      Candidates(s[..|s| - 1], victim, joined)
      + if Eligible(m, victim) && Joined(m) == joined then [m] else []
  }

  function OrderPeers(s: seq<Machine>, victim: Machine): seq<Machine> {
    SortedByAge(Candidates(s, victim, true)) + SortedByAge(Candidates(s, victim, false))
  }

  ghost predicate DistinctNames(s: seq<Machine>) {
    forall i, j | 0 <= i < j < |s| :: s[i].name != s[j].name
  }

  ghost predicate Ascending(s: seq<Machine>) {
    forall i, j | 0 <= i < j < |s| :: Older(s[i], s[j])
  }

  // ---------------------------------------------------------------- sorting

  lemma {:induction false} InsertPermutes(m: Machine, s: seq<Machine>)
    ensures multiset(Insert(m, s)) == multiset(s) + multiset{m}
    ensures |Insert(m, s)| == |s| + 1
  {
    if !(s == [] || !Older(m, s[|s| - 1])) {
      InsertPermutes(m, s[..|s| - 1]);
      assert s == s[..|s| - 1] + [s[|s| - 1]];
    }
  }

  lemma {:induction false} InsertAscends(m: Machine, s: seq<Machine>)
    requires Ascending(s)
    requires forall x | x in s :: x.name != m.name
    ensures Ascending(Insert(m, s))
  {
    if s == [] {
    } else {
      var front, last := s[..|s| - 1], s[|s| - 1];
      BeforeTotal(m.created, m.name, last.created, last.name);
      if Older(m, last) {
        InsertAscends(m, front);
        InsertPermutes(m, front);
        forall x | x in Insert(m, front) ensures Older(x, last) {
          assert x in multiset(Insert(m, front));
        }
      } else {
        forall i | 0 <= i < |s| - 1 ensures Older(s[i], m) {
          BeforeTransitive(s[i].created, s[i].name, last.created, last.name, m.created, m.name);
        }
      }
    }
  }

  lemma {:induction false} SortPermutes(s: seq<Machine>)
    ensures multiset(SortedByAge(s)) == multiset(s)
  {
    if s != [] {
      SortPermutes(s[..|s| - 1]);
      InsertPermutes(s[|s| - 1], SortedByAge(s[..|s| - 1]));
      assert s == s[..|s| - 1] + [s[|s| - 1]];
    }
  }

  /** Sorting yields a strictly age-ordered permutation. */
  lemma {:induction false} SortAscends(s: seq<Machine>)
    requires DistinctNames(s)
    ensures Ascending(SortedByAge(s))
    ensures multiset(SortedByAge(s)) == multiset(s)
  {
    SortPermutes(s);
    if s != [] {
      var front := s[..|s| - 1];
      SortAscends(front);
      forall x | x in SortedByAge(front) ensures x.name != s[|s| - 1].name {
        assert x in multiset(front);
      }
      InsertAscends(s[|s| - 1], SortedByAge(front));
    }
  }

  lemma SameFirst(s: seq<Machine>, t: seq<Machine>)
    requires Ascending(s) && Ascending(t)
    requires s != [] && t != []
    requires s[0] in t && t[0] in s
    ensures s[0] == t[0]
  {
    BeforeAsymmetric(s[0].created, s[0].name, t[0].created, t[0].name);
  }

  /** A strictly ordered sequence is determined by what it holds. */
  lemma {:induction false} AscendingUnique(s: seq<Machine>, t: seq<Machine>)
    requires Ascending(s) && Ascending(t)
    requires multiset(s) == multiset(t)
    ensures s == t
  {
    assert |s| == |multiset(s)| && |t| == |multiset(t)|;
    if s != [] {
      assert s[0] in multiset(t) && t[0] in multiset(s);
      SameFirst(s, t);
      RestOf(s);
      RestOf(t);
      AscendingUnique(s[1..], t[1..]);
      assert s == [s[0]] + s[1..] && t == [t[0]] + t[1..];
    }
  }

  lemma RestOf(s: seq<Machine>)
    requires s != []
    ensures multiset(s[1..]) == multiset(s) - multiset{s[0]}
    ensures Ascending(s) ==> Ascending(s[1..])
  {
    assert s == [s[0]] + s[1..];
  }

  // ------------------------------------------------------------- candidates

  /** Filtering keeps exactly the machines of the asked-for group, with their multiplicity. */
  lemma {:induction false} CandidatesCount(s: seq<Machine>, victim: Machine, joined: bool, x: Machine)
    ensures multiset(Candidates(s, victim, joined))[x]
         == if Eligible(x, victim) && Joined(x) == joined then multiset(s)[x] else 0
  {
    if s != [] {
      CandidatesCount(s[..|s| - 1], victim, joined, x);
      assert s == s[..|s| - 1] + [s[|s| - 1]];
    }
  }

  lemma {:induction false} CandidatesDistinct(s: seq<Machine>, victim: Machine, joined: bool)
    requires DistinctNames(s)
    ensures DistinctNames(Candidates(s, victim, joined))
  {
    if s != [] {
      var front := s[..|s| - 1];
      CandidatesDistinct(front, victim, joined);
      forall x | x in Candidates(front, victim, joined) ensures x.name != s[|s| - 1].name {
        CandidatesCount(front, victim, joined, x);
        assert x in multiset(Candidates(front, victim, joined));
        assert x in multiset(front);
      }
    }
  }

  lemma GroupSpec(s: seq<Machine>, victim: Machine, joined: bool)
    requires DistinctNames(s)
    ensures var group := SortedByAge(Candidates(s, victim, joined));
            && Ascending(group)
            && forall x :: x in group <==> x in s && Eligible(x, victim) && Joined(x) == joined
  {
    var group := Candidates(s, victim, joined);
    CandidatesDistinct(s, victim, joined);
    SortAscends(group);
    forall x ensures x in SortedByAge(group) <==> x in s && Eligible(x, victim) && Joined(x) == joined {
      CandidatesCount(s, victim, joined, x);
      assert x in SortedByAge(group) <==> x in multiset(SortedByAge(group));
      assert x in s <==> x in multiset(s);
    }
  }

  /** Created earlier, or at the same time with a name that comes first. */
  ghost predicate ComesFirst(a: Machine, b: Machine) {
    a.created < b.created || (a.created == b.created && Precedes(a.name, b.name))
  }

  /** `a` comes before `b` in the order peers are tried: it names a node and `b` does not, or they are
      alike in that and it comes first. */
  ghost predicate TriedBefore(a: Machine, b: Machine) {
    || (a.nodeRef != "" && b.nodeRef == "")
    || ((a.nodeRef == "" <==> b.nodeRef == "") && ComesFirst(a, b))
  }

  lemma OlderExactly(a: Machine, b: Machine)
    ensures Older(a, b) <==> ComesFirst(a, b)
  {
    LessExactly(a.name, b.name);
  }

  /** What `orderPeers` promises: exactly the eligible machines, NodeRef holders first, each
      group strictly ordered by age and then name. */
  lemma OrderPeersSpec(s: seq<Machine>, victim: Machine)
    requires DistinctNames(s)
    ensures forall x :: x in OrderPeers(s, victim)
                        <==> x in s && x.name != victim.name && x.deletion.None? && EtcdLeaving !in x.annotations
    ensures forall i, j | 0 <= i < j < |OrderPeers(s, victim)| ::
              TriedBefore(OrderPeers(s, victim)[i], OrderPeers(s, victim)[j])
  {
    GroupSpec(s, victim, true);
    GroupSpec(s, victim, false);
    var yes, no := SortedByAge(Candidates(s, victim, true)), SortedByAge(Candidates(s, victim, false));
    assert OrderPeers(s, victim) == yes + no;
    forall i, j | 0 <= i < j < |yes + no| ensures TriedBefore((yes + no)[i], (yes + no)[j]) {
      GroupsInOrder(yes, no, i, j);
    }
  }

  lemma GroupsInOrder(yes: seq<Machine>, no: seq<Machine>, i: nat, j: nat)
    requires i < j < |yes + no| && Ascending(yes) && Ascending(no)
    requires (forall m | m in yes :: Joined(m)) && (forall m | m in no :: !Joined(m))
    ensures TriedBefore((yes + no)[i], (yes + no)[j])
  {
    OlderExactly((yes + no)[i], (yes + no)[j]);
    if j < |yes| {
      assert yes[i] in yes && yes[j] in yes;
    } else if i < |yes| {
      assert yes[i] in yes && no[j - |yes|] in no;
    } else {
      assert no[i - |yes|] in no && no[j - |yes|] in no;
    }
  }

  /** Peer choice does not depend on the order in which the API lists machines. */
  lemma OrderPeersDeterministic(s: seq<Machine>, t: seq<Machine>, victim: Machine)
    requires multiset(s) == multiset(t)
    requires DistinctNames(s) && DistinctNames(t)
    ensures OrderPeers(s, victim) == OrderPeers(t, victim)
  {
    GroupDeterministic(s, t, victim, true);
    GroupDeterministic(s, t, victim, false);
  }

  lemma GroupDeterministic(s: seq<Machine>, t: seq<Machine>, victim: Machine, joined: bool)
    requires multiset(s) == multiset(t)
    requires DistinctNames(s) && DistinctNames(t)
    ensures SortedByAge(Candidates(s, victim, joined)) == SortedByAge(Candidates(t, victim, joined))
  {
    CandidatesDistinct(s, victim, joined);
    CandidatesDistinct(t, victim, joined);
    forall x ensures multiset(Candidates(s, victim, joined))[x] == multiset(Candidates(t, victim, joined))[x] {
      CandidatesCount(s, victim, joined, x);
      CandidatesCount(t, victim, joined, x);
    }
    SortAscends(Candidates(s, victim, joined));
    SortAscends(Candidates(t, victim, joined));
    AscendingUnique(SortedByAge(Candidates(s, victim, joined)), SortedByAge(Candidates(t, victim, joined)));
  }

  // ------------------------------------------------------------- the loops

  /** `sortByAge`: the slice is reordered in place. */
  method SortByAge(a: array<Machine>)
    modifies a
    ensures a[..] == SortedByAge(old(a[..]))
  {
    ghost var was := a[..];
    var i := 0;
    while i < a.Length
      invariant 0 <= i <= a.Length
      invariant a[..i] == SortedByAge(was[..i])
      invariant forall k | i <= k < a.Length :: a[k] == was[k]
    {
      assert was[..i + 1][..i] == was[..i];
      InsertAt(a, i);
      i := i + 1;
    }
    assert a[..i] == a[..] && was[..i] == was;
  }

  method InsertAt(a: array<Machine>, i: nat)
    requires i < a.Length
    modifies a
    ensures a[..i + 1] == Insert(old(a[i]), old(a[..i]))
    ensures forall k | i < k < a.Length :: a[k] == old(a[k])
  {
    var x := a[i];
    ghost var was := a[..i];
    var j := i;
    assert was[..j] == was;
    while j > 0 && Older(x, a[j - 1])
      invariant 0 <= j <= i
      invariant forall k | 0 <= k < j :: a[k] == was[k]
      invariant forall k | j < k <= i :: a[k] == was[k - 1]
      invariant forall k | i < k < a.Length :: a[k] == old(a[k])
      invariant Insert(x, was) == Insert(x, was[..j]) + was[j..]
    {
      InsertShifts(x, was, j);
      a[j] := a[j - 1];
      j := j - 1;
    }
    a[j] := x;
    InsertStops(x, was, j);
    Assembled(a[..i + 1], x, was, j);
  }

  lemma Assembled(s: seq<Machine>, x: Machine, was: seq<Machine>, j: nat)
    requires j <= |was| && |s| == |was| + 1 && s[j] == x
    requires forall k | 0 <= k < j :: s[k] == was[k]
    requires forall k | j < k < |s| :: s[k] == was[k - 1]
    ensures s == was[..j] + [x] + was[j..]
  {
  }

  lemma InsertShifts(x: Machine, was: seq<Machine>, j: nat)
    requires 0 < j <= |was| && Older(x, was[j - 1])
    ensures Insert(x, was[..j]) + was[j..] == Insert(x, was[..j - 1]) + was[j - 1..]
  {
    assert was[..j][..j - 1] == was[..j - 1];
    assert was[j - 1..] == [was[j - 1]] + was[j..];
  }

  lemma InsertStops(x: Machine, was: seq<Machine>, j: nat)
    requires j <= |was| && (j > 0 ==> !Older(x, was[j - 1]))
    ensures Insert(x, was[..j]) == was[..j] + [x]
  {
  }

  /** `orderPeers`: two slices grown in one pass, sorted, concatenated. */
  method ChoosePeers(machines: seq<Machine>, victim: Machine) returns (order: seq<Machine>)
    ensures order == OrderPeers(machines, victim)
  {
    var withNodeRef: seq<Machine>, withoutNodeRef: seq<Machine> := [], [];
    var i := 0;
    while i < |machines|
      invariant 0 <= i <= |machines|
      invariant withNodeRef == Candidates(machines[..i], victim, true)
      invariant withoutNodeRef == Candidates(machines[..i], victim, false)
    {
      var m := machines[i];
      assert machines[..i + 1][..i] == machines[..i];
      i := i + 1;
      if m.name == victim.name || m.deletion.Some? {
        continue;
      }
      if EtcdLeaving in m.annotations {
        continue;
      }
      if m.nodeRef != "" {
        withNodeRef := withNodeRef + [m];
      } else {
        withoutNodeRef := withoutNodeRef + [m];
      }
    }
    assert machines[..i] == machines;
    var a := new Machine[|withNodeRef|](j requires 0 <= j < |withNodeRef| => withNodeRef[j]);
    var b := new Machine[|withoutNodeRef|](j requires 0 <= j < |withoutNodeRef| => withoutNodeRef[j]);
    assert a[..] == withNodeRef && b[..] == withoutNodeRef;
    SortByAge(a);
    SortByAge(b);
    order := a[..] + b[..];
  }
}

/** Which etcd member is the victim's: internal/teardown/etcd.go. */
module Etcd {
  import opened Wrappers
  import opened Machines
  import opened Text

  datatype Member = Member(id: nat, hostname: string)

  /** A member list answer: one message per node, each with its members. */
  type MemberList = seq<seq<Member>>

  /** `strings.EqualFold`, over ASCII. */
  predicate EqualFold(a: string, b: string) {
    |a| == |b| && forall i | 0 <= i < |a| :: LowerChar(a[i]) == LowerChar(b[i])
  }

  /** Equal up to the first dot, whatever the case. */
  predicate SameHost(a: string, b: string) {
    EqualFold(Head(a, '.'), Head(b, '.'))
  }

  function HostAddress(addresses: seq<Address>, fallback: string): string {
    if addresses == [] then fallback
    else if addresses[0].kind == HostName then addresses[0].address
    else HostAddress(addresses[1..], fallback)
  }

  function NonEmpty(s: seq<string>): seq<string> {
    if s == [] then []
    else NonEmpty(s[..|s| - 1]) + if s[|s| - 1] != "" then [s[|s| - 1]] else []
  }

  function HostnameCandidates(m: Machine): seq<string> {
    NonEmpty([HostAddress(m.addresses, m.nodeRef), m.infraName, m.name])
  }

  predicate MatchesMember(candidates: seq<string>, hostname: string) {
    exists c | c in candidates :: SameHost(c, hostname)
  }

  /** The candidate and the hostname bear the same name before their first dot, whatever the case. */
  ghost predicate SameName(candidate: string, hostname: string) {
    exists h, h' :: Leads(candidate, '.', h) && Leads(hostname, '.', h') && SameLetters(h, h')
  }

  lemma SameHostExactly(candidate: string, hostname: string)
    ensures SameHost(candidate, hostname) <==> SameName(candidate, hostname)
  {
    var a, b := Head(candidate, '.'), Head(hostname, '.');
    HeadLeads(candidate, '.', a);
    HeadLeads(hostname, '.', b);
    LowerExactly(a, b);
    assert EqualFold(a, b) <==> Lower(a) == Lower(b);
    forall h, h' | Leads(candidate, '.', h) && Leads(hostname, '.', h') ensures h == a && h' == b {
      HeadLeads(candidate, '.', h);
      HeadLeads(hostname, '.', h');
    }
  }

  /** Exactly the hostnames match that bear the name of some candidate before their first dot. */
  lemma MatchesExactly(candidates: seq<string>, hostname: string)
    ensures MatchesMember(candidates, hostname) <==> exists c :: c in candidates && SameName(c, hostname)
  {
    forall c ensures SameHost(c, hostname) <==> SameName(c, hostname) {
      SameHostExactly(c, hostname);
    }
  }

  /** A name with any domain, in any case, matches the same name with any other. */
  lemma DomainsDoNotMatter(h: string, h': string, d: string, d': string)
    requires '.' !in h && '.' !in h' && (d == "" || d[0] == '.') && (d' == "" || d'[0] == '.')
    ensures MatchesMember([h + d], h' + d') <==> SameLetters(h, h')
  {
    Suffixed(h, d);
    Suffixed(h', d');
    HeadLeads(h + d, '.', h);
    HeadLeads(h' + d', '.', h');
    SameHostExactly(h + d, h' + d');
    LowerExactly(h, h');
    assert h + d in [h + d];
  }

  lemma Suffixed(h: string, d: string)
    requires '.' !in h && (d == "" || d[0] == '.')
    ensures Leads(h + d, '.', h)
  {
    if d == "" {
      assert h + d == h;
    } else {
      assert h + d == h + ['.'] + d[1..];
    }
  }

  /** The first HostName address, or the name of the node if there is none. */
  ghost predicate NodeName(m: Machine, s: string) {
    || (exists i :: HostNameAt(m.addresses, s, i))
    || ((forall i | 0 <= i < |m.addresses| :: m.addresses[i].kind != HostName) && s == m.nodeRef)
  }

  ghost predicate HostNameAt(addresses: seq<Address>, s: string, i: int) {
    0 <= i < |addresses| && addresses[i] == Address(HostName, s) && forall j | 0 <= j < i :: addresses[j].kind != HostName
  }

  lemma {:induction false} HostAddressExactly(addresses: seq<Address>, fallback: string)
    ensures var s := HostAddress(addresses, fallback);
            || (exists i :: HostNameAt(addresses, s, i))
            || ((forall i | 0 <= i < |addresses| :: addresses[i].kind != HostName) && s == fallback)
  {
    if addresses != [] {
      HostAddressExactly(addresses[1..], fallback);
      var s := HostAddress(addresses, fallback);
      if addresses[0].kind == HostName {
        assert HostNameAt(addresses, s, 0);
      } else if exists i :: HostNameAt(addresses[1..], s, i) {
        var i :| HostNameAt(addresses[1..], s, i);
        assert forall j | 0 < j < i + 1 :: addresses[j] == addresses[1..][j - 1];
        assert HostNameAt(addresses, s, i + 1);
      } else {
        assert forall i | 0 < i < |addresses| :: addresses[i] == addresses[1..][i - 1];
      }
    }
  }

  lemma NodeNameUnique(m: Machine, s: string, t: string)
    requires NodeName(m, s) && NodeName(m, t)
    ensures s == t
  {
    if exists i :: HostNameAt(m.addresses, s, i) {
      var i :| HostNameAt(m.addresses, s, i);
      var j :| HostNameAt(m.addresses, t, j);
      assert i == j;
    }
  }

  /** A victim's member may go by exactly these names, as far as they are not empty: the node's, the
      infrastructure object's, the machine's. */
  lemma CandidatesExactly(m: Machine, s: string)
    ensures s in HostnameCandidates(m) <==> s != "" && (NodeName(m, s) || s == m.infraName || s == m.name)
  {
    var node := HostAddress(m.addresses, m.nodeRef);
    HostAddressExactly(m.addresses, m.nodeRef);
    assert NodeName(m, node);
    if NodeName(m, s) {
      NodeNameUnique(m, s, node);
    }
    NonEmptyExactly([node, m.infraName, m.name], s);
  }

  lemma {:induction false} NonEmptyExactly(names: seq<string>, s: string)
    ensures s in NonEmpty(names) <==> s != "" && s in names
  {
    if names != [] {
      NonEmptyExactly(names[..|names| - 1], s);
      assert names == names[..|names| - 1] + [names[|names| - 1]];
    }
  }

  predicate IsVictim(m: Machine, hostname: string) {
    MatchesMember(HostnameCandidates(m), hostname)
  }

  function Flatten(resp: MemberList): seq<Member> {
    if resp == [] then [] else resp[0] + Flatten(resp[1..])
  }

  function FirstMatch(members: seq<Member>, candidates: seq<string>): Option<Member> {
    if members == [] then None
    else if MatchesMember(candidates, members[0].hostname) then Some(members[0])
    else FirstMatch(members[1..], candidates)
  }

  function FindMember(resp: MemberList, candidates: seq<string>): Option<Member> {
    FirstMatch(Flatten(resp), candidates)
  }

  /** A match is a listed member that bears one of the names; no match means no listed member
      bears any of them. */
  ghost predicate FirstMatchAt(members: seq<Member>, candidates: seq<string>, i: int) {
    && 0 <= i < |members| && MatchesMember(candidates, members[i].hostname)
    && forall j | 0 <= j < i :: !MatchesMember(candidates, members[j].hostname)
  }

  lemma {:induction false} FirstMatchSpec(members: seq<Member>, candidates: seq<string>)
    ensures match FirstMatch(members, candidates)
            case Some(member) =>
              && member in members && MatchesMember(candidates, member.hostname)
              && exists i :: FirstMatchAt(members, candidates, i) && members[i] == member
            case None => forall x | x in members :: !MatchesMember(candidates, x.hostname)
  {
    if members != [] {
      FirstMatchSpec(members[1..], candidates);
      if MatchesMember(candidates, members[0].hostname) {
        assert FirstMatchAt(members, candidates, 0);
      } else if FirstMatch(members[1..], candidates).Some? {
        var i :| FirstMatchAt(members[1..], candidates, i) && members[1..][i] == FirstMatch(members[1..], candidates).value;
        assert forall j | 0 < j <= i + 1 :: members[j] == members[1..][j - 1];
        assert FirstMatchAt(members, candidates, i + 1);
      }
    }
  }

  lemma {:induction false} FirstMatchConcat(a: seq<Member>, b: seq<Member>, candidates: seq<string>)
    ensures FirstMatch(a + b, candidates)
         == if FirstMatch(a, candidates).Some? then FirstMatch(a, candidates) else FirstMatch(b, candidates)
  {
    if a == [] {
      assert a + b == b;
    } else {
      assert (a + b)[1..] == a[1..] + b;
      FirstMatchConcat(a[1..], b, candidates);
    }
  }

  // -------------------------------------------------------------- the loops

  /** `hostnameCandidates` (etcd.go:20-35). */
  method ListHostnames(m: Machine) returns (candidates: seq<string>)
    ensures candidates == HostnameCandidates(m)
    ensures forall s :: s in candidates <==> s != "" && (NodeName(m, s) || s == m.infraName || s == m.name)
  {
    candidates := [];
    var nodeName := m.nodeRef;
    var i := 0;
    while i < |m.addresses|
      invariant 0 <= i <= |m.addresses|
      invariant nodeName == m.nodeRef
      invariant HostAddress(m.addresses, m.nodeRef) == HostAddress(m.addresses[i..], m.nodeRef)
    {
      if m.addresses[i].kind == HostName {
        nodeName := m.addresses[i].address;
        break;
      }
      i := i + 1;
    }
    var names := [nodeName, m.infraName, m.name];
    i := 0;
    while i < |names|
      invariant 0 <= i <= |names|
      invariant candidates == NonEmpty(names[..i])
    {
      assert names[..i + 1][..i] == names[..i];
      if names[i] != "" {
        candidates := candidates + [names[i]];
      }
      i := i + 1;
    }
    assert names[..i] == names;
    forall s ensures s in candidates <==> s != "" && (NodeName(m, s) || s == m.infraName || s == m.name) {
      CandidatesExactly(m, s);
    }
  }

  /** `matchesMember` (etcd.go:42-51). */
  method SearchCandidates(candidates: seq<string>, hostname: string) returns (found: bool)
    ensures found == MatchesMember(candidates, hostname)
    ensures found <==> exists c :: c in candidates && SameName(c, hostname)
  {
    MatchesExactly(candidates, hostname);
    var i := 0;
    while i < |candidates|
      invariant 0 <= i <= |candidates|
      invariant forall j | 0 <= j < i :: !SameHost(candidates[j], hostname)
    {
      if SameHost(candidates[i], hostname) {
        return true;
      }
      i := i + 1;
    }
    return false;
  }

  /** `findMember` (etcd.go:54-66). */
  method SearchMembers(resp: MemberList, candidates: seq<string>) returns (r: Option<Member>)
    ensures r == FindMember(resp, candidates)
  {
    var i := 0;
    while i < |resp|
      invariant 0 <= i <= |resp|
      invariant FindMember(resp, candidates) == FindMember(resp[i..], candidates)
    {
      assert resp[i..][1..] == resp[i + 1..];
      FirstMatchConcat(resp[i], Flatten(resp[i + 1..]), candidates);
      var j := 0;
      while j < |resp[i]|
        invariant 0 <= j <= |resp[i]|
        invariant FirstMatch(resp[i], candidates) == FirstMatch(resp[i][j..], candidates)
      {
        var matches := SearchCandidates(candidates, resp[i][j].hostname);
        if matches {
          return Some(resp[i][j]);
        }
        j := j + 1;
      }
      i := i + 1;
    }
    return None;
  }
}

/** The credential pivot: `handle` and `credentialCandidates`
    (internal/controller/worker.go:121-215). */
module Pivot {
  import opened Wrappers
  import opened Names
  import opened Inventory
  import Defaults
  import Desired
  import Sync
  import Syncer

  type Credentials = Defaults.Credentials

  const WILDCARD := "*"

  datatype Origin = FromSecret | FromService | FromWildcard

  function Rank(o: Origin): nat {
    match o case FromSecret => 0 case FromService => 1 case FromWildcard => 2
  }

  datatype Candidate = Candidate(creds: Credentials, origin: Origin)

  /** The credentials secret as the Get finds it; a missing data key reads as empty. */
  datatype SecretState = Present(username: string, password: string) | NotFound | Unreadable

  // ---------------------------------------------------------------- the candidate chain

  function SecretOffer(secret: SecretState): Option<Candidate> {
    if secret.Present? && secret.username != "" && secret.password != ""
    then Some(Candidate(Defaults.Credentials(secret.username, secret.password), FromSecret)) else None
  }

  function DefaultOffer(defaults: map<string, Credentials>, service: string, origin: Origin): Option<Candidate> {
    if service in defaults then Some(Candidate(defaults[service], origin)) else None
  }

  function AsSeq(o: Option<Candidate>): seq<Candidate> {
    match o case None => [] case Some(c) => [c]
  }

  /** Every pair there is to try, duplicates and all, in the order of preference. */
  ghost function Offers(secret: SecretState, defaults: map<string, Credentials>, service: string): seq<Candidate> {
    AsSeq(SecretOffer(secret)) + AsSeq(DefaultOffer(defaults, service, FromService))
    + AsSeq(DefaultOffer(defaults, WILDCARD, FromWildcard))
  }

  /** Holds the pair already. */
  predicate Has(cs: seq<Candidate>, creds: Credentials) {
    exists c | c in cs :: c.creds == creds
  }

  function Added(cs: seq<Candidate>, c: Candidate): seq<Candidate> {
    if Has(cs, c.creds) then cs else cs + [c]
  }

  function AddedOffer(cs: seq<Candidate>, o: Option<Candidate>): seq<Candidate> {
    match o case None => cs case Some(c) => Added(cs, c)
  }

  function Candidates(secret: SecretState, defaults: map<string, Credentials>, service: string): seq<Candidate> {
    AddedOffer(AddedOffer(AddedOffer([], SecretOffer(secret)), DefaultOffer(defaults, service, FromService)),
               DefaultOffer(defaults, WILDCARD, FromWildcard))
  }

  /** The first offer of each pair. */
  ghost function Collapsed(offers: seq<Candidate>): seq<Candidate> {
    if offers == [] then [] else Added(Collapsed(offers[..|offers| - 1]), offers[|offers| - 1])
  }

  ghost predicate Ranked(cs: seq<Candidate>) {
    forall i, j | 0 <= i < j < |cs| :: Rank(cs[i].origin) < Rank(cs[j].origin)
  }

  ghost predicate NoDuplicates(cs: seq<Candidate>) {
    forall i, j | 0 <= i < j < |cs| :: cs[i].creds != cs[j].creds
  }

  /** `c` is offered, and its pair not before it. */
  ghost predicate FirstOffer(offers: seq<Candidate>, c: Candidate) {
    exists p :: 0 <= p < |offers| && offers[p] == c && forall q | 0 <= q < p :: offers[q].creds != c.creds
  }

  lemma {:induction false} CollapsedSpec(offers: seq<Candidate>)
    ensures var cs := Collapsed(offers);
            && NoDuplicates(cs)
            && (forall c | c in cs :: FirstOffer(offers, c))
            && (forall o | o in offers :: Has(cs, o.creds))
  {
    if offers != [] {
      var front, last := offers[..|offers| - 1], offers[|offers| - 1];
      CollapsedSpec(front);
      var before, cs := Collapsed(front), Collapsed(offers);
      forall c | c in cs ensures FirstOffer(offers, c) {
        if c in before {
          var p :| 0 <= p < |front| && front[p] == c && forall q | 0 <= q < p :: front[q].creds != c.creds;
          assert offers[p] == c && forall q | 0 <= q < p :: offers[q] == front[q];
        } else {
          forall q | 0 <= q < |front| ensures offers[q].creds != c.creds {
            assert offers[q] == front[q] && front[q] in front;
          }
        }
      }
      forall o | o in offers ensures Has(cs, o.creds) {
        assert o in front || o == last;
        assert forall c | c in before :: c in cs;
      }
    }
  }

  lemma {:induction false} CollapsedRanked(offers: seq<Candidate>)
    requires Ranked(offers)
    ensures Ranked(Collapsed(offers))
    ensures forall c | c in Collapsed(offers) :: c in offers
  {
    if offers != [] {
      var front, last := offers[..|offers| - 1], offers[|offers| - 1];
      CollapsedRanked(front);
      forall c | c in Collapsed(front) ensures c in offers && Rank(c.origin) < Rank(last.origin) {
        var p :| 0 <= p < |front| && front[p] == c;
        assert offers[p] == c;
      }
    }
  }

  lemma CollapsedAppend(offers: seq<Candidate>, o: Option<Candidate>)
    ensures Collapsed(offers + AsSeq(o)) == AddedOffer(Collapsed(offers), o)
  {
    assert offers + AsSeq(None) == offers;
    if o.Some? {
      assert (offers + [o.value])[..|offers|] == offers;
    }
  }

  lemma CollapsedThree(a: Option<Candidate>, b: Option<Candidate>, c: Option<Candidate>)
    ensures Collapsed(AsSeq(a) + AsSeq(b) + AsSeq(c)) == AddedOffer(AddedOffer(AddedOffer([], a), b), c)
  {
    assert [] + AsSeq(a) == AsSeq(a);
    CollapsedAppend([], a);
    CollapsedAppend(AsSeq(a), b);
    CollapsedAppend(AsSeq(a) + AsSeq(b), c);
  }

  /** The chain is duplicate-free, in the order secret, service default, wildcard default, holds
      every pair on offer, and each under the first origin that offers it. */
  lemma CandidatesSpec(secret: SecretState, defaults: map<string, Credentials>, service: string)
    ensures var offers, cs := Offers(secret, defaults, service), Candidates(secret, defaults, service);
            && NoDuplicates(cs) && Ranked(cs)
            && (forall c | c in cs :: FirstOffer(offers, c))
            && (forall o | o in offers :: Has(cs, o.creds))
  {
    var a, b, c := SecretOffer(secret), DefaultOffer(defaults, service, FromService), DefaultOffer(defaults, WILDCARD, FromWildcard);
    CollapsedThree(a, b, c);
    OffersRanked(a, b, c);
    CollapsedSpec(AsSeq(a) + AsSeq(b) + AsSeq(c));
    CollapsedRanked(AsSeq(a) + AsSeq(b) + AsSeq(c));
  }

  lemma OffersRanked(a: Option<Candidate>, b: Option<Candidate>, c: Option<Candidate>)
    requires a.Some? ==> a.value.origin == FromSecret
    requires b.Some? ==> b.value.origin == FromService
    requires c.Some? ==> c.value.origin == FromWildcard
    ensures Ranked(AsSeq(a) + AsSeq(b) + AsSeq(c))
  {
  }

  /** Some offer ahead of this origin is the pair already. */
  ghost predicate SecretHolds(secret: SecretState, creds: Credentials) {
    secret == Present(creds.username, creds.password) && creds.username != "" && creds.password != ""
  }

  ghost predicate DefaultIs(defaults: map<string, Credentials>, service: string, creds: Credentials) {
    service in defaults && defaults[service] == creds
  }

  /** Exactly these are tried: the secret's pair if neither half is empty, then the default of the
      service unless it is that pair, then the default of `*` unless it is one of them. */
  lemma CandidatesExactly(secret: SecretState, defaults: map<string, Credentials>, service: string, creds: Credentials)
    ensures var cs := Candidates(secret, defaults, service);
            && (Candidate(creds, FromSecret) in cs <==> SecretHolds(secret, creds))
            && (Candidate(creds, FromService) in cs <==> DefaultIs(defaults, service, creds) && !SecretHolds(secret, creds))
            && (Candidate(creds, FromWildcard) in cs
                <==> DefaultIs(defaults, "*", creds) && !SecretHolds(secret, creds) && !DefaultIs(defaults, service, creds))
  {
    var a, b, c := SecretOffer(secret), DefaultOffer(defaults, service, FromService), DefaultOffer(defaults, WILDCARD, FromWildcard);
    var one := AddedOffer([], a);
    var two := AddedOffer(one, b);
    assert forall x :: x in one <==> a == Some(x);
    assert Has(one, creds) <==> SecretHolds(secret, creds);
    assert forall x :: x in two <==> x in one || (b == Some(x) && !Has(one, x.creds));
    assert Has(two, creds) <==> SecretHolds(secret, creds) || DefaultIs(defaults, service, creds) by {
      if DefaultIs(defaults, service, creds) && !Has(one, creds) {
        assert Candidate(creds, FromService) in two;
      }
      if SecretHolds(secret, creds) {
        assert Candidate(creds, FromSecret) in two;
      }
    }
  }

  /** The `add` closure (worker.go:181-188). */
  method Add(cs: seq<Candidate>, creds: Credentials, origin: Origin) returns (r: seq<Candidate>)
    ensures r == Added(cs, Candidate(creds, origin))
  {
    var i := 0;
    while i < |cs|
      invariant 0 <= i <= |cs|
      invariant forall j | 0 <= j < i :: cs[j].creds != creds
    {
      if cs[i].creds == creds {
        assert cs[i] in cs;
        return cs;
      }
      i := i + 1;
    }
    return cs + [Candidate(creds, origin)];
  }

  /** `credentialCandidates` (worker.go:179-215). */
  method CredentialCandidates(secret: SecretState, defaults: map<string, Credentials>, service: string)
    returns (candidates: seq<Candidate>)
    ensures candidates == Candidates(secret, defaults, service)
  {
    candidates := [];
    if secret.Present? {
      if |secret.username| > 0 && |secret.password| > 0 {
        candidates := Add(candidates, Defaults.Credentials(secret.username, secret.password), FromSecret);
      }
    }
    if service in defaults {
      candidates := Add(candidates, defaults[service], FromService);
    }
    if WILDCARD in defaults {
      candidates := Add(candidates, defaults[WILDCARD], FromWildcard);
    }
  }

  // ----------------------------------------------------------------------------- handle

  /** The i-th candidate authenticates and none before it does. */
  ghost predicate FirstGood(cs: seq<Candidate>, collect: Credentials -> Option<Device>, i: nat) {
    i < |cs| && collect(cs[i].creds).Some? && forall j | 0 <= j < i :: collect(cs[j].creds).None?
  }

  ghost predicate NoneGood(cs: seq<Candidate>, collect: Credentials -> Option<Device>) {
    forall c | c in cs :: collect(c.creds).None?
  }

  method FindVerified(cs: seq<Candidate>, collect: Credentials -> Option<Device>) returns (dev: Option<Device>, creds: Credentials, ghost i: nat)
    ensures dev.None? ==> NoneGood(cs, collect)
    ensures dev.Some? ==> FirstGood(cs, collect, i) && creds == cs[i].creds && dev == collect(creds)
  {
    dev, creds, i := None, Defaults.Credentials("", ""), 0;
    var k := 0;
    while k < |cs|
      invariant 0 <= k <= |cs|
      invariant forall j | 0 <= j < k :: collect(cs[j].creds).None?
    {
      var d := collect(cs[k].creds);
      if d.Some? {
        dev, creds, i := d, cs[k].creds, k;
        return;
      }
      k := k + 1;
    }
  }

  class Handler {
    var known: map<string, Endpoint>
    const redfishPort: int
    const defaults: map<string, Credentials>
    const syncer: Syncer.Worker

    constructor (redfishPort: int, defaults: map<string, Credentials>, syncer: Syncer.Worker)
      ensures this.redfishPort == redfishPort && this.defaults == defaults && this.syncer == syncer && known == map[]
    {
      this.redfishPort, this.defaults, this.syncer, known := redfishPort, defaults, syncer, map[];
    }

    /** `handle` (worker.go:121-168).  The secret's state, what each pair collects at the
        endpoint, and the clock come from outside; a pair is tried at most once. */
    method Handle(key: string, secret: SecretState, collect: (Endpoint, Credentials) -> Option<Device>, now: Desired.Stamps)
      returns (ok: bool)
      requires Sync.ProcOf(syncer.w, syncer.pid).Resting?
      modifies syncer
      ensures known == old(known)
      ensures key !in known ==> ok && syncer.w == old(syncer.w)
      ensures key in known ==>
                var ep := if redfishPort == 0 then known[key] else known[key].(port := redfishPort);
                var cs, at := Candidates(secret, defaults, ep.service), (c: Credentials) => collect(ep, c);
                || (NoneGood(cs, at) && !ok && syncer.w == old(syncer.w))
                || exists i: nat :: FirstGood(cs, at, i)
                     && Syncer.OneSync(syncer.labels, syncer.pid, Sync.Request(syncer.opts, ep, at(cs[i].creds).value, cs[i].creds, now))
                     && syncer.w == Sync.Run(old(syncer.w), syncer.labels)
                     && (ok ==> forall step | 0 <= step <= 2 ::
                                  Syncer.Synced(syncer.w, |old(syncer.w.log)|, Sync.Request(syncer.opts, ep, at(cs[i].creds).value, cs[i].creds, now), step))
    {
      if key !in known {
        return true;
      }
      var ep := known[key];
      if redfishPort != 0 {
        ep := ep.(port := redfishPort);
      }
      var candidates := CredentialCandidates(secret, defaults, ep.service);
      if |candidates| == 0 {
        return false;
      }
      var at := (c: Credentials) => collect(ep, c);
      var dev, creds, i := FindVerified(candidates, at);
      if dev.None? {
        return false;
      }
      ok := syncer.Sync(ep, dev, creds, now);
    }
  }
}

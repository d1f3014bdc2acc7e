/** Verify-then-act: what a persisted etcd conclusion says about membership, and whose members
    the controller takes out (reconciler.go:367-398, 484-516).  Reads may be stale throughout. */
module Membership {
  import opened Wrappers
  import opened Machines
  import opened Etcd
  import opened Protocol
  import opened Runs
  import Agreement
  import PowerOff

  /** A member list names exactly the members there are. */
  ghost predicate Truthful(w: World, cluster: string, resp: MemberList) {
    forall x :: x in Flatten(resp) <==>
      var id := MemberId(cluster, x.id); id in w.members && id in w.roster && w.roster[id].hostname == x.hostname
  }

  ghost predicate Belongs(w: World, id: MemberId, cluster: string, name: string) {
    id in w.members && id in w.roster && id.cluster == cluster && w.roster[id].owner == name
  }

  /** The victim's names match its own member and no other. */
  ghost predicate NamesIdentify(w: World, m: Machine) {
    && (forall id | id in w.members && id in w.roster && id.cluster == m.cluster ::
         IsVictim(m, w.roster[id].hostname) <==> Belongs(w, id, m.cluster, m.name))
    && (forall x, y | Belongs(w, x, m.cluster, m.name) && Belongs(w, y, m.cluster, m.name) :: x == y)
  }

  /** No member of its cluster belongs to the machine. */
  ghost predicate Gone(w: World, cluster: string, name: string) {
    forall id :: !Belongs(w, id, cluster, name)
  }

  /** The machine has no other member than `id`. */
  ghost predicate NoOther(w: World, id: MemberId, cluster: string, name: string) {
    forall x | Belongs(w, x, cluster, name) :: x == id
  }

  /** The list tells whether the machine has a member, and which. */
  ghost predicate Decides(w: World, m: Machine, resp: MemberList) {
    match FindMember(resp, HostnameCandidates(m))
    case None => Gone(w, m.cluster, m.name)
    case Some(x) => NoOther(w, MemberId(m.cluster, x.id), m.cluster, m.name)
  }

  /** The member lists `n`'s reconcile gets decide. */
  ghost predicate Honest(w: World, l: Label, n: string) {
    l.On? && l.name == n && n in w.cells && l.act.Reply? && l.act.answer.Members? && w.cells[n].pc.Active? ==>
      Decides(w, w.cells[n].pc.m, l.act.answer.resp)
  }

  predicate SaysGone(v: EtcdOutcome) {
    v.NotMember? || v.Left? || v.Removed?
  }

  predicate Targets(at: Point) {
    at.DialVictim? || at.Forfeit? || at.Leave? || at.Remove?
  }

  ghost predicate PcInv(w: World, pc: Pc) {
    pc.Active? ==>
      && (Targets(pc.at) ==> NoOther(w, MemberId(pc.m.cluster, pc.at.id), pc.m.cluster, pc.m.name))
      && (pc.at.StampEtcd? && SaysGone(pc.at.etcd) ==> Gone(w, pc.m.cluster, pc.m.name))
  }

  predicate ConcludedGone(m: Machine) {
    EtcdConclusion in m.annotations && m.annotations[EtcdConclusion].Etcd? && SaysGone(m.annotations[EtcdConclusion].etcd)
  }

  ghost predicate ConclusionInv(w: World, m: Machine) {
    ConcludedGone(m) ==> m.deletion.Some? && Gone(w, m.cluster, m.name)
  }

  ghost predicate Inv(w: World, n: string) {
    && PowerOff.Inv(w)
    && w.members <= w.roster.Keys
    && (n in w.cells ==> PcInv(w, w.cells[n].pc) && ConclusionInv(w, w.cells[n].live))
  }

  ghost predicate OwnedMember(w: World, id: MemberId, n: string) {
    id in w.roster && w.roster[id].owner == n
  }

  /** The member a list leads the reconcile to, if it leads to any, is `n`'s own. */
  ghost predicate RightMember(w: World, n: string, m: Machine, resp: MemberList) {
    FindMember(resp, HostnameCandidates(m)).Some? ==>
      OwnedMember(w, MemberId(m.cluster, FindMember(resp, HostnameCandidates(m)).value.id), n)
  }

  lemma Lists(w: World, m: Machine, resp: MemberList, id: MemberId)
    requires Truthful(w, m.cluster, resp) && NamesIdentify(w, m) && Belongs(w, id, m.cluster, m.name)
    ensures exists x :: x in Flatten(resp) && MatchesMember(HostnameCandidates(m), x.hostname)
  {
    assert MemberId(m.cluster, id.id) == id;
    assert Member(id.id, w.roster[id].hostname) in Flatten(resp);
  }

  /** A truthful list in which names identify decides membership and finds the right member. */
  lemma ListDecides(w: World, m: Machine, resp: MemberList)
    requires w.members <= w.roster.Keys && Truthful(w, m.cluster, resp) && NamesIdentify(w, m)
    ensures Decides(w, m, resp) && RightMember(w, m.name, m, resp)
  {
    FirstMatchSpec(Flatten(resp), HostnameCandidates(m));
    match FindMember(resp, HostnameCandidates(m))
    case None =>
      forall id ensures !Belongs(w, id, m.cluster, m.name) {
        if Belongs(w, id, m.cluster, m.name) {
          Lists(w, m, resp, id);
        }
      }
    case Some(x) =>
      assert Belongs(w, MemberId(m.cluster, x.id), m.cluster, m.name);
  }

  /** Where the reconcile's knowledge about membership can come from. */
  lemma AdvanceSource(cfg: Config, now: nat, m: Machine, obs: int, at: Point, a: Answer)
    ensures var pc := Advance(cfg, now, m, obs, at, a);
            && (pc.Active? && Targets(pc.at) ==>
                 && pc.m == m
                 && ((Targets(at) && pc.at.id == at.id)
                     || (at.Probe? && a.Members? && FindMember(a.resp, HostnameCandidates(m)).Some?
                         && pc.at.id == FindMember(a.resp, HostnameCandidates(m)).value.id)))
            && (pc.Active? && pc.at.StampEtcd? && SaysGone(pc.at.etcd) ==>
                 && pc.m == m
                 && ((at.Probe? && a.Members? && FindMember(a.resp, HostnameCandidates(m)).None?)
                     || (at.Leave? && a.Ok?) || (at.Remove? && a.Ok?)))
  {
  }

  lemma Shrinks(w: World, w': World, cluster: string, name: string)
    requires w'.roster == w.roster && w'.members <= w.members
    ensures Gone(w, cluster, name) ==> Gone(w', cluster, name)
    ensures forall id | NoOther(w, id, cluster, name) :: NoOther(w', id, cluster, name)
    ensures forall id | NoOther(w, id, cluster, name) && id !in w'.members :: Gone(w', cluster, name)
  {
    assert forall x :: Belongs(w', x, cluster, name) ==> Belongs(w, x, cluster, name);
  }

  /** What a reply leaves the reconcile knowing, in the world the reply leaves behind. */
  lemma ReplyPc(w: World, n: string, a: Answer)
    requires Inv(w, n) && n in w.cells && w.cells[n].pc.Active? && Honest(w, On(n, Reply(a)), n)
    ensures var w' := Apply(w, On(n, Reply(a))); PcInv(w', w'.cells[n].pc)
  {
    var pc, w' := w.cells[n].pc, Apply(w, On(n, Reply(a)));
    var heard := Heard(w, pc.m, a);
    assert pc.m.name == n && w'.cells[n].pc == Advance(w.cfg, w.now, pc.m, pc.obs, pc.at, heard);
    AdvanceSource(w.cfg, w.now, pc.m, pc.obs, pc.at, heard);
    Shrinks(w, w', pc.m.cluster, n);
    if pc.at.Leave? && a.Ok? {
      assert forall id :: Belongs(w, id, pc.m.cluster, n) ==> id in OwnedBy(w, n);
    }
  }

  /** Once the conclusion is written, the machine is deleting and the knowledge behind it stays. */
  lemma ReplyConclusion(w: World, n: string, a: Answer)
    requires Inv(w, n) && n in w.cells && w.cells[n].pc.Active?
    ensures var w' := Apply(w, On(n, Reply(a))); ConclusionInv(w', w'.cells[n].live)
  {
    var c := w.cells[n];
    var w' := Apply(w, On(n, Reply(a)));
    Shrinks(w, w', c.live.cluster, n);
    if c.pc.at.StampEtcd? {
      assert PowerOff.PointInv(c.pc.m, c.pc.at) && c.live.name == c.pc.m.name && c.live.cluster == c.pc.m.cluster;
    } else {
      OtherReply(w.cfg, w.now, c, Heard(w, c.pc.m, a));
    }
  }

  /** No other reply touches the etcd conclusion. */
  lemma OtherReply(cfg: Config, now: nat, c: Cell, a: Answer)
    requires c.pc.Active? && !c.pc.at.StampEtcd?
    ensures var m := StepReply(cfg, now, c, a).live;
            && m == c.live.(annotations := m.annotations) && SameOn(c.live.annotations, m.annotations, EtcdConclusion)
  {
  }

  lemma FewerMembers(w: World, w': World, n: string)
    requires Inv(w, n) && n in w.cells && n in w'.cells
    requires w'.roster == w.roster && w'.members <= w.members
    ensures w'.cells[n].pc == w.cells[n].pc ==> PcInv(w', w'.cells[n].pc)
    ensures w'.cells[n].live == w.cells[n].live ==> ConclusionInv(w', w'.cells[n].live)
  {
    Shrinks(w, w', w.cells[n].live.cluster, n);
    if w.cells[n].pc.Active? {
      Shrinks(w, w', w.cells[n].pc.m.cluster, n);
    }
  }

  lemma JoinKeeps(w: World, id: MemberId, seat: Seat, n: string)
    requires Inv(w, n) && MayJoin(w, id, seat) && n in w.cells
    ensures var w' := Apply(w, Join(id, seat)); PcInv(w', w.cells[n].pc) && ConclusionInv(w', w.cells[n].live)
  {
    var c, w' := w.cells[n], Apply(w, Join(id, seat));
    if c.live.deletion.Some? {
      assert forall x :: Belongs(w', x, c.live.cluster, c.live.name) ==> Belongs(w, x, c.live.cluster, c.live.name);
    }
    if c.pc.Active? && (c.pc.at.StampEtcd? || Targets(c.pc.at)) {
      assert PowerOff.PointInv(c.pc.m, c.pc.at) && c.live.deletion == c.pc.m.deletion && c.pc.m.name == n;
      assert forall x :: Belongs(w', x, c.pc.m.cluster, c.pc.m.name) ==> Belongs(w, x, c.pc.m.cluster, c.pc.m.name);
    }
  }

  lemma OnKeeps(w: World, n: string, act: Act)
    requires Inv(w, n) && n in w.cells && Honest(w, On(n, act), n)
    ensures var w' := Apply(w, On(n, act)); PcInv(w', w'.cells[n].pc) && ConclusionInv(w', w'.cells[n].live)
  {
    var c, w' := w.cells[n], Apply(w, On(n, act));
    FewerMembers(w, w', n);
    Shrinks(w, w', c.live.cluster, n);
    if act.Reply? && c.pc.Active? {
      ReplyPc(w, n, act.answer);
      ReplyConclusion(w, n, act.answer);
    } else if act.Read? && c.pc.Idle? {
      assert w'.cells[n].pc == Decide(Version(c, act.k));
    }
  }

  lemma ApplyKeeps(w: World, l: Label, n: string)
    requires Inv(w, n) && Honest(w, l, n)
    ensures Inv(Apply(w, l), n)
  {
    PowerOff.ApplyInv(w, l);
    var w' := Apply(w, l);
    if n in w'.cells {
      if l.On? && l.name == n && n in w.cells {
        OnKeeps(w, n, l.act);
      } else if l.Join? && MayJoin(w, l.member, l.seat) {
        JoinKeeps(w, l.member, l.seat, n);
      } else if n in w.cells {
        FewerMembers(w, w', n);
      }
    }
  }

  lemma RunKeeps(cfg: Config, ls: seq<Label>, n: string)
    requires Throughout(Start(cfg), ls, (w, l) => Honest(w, l, n))
    ensures Inv(Run(Start(cfg), ls), n)
  {
    forall w, l | Inv(w, n) && Honest(w, l, n) ensures Inv(Apply(w, l), n) {
      ApplyKeeps(w, l, n);
    }
    KeptThroughout(Apply, Start(cfg), ls, (w, l) => Honest(w, l, n), w => Inv(w, n));
  }

  /** A persisted `not-member`, `left` or `removed` means that no member of the cluster is the
      victim's, in every later state too, if the lists the victim's reconciles got decide, as truthful
      ones do in which names identify: the conclusion may have been persisted long ago, and other
      machines' lists may be anything. */
  lemma ConclusionIsSound(cfg: Config, ls: seq<Label>, n: string)
    requires Throughout(Start(cfg), ls, (w, l) => Honest(w, l, n))
    requires var w := Run(Start(cfg), ls); n in w.cells && ConcludedGone(w.cells[n].live)
    ensures var w := Run(Start(cfg), ls);
            forall id | id in w.members && id.cluster == w.cells[n].live.cluster ::
              id in w.roster && w.roster[id].owner != n
  {
    RunKeeps(cfg, ls, n);
    var w := Run(Start(cfg), ls);
    forall id | id in w.members && id.cluster == w.cells[n].live.cluster ensures id in w.roster && w.roster[id].owner != n {
      assert !Belongs(w, id, w.cells[n].live.cluster, w.cells[n].live.name);
    }
  }

  // ------------------------------------------------------------- whose members are taken out

  /** No other machine's member in the list matches `n`'s names: they need not match its own. */
  lemma NoOtherMatches(w: World, n: string, m: Machine, resp: MemberList)
    requires forall x | x in Flatten(resp) && MatchesMember(HostnameCandidates(m), x.hostname) ::
               OwnedMember(w, MemberId(m.cluster, x.id), n)
    ensures RightMember(w, n, m, resp)
  {
    FirstMatchSpec(Flatten(resp), HostnameCandidates(m));
  }

  ghost predicate RightLists(w: World, l: Label, n: string) {
    l.On? && l.name == n && n in w.cells && l.act.Reply? && l.act.answer.Members? && w.cells[n].pc.Active? ==>
      RightMember(w, n, w.cells[n].pc.m, l.act.answer.resp)
  }

  ghost predicate AimInv(w: World, n: string) {
    && w.members <= w.roster.Keys
    && (n in w.cells && w.cells[n].pc.Active? && Targets(w.cells[n].pc.at) ==>
          OwnedMember(w, MemberId(w.cells[n].pc.m.cluster, w.cells[n].pc.at.id), n))
  }

  lemma AimReply(w: World, n: string, a: Answer)
    requires AimInv(w, n) && n in w.cells && w.cells[n].pc.Active? && RightLists(w, On(n, Reply(a)), n)
    ensures AimInv(Apply(w, On(n, Reply(a))), n)
  {
    var pc := w.cells[n].pc;
    AdvanceSource(w.cfg, w.now, pc.m, pc.obs, pc.at, Heard(w, pc.m, a));
  }

  lemma AimStep(w: World, l: Label, n: string)
    requires AimInv(w, n) && RightLists(w, l, n)
    ensures AimInv(Apply(w, l), n)
  {
    if l.On? && l.name == n && n in w.cells {
      var c := w.cells[n];
      if l.act.Reply? && c.pc.Active? {
        AimReply(w, n, l.act.answer);
      } else if l.act.Read? && c.pc.Idle? {
        DecideAimsAtNone(Version(c, l.act.k));
      }
    }
  }

  lemma DecideAimsAtNone(m: Machine)
    ensures Decide(m).Active? ==> !Targets(Decide(m).at)
  {
  }

  /** Over every run in which the lists `n`'s reconciles get lead to no other machine's member, no step
      of them takes another machine's member out; `n`'s own member may go by any name, and others may
      be missing from the lists. */
  lemma OnlyOwnMembers(cfg: Config, ls: seq<Label>, n: string, act: Act, id: MemberId)
    requires Throughout(Start(cfg), ls, (w, l) => RightLists(w, l, n))
    requires var w := Run(Start(cfg), ls); id in w.members && id !in Apply(w, On(n, act)).members
    ensures OwnedMember(Run(Start(cfg), ls), id, n)
  {
    forall w, l | AimInv(w, n) && RightLists(w, l, n) ensures AimInv(Apply(w, l), n) {
      AimStep(w, l, n);
    }
    KeptThroughout(Apply, Start(cfg), ls, (w, l) => RightLists(w, l, n), w => AimInv(w, n));
    var w := Run(Start(cfg), ls);
    assert id in TakenOut(w, n, w.cells[n], act);
  }

  // ---------------------------------------------------------------- and exactly when not

  /** Further answers to `n`'s reconcile, without another list. */
  ghost predicate Answers(ls: seq<Label>, n: string) {
    forall l | l in ls :: l.On? && l.name == n && l.act.Reply? && !l.act.answer.Members?
  }

  /** The list leads to a member that is there and another machine's. */
  ghost predicate Misleads(w: World, n: string, m: Machine, resp: MemberList) {
    && FindMember(resp, HostnameCandidates(m)).Some?
    && var id := MemberId(m.cluster, FindMember(resp, HostnameCandidates(m)).value.id);
       id in w.members && !OwnedMember(w, id, n)
  }

  ghost predicate TakesAnothers(w: World, w': World, n: string) {
    exists id :: id in w.members && id !in w'.members && !OwnedMember(w, id, n)
  }

  /** The reconcile aims at no member of another machine that was there in `w`. */
  ghost predicate AimsRight(w: World, v: World, n: string) {
    && n in v.cells && v.roster == w.roster && !TakesAnothers(w, v, n)
    && (v.cells[n].pc.Active? && Targets(v.cells[n].pc.at) ==>
          var id := MemberId(v.cells[n].pc.m.cluster, v.cells[n].pc.at.id); id in w.members ==> OwnedMember(w, id, n))
  }

  lemma AimsRightStep(w: World, v: World, n: string, a: Answer)
    requires AimsRight(w, v, n) && !a.Members?
    ensures AimsRight(w, Apply(v, On(n, Reply(a))), n)
  {
    var pc := v.cells[n].pc;
    var v' := Apply(v, On(n, Reply(a)));
    if pc.Active? {
      AdvanceSource(v.cfg, v.now, pc.m, pc.obs, pc.at, Heard(v, pc.m, a));
      assert v'.cells[n].pc == Advance(v.cfg, v.now, pc.m, pc.obs, pc.at, Heard(v, pc.m, a));
      forall id | id in w.members && id !in v'.members ensures OwnedMember(w, id, n) {
        assert id !in v.members || id in TakenOut(v, n, v.cells[n], Reply(a));
      }
    }
  }

  lemma AimsRightRun(w: World, v: World, n: string, ls: seq<Label>)
    requires AimsRight(w, v, n) && Answers(ls, n)
    ensures !TakesAnothers(w, Run(v, ls), n)
  {
    var allowed := (x: World, l: Label) => l.On? && l.name == n && l.act.Reply? && !l.act.answer.Members?;
    forall x, l | AimsRight(w, x, n) && allowed(x, l) ensures AimsRight(w, Apply(x, l), n) {
      AimsRightStep(w, x, n, l.act.answer);
    }
    forall i | 0 <= i < |ls| ensures allowed(Fold(Apply, v, ls[..i]), ls[i]) {
      assert ls[i] in ls;
    }
    KeptThroughout(Apply, v, ls, allowed, x => AimsRight(w, x, n));
  }

  /** What the reconcile aims at once it got the list. */
  lemma ListAims(w: World, n: string, m: Machine, obs: int, queue: seq<Machine>, resp: MemberList)
    requires n in w.cells && w.cells[n].pc == Active(m, obs, Probe(queue))
    ensures var w' := Apply(w, On(n, Reply(Members(resp))));
            && n in w'.cells && w'.roster == w.roster && w'.members == w.members
            && w'.cells[n].pc == match FindMember(resp, HostnameCandidates(m))
                                 case None => Active(m, obs, StampEtcd(NotMember))
                                 case Some(x) => Active(m, obs, DialVictim(x.id))
  {
  }

  lemma Refused(w: World, n: string, m: Machine, obs: int, id: nat)
    requires n in w.cells && w.cells[n].pc == Active(m, obs, DialVictim(id))
    ensures var w' := Apply(w, On(n, Reply(Failed)));
            n in w'.cells && w'.members == w.members && w'.cells[n].pc == Active(m, obs, Remove(id))
  {
  }

  lemma Removes(w: World, n: string, m: Machine, obs: int, id: nat)
    requires n in w.cells && w.cells[n].pc == Active(m, obs, Remove(id))
    ensures MemberId(m.cluster, id) !in Apply(w, On(n, Reply(Ok))).members
  {
  }

  lemma MisledRemoves(w: World, n: string, m: Machine, obs: int, x: nat) returns (ls: seq<Label>)
    requires n in w.cells && w.cells[n].pc == Active(m, obs, DialVictim(x))
    ensures Answers(ls, n) && MemberId(m.cluster, x) !in Run(w, ls).members
  {
    var l1, l2 := On(n, Reply(Failed)), On(n, Reply(Ok));
    Refused(w, n, m, obs, x);
    Removes(Apply(w, l1), n, m, obs, x);
    ls := [l1] + [] + [l2];
    FoldAround(Apply, w, l1, [], l2);
    assert Fold(Apply, Apply(w, l1), []) == Apply(w, l1);
  }

  /** Exactly when a list costs another machine its member: a reconcile that probes a peer and gets
      this list can, by its own further calls, take another machine's member out if and only if the
      first listed member that matches the victim's names is there and another machine's. */
  lemma MisledExactly(w: World, n: string, m: Machine, obs: int, queue: seq<Machine>, resp: MemberList)
    requires n in w.cells && w.cells[n].pc == Active(m, obs, Probe(queue))
    ensures var w' := Apply(w, On(n, Reply(Members(resp))));
            (exists ls :: Answers(ls, n) && TakesAnothers(w, Run(w', ls), n)) <==> Misleads(w, n, m, resp)
  {
    var w' := Apply(w, On(n, Reply(Members(resp))));
    ListAims(w, n, m, obs, queue, resp);
    if Misleads(w, n, m, resp) {
      var x := FindMember(resp, HostnameCandidates(m)).value.id;
      var ls := MisledRemoves(w', n, m, obs, x);
      assert TakesAnothers(w, Run(w', ls), n);
    } else {
      forall ls | Answers(ls, n) ensures !TakesAnothers(w, Run(w', ls), n) {
        AimsRightRun(w, w', n, ls);
      }
    }
  }

  // ------------------------------------------------------- exactly when a conclusion is wrong

  /** The victim is concluded to be gone, and is not. */
  ghost predicate Wrong(w: World, n: string) {
    n in w.cells && ConcludedGone(w.cells[n].live) && !Gone(w, w.cells[n].live.cluster, n)
  }

  lemma SoundAnswers(w: World, n: string, ls: seq<Label>)
    requires Inv(w, n) && Answers(ls, n)
    ensures !Wrong(Run(w, ls), n)
  {
    var allowed := (x: World, l: Label) => Honest(x, l, n);
    forall x, l | Inv(x, n) && allowed(x, l) ensures Inv(Apply(x, l), n) {
      ApplyKeeps(x, l, n);
    }
    forall i | 0 <= i < |ls| ensures allowed(Fold(Apply, w, ls[..i]), ls[i]) {
      assert ls[i] in ls;
    }
    KeptThroughout(Apply, w, ls, allowed, x => Inv(x, n));
  }

  /** A persisted stamp that says gone of a machine that is not. */
  lemma StampsWrong(w: World, n: string, m: Machine, obs: int, v: EtcdOutcome)
    requires PowerOff.Inv(w) && n in w.cells && w.cells[n].pc == Active(m, obs, StampEtcd(v)) && SaysGone(v)
    requires !Gone(w, m.cluster, n)
    ensures Wrong(Apply(w, On(n, Reply(Ok))), n)
  {
    var w' := Apply(w, On(n, Reply(Ok)));
    var id :| Belongs(w, id, m.cluster, n);
    assert Belongs(w', id, m.cluster, n);
  }

  lemma RemovedStamp(w: World, n: string, m: Machine, obs: int, x: nat, y: MemberId)
    requires n in w.cells && w.cells[n].pc == Active(m, obs, DialVictim(x))
    requires Belongs(w, y, m.cluster, n) && y != MemberId(m.cluster, x)
    ensures var w' := Apply(Apply(w, On(n, Reply(Failed))), On(n, Reply(Ok)));
            n in w'.cells && w'.cells[n].pc == Active(m, obs, StampEtcd(Removed)) && Belongs(w', y, m.cluster, n)
  {
    Refused(w, n, m, obs, x);
    var w1 := Apply(w, On(n, Reply(Failed)));
    assert w1.roster == w.roster;
    RemoveOk(w1, n, m, obs, x);
  }

  lemma RemoveOk(w: World, n: string, m: Machine, obs: int, x: nat)
    requires n in w.cells && w.cells[n].pc == Active(m, obs, Remove(x))
    ensures var w' := Apply(w, On(n, Reply(Ok)));
            && n in w'.cells && w'.cells[n].pc == Active(m, obs, StampEtcd(Removed))
            && w'.members == w.members - {MemberId(m.cluster, x)} && w'.roster == w.roster
  {
  }

  lemma UndecidedIsWrong(w: World, n: string, m: Machine, obs: int, resp: MemberList) returns (ls: seq<Label>)
    requires PowerOff.Inv(w) && n in w.cells && m.name == n && !Decides(w, m, resp)
    requires w.cells[n].pc == match FindMember(resp, HostnameCandidates(m))
                              case None => Active(m, obs, StampEtcd(NotMember))
                              case Some(x) => Active(m, obs, DialVictim(x.id))
    ensures Answers(ls, n) && Wrong(Run(w, ls), n)
  {
    match FindMember(resp, HostnameCandidates(m))
    case None =>
      StampsWrong(w, n, m, obs, NotMember);
      ls := [On(n, Reply(Ok))];
      FoldOne(Apply, w, On(n, Reply(Ok)));
    case Some(x) =>
      var y :| Belongs(w, y, m.cluster, n) && y != MemberId(m.cluster, x.id);
      var l1, l2 := On(n, Reply(Failed)), On(n, Reply(Ok));
      RemovedStamp(w, n, m, obs, x.id, y);
      PowerOff.ApplyInv(w, l1);
      PowerOff.ApplyInv(Apply(w, l1), l2);
      StampsWrong(Apply(Apply(w, l1), l2), n, m, obs, Removed);
      ls := [l1] + [l2] + [l2];
      FoldAround(Apply, w, l1, [l2], l2);
      FoldOne(Apply, Apply(w, l1), l2);
  }

  lemma SameMembers(w: World, w': World, m: Machine, resp: MemberList)
    requires w'.roster == w.roster && w'.members == w.members && !Decides(w, m, resp)
    ensures !Decides(w', m, resp)
  {
    assert forall id :: Belongs(w, id, m.cluster, m.name) <==> Belongs(w', id, m.cluster, m.name);
  }

  /** Exactly when a list leads to a wrong conclusion: after any run in which the lists `n`'s
      reconciles got decided, a reconcile that probes a peer and gets this list can, by its own
      further calls, persist that the victim is gone while it is not, if and only if the list does
      not decide: it leads to no member although the victim has one, or leaves one out. */
  lemma WrongExactly(cfg: Config, before: seq<Label>, n: string, m: Machine, obs: int, queue: seq<Machine>, resp: MemberList)
    requires Throughout(Start(cfg), before, (w, l) => Honest(w, l, n))
    requires var w := Run(Start(cfg), before); n in w.cells && w.cells[n].pc == Active(m, obs, Probe(queue))
    ensures var w := Run(Start(cfg), before);
            var w' := Apply(w, On(n, Reply(Members(resp))));
            (exists ls :: Answers(ls, n) && Wrong(Run(w', ls), n)) <==> !Decides(w, m, resp)
  {
    RunKeeps(cfg, before, n);
    var w := Run(Start(cfg), before);
    var l := On(n, Reply(Members(resp)));
    var w' := Apply(w, l);
    ListAims(w, n, m, obs, queue, resp);
    PowerOff.ApplyInv(w, l);
    if Decides(w, m, resp) {
      ApplyKeeps(w, l, n);
      forall ls | Answers(ls, n) ensures !Wrong(Run(w', ls), n) {
        SoundAnswers(w', n, ls);
      }
    } else {
      SameMembers(w, w', m, resp);
      var ls := UndecidedIsWrong(w', n, m, obs, resp);
    }
  }
}

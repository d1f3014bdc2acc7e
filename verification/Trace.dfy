/** What the history of a machine's reconciles does not hold: no call of a phase once the phase is
    concluded, and no call at all after the release. */
module Trace {
  import opened Wrappers
  import opened Machines
  import opened Protocol
  import opened Runs
  import opened Agreement
  import opened History
  import Always
  import Conclusions
  import PowerOff

  // ---------------------------------------------------------- no call of a concluded phase

  /** A call made to conclude the phase. */
  predicate PhaseCall(at: Point, k: Key) {
    || (k.EtcdConclusion? && InEtcdPhase(at) && !at.StampEtcd?)
    || (k.ResetConclusion? && PowerOff.InResetPhase(at) && !at.Release?)
  }

  predicate Persists(e: Entry, k: Key) {
    (k.EtcdConclusion? && PersistsEtcd(e)) || (k.ResetConclusion? && PersistsReset(e))
  }

  ghost predicate Once(before: seq<Entry>, pc: Pc, k: Key) {
    pc.Active? && PhaseCall(pc.at, k) ==> forall e | e in before :: !Persists(e, k)
  }

  ghost predicate OnceInv(c: Cell, k: Key) {
    && Conclusions.Settled(c, k)
    && (forall e | e in c.trace && Persists(e, k) :: k in c.live.annotations)
    && (forall i | 0 <= i < |c.trace| && c.trace[i].Did? :: Once(c.trace[..i], c.trace[i].pc, k))
  }

  lemma OnceNext(c: Cell, k: Key)
    requires OnceInv(c, k) && Conclusions.IsConclusion(k)
    ensures Once(c.trace, c.pc, k)
  {
    if c.pc.Active? && PhaseCall(c.pc.at, k) && k in c.live.annotations {
      assert false;
    }
  }

  lemma OnceAppend(trace: seq<Entry>, e: Entry, k: Key)
    requires forall i | 0 <= i < |trace| && trace[i].Did? :: Once(trace[..i], trace[i].pc, k)
    requires e.Did? ==> Once(trace, e.pc, k)
    ensures forall i | 0 <= i < |trace + [e]| && (trace + [e])[i].Did? :: Once((trace + [e])[..i], (trace + [e])[i].pc, k)
  {
    var more := trace + [e];
    forall i | 0 <= i < |more| && more[i].Did? ensures Once(more[..i], more[i].pc, k) {
      assert more[..i] == trace[..i] && trace[..|trace|] == trace;
    }
  }

  lemma PersistedIsThere(cfg: Config, now: nat, c: Cell, a: Answer, k: Key)
    requires c.pc.Active? && Conclusions.IsConclusion(k) && Persists(Did(c.pc, a, now), k)
    ensures k in StepReply(cfg, now, c, a).live.annotations
  {
  }

  lemma OnceReply(cfg: Config, now: nat, c: Cell, a: Answer, k: Key)
    requires OnceInv(c, k) && c.pc.Active? && Conclusions.IsConclusion(k)
    ensures OnceInv(StepReply(cfg, now, c, a), k)
  {
    var c', e := StepReply(cfg, now, c, a), Did(c.pc, a, now);
    Conclusions.SettledReply(cfg, now, c, a, k);
    OnceNext(c, k);
    OnceAppend(c.trace, e, k);
    forall x | x in c'.trace && Persists(x, k) ensures k in c'.live.annotations {
      if x in c.trace {
        Conclusions.CellKeepsConclusion(cfg, now, c, Reply(a), k);
      } else {
        PersistedIsThere(cfg, now, c, a, k);
      }
    }
  }

  lemma OnceStep(cfg: Config, now: nat, c: Cell, act: Act, k: Key)
    requires OnceInv(c, k) && Conclusions.IsConclusion(k) && Conclusions.ShowsConclusion(c, act, k)
    ensures OnceInv(StepCell(cfg, now, c, act), k)
  {
    if act.Reply? && c.pc.Active? {
      OnceReply(cfg, now, c, act.answer, k);
    } else {
      var c' := StepCell(cfg, now, c, act);
      Conclusions.SettledStep(cfg, now, c, act, k);
      if act.Read? && c.pc.Idle? {
        OnceAppend(c.trace, Began(Version(c, act.k)), k);
      } else if act.Crash? && c.pc.Active? {
        OnceAppend(c.trace, Crashed, k);
      }
      forall x | x in c'.trace && Persists(x, k) ensures k in c'.live.annotations {
        assert x in c.trace;
        Conclusions.CellKeepsConclusion(cfg, now, c, act, k);
      }
    }
  }

  ghost predicate OnceIn(w: World, n: string, k: Key) {
    n in w.cells ==> OnceInv(w.cells[n], k)
  }

  /** The i-th call of a phase is made only before the phase is concluded, over every run in which no
      reconcile of the machine, once it is concluded, reads a version with which it would conclude
      it anew. */
  lemma NoCallOnceConcluded(cfg: Config, ls: seq<Label>, n: string, k: Key, i: nat, pc: Pc)
    requires Conclusions.IsConclusion(k) && Throughout(Start(cfg), ls, (w, l) => Conclusions.Shows(w, l, n, k))
    requires n in Run(Start(cfg), ls).cells && Call(Run(Start(cfg), ls).cells[n].trace, i, pc) && PhaseCall(pc.at, k)
    ensures forall e | e in Run(Start(cfg), ls).cells[n].trace[..i] :: !Persists(e, k)
  {
    forall w, l | OnceIn(w, n, k) && Conclusions.Shows(w, l, n, k) ensures OnceIn(Apply(w, l), n, k) {
      if l.On? && l.name == n && n in w.cells {
        OnceStep(w.cfg, w.now, w.cells[n], HeardAct(w, w.cells[n], l.act), k);
      }
    }
    KeptThroughout(Apply, Start(cfg), ls, (w, l) => Conclusions.Shows(w, l, n, k), w => OnceIn(w, n, k));
    var c := Run(Start(cfg), ls).cells[n];
    assert Once(c.trace[..i], c.trace[i].pc, k);
  }

  // ----------------------------------------------------------------- silence after release

  ghost predicate Released(c: Cell) {
    c.live.deletion.Some? && !HasHook(c.live) && ResetConclusion in c.live.annotations && c.pc.Idle?
  }

  ghost predicate Silent(before: seq<Entry>) {
    forall e | e in before :: !Releases(e)
  }

  ghost predicate SilentInv(c: Cell) {
    && Always.CellInv(c)
    && (!Silent(c.trace) ==> Released(c))
    && (forall i | 0 <= i < |c.trace| && c.trace[i].Did? :: Silent(c.trace[..i]))
  }

  lemma SilentAppend(trace: seq<Entry>, e: Entry)
    requires forall i | 0 <= i < |trace| && trace[i].Did? :: Silent(trace[..i])
    requires e.Did? ==> Silent(trace)
    ensures forall i | 0 <= i < |trace + [e]| && (trace + [e])[i].Did? :: Silent((trace + [e])[..i])
    ensures Silent(trace + [e]) <==> Silent(trace) && !Releases(e)
  {
    var more := trace + [e];
    forall i | 0 <= i < |more| && more[i].Did? ensures Silent(more[..i]) {
      assert more[..i] == trace[..i] && trace[..|trace|] == trace;
    }
    assert forall x :: x in more <==> x in trace || x == e;
  }

  lemma ReleaseConcludes(cfg: Config, now: nat, c: Cell, a: Answer)
    requires Always.CellInv(c) && c.pc.Active? && c.pc.at.Release? && Effective(a)
    ensures Released(StepReply(cfg, now, c, a))
  {
  }

  lemma SilentReply(cfg: Config, now: nat, c: Cell, a: Answer)
    requires SilentInv(c) && c.pc.Active?
    ensures SilentInv(StepReply(cfg, now, c, a))
  {
    Always.ReplyInv(cfg, now, c, a);
    SilentAppend(c.trace, Did(c.pc, a, now));
    if Releases(Did(c.pc, a, now)) {
      ReleaseConcludes(cfg, now, c, a);
    }
  }

  /** The version shows that the machine is released. */
  ghost predicate ShowsRelease(m: Machine) {
    !HasHook(m) && ResetConclusion in m.annotations
  }

  /** After the release the machine is left alone. */
  lemma ReleasedIsLeftAlone(c: Cell, k: nat)
    requires Always.CellInv(c) && ShowsRelease(Version(c, k))
    ensures Decide(Version(c, k)).Idle?
  {
    assert k < |c.past| ==> Version(c, k) in c.past;
    assert Always.ConcludedIsDeleting(Version(c, k));
  }

  lemma SilentStep(cfg: Config, now: nat, c: Cell, act: Act)
    requires SilentInv(c) && (act.Read? && !Silent(c.trace) ==> ShowsRelease(Version(c, act.k)))
    ensures SilentInv(StepCell(cfg, now, c, act))
  {
    if act.Reply? && c.pc.Active? {
      SilentReply(cfg, now, c, act.answer);
    } else {
      Always.StepInv(cfg, now, c, act);
      if act.Read? && c.pc.Idle? {
        SilentAppend(c.trace, Began(Version(c, act.k)));
        if !Silent(c.trace) {
          ReleasedIsLeftAlone(c, act.k);
        }
      } else if act.Crash? && c.pc.Active? {
        SilentAppend(c.trace, Crashed);
      }
    }
  }

  /** Once `n` is released, the versions its reconciles read show it. */
  ghost predicate ReadsRelease(w: World, l: Label, n: string) {
    l.On? && l.name == n && n in w.cells && l.act.Read? && !Silent(w.cells[n].trace) ==>
      ShowsRelease(Version(w.cells[n], l.act.k))
  }

  ghost predicate SilentIn(w: World, n: string) {
    n in w.cells ==> SilentInv(w.cells[n])
  }

  /** After the release no reconcile writes or calls anything, over every run in which the versions
      read of the machine after it show the release; before it, and of other machines, any may be
      read. */
  lemma SilentAfterRelease(cfg: Config, ls: seq<Label>, n: string, i: nat, pc: Pc)
    requires Throughout(Start(cfg), ls, (w, l) => ReadsRelease(w, l, n))
    requires n in Run(Start(cfg), ls).cells && Call(Run(Start(cfg), ls).cells[n].trace, i, pc)
    ensures forall e | e in Run(Start(cfg), ls).cells[n].trace[..i] :: !Releases(e)
  {
    forall w, l | SilentIn(w, n) && ReadsRelease(w, l, n) ensures SilentIn(Apply(w, l), n) {
      if l.On? && l.name == n && n in w.cells {
        SilentStep(w.cfg, w.now, w.cells[n], HeardAct(w, w.cells[n], l.act));
      }
    }
    KeptThroughout(Apply, Start(cfg), ls, (w, l) => ReadsRelease(w, l, n), w => SilentIn(w, n));
    var c := Run(Start(cfg), ls).cells[n];
    assert Silent(c.trace[..i]);
  }
}

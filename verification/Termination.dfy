/** Every reconcile ends (internal/teardown/reconciler.go:56-163): each answer takes it further down
    a well-founded order, so one whose calls keep being answered comes to rest. */
module Termination {
  import opened Wrappers
  import opened Machines
  import opened Protocol

  /** How far a reconcile is from its end, but for the peers it still has to try. */
  function Remaining(at: Point): nat {
    match at
    case StampHook => 20
    case RefreshCreds => 19
    case ObserveClock => 18
    case StampObserved(_) => 17
    case ReadCluster => 16
    case ListTurn => 15
    case EtcdConfig => 14
    case ListPeers => 13
    case Probe(_) => 12
    case DialVictim(_) => 11
    case Forfeit(_) => 10
    case Leave(_) => 9
    case Remove(_) => 8
    case EtcdDeadline => 7
    case StampEtcd(_) => 6
    case ResolveReset => 5
    case DialReset => 4
    case CallReset => 3
    case ResetDeadline => 2
    case StampReset(_) => 1
    case Release => 0
  }

  function PeersLeft(at: Point): nat {
    if at.Probe? then |at.queue| else 0
  }

  predicate Closer(a: Point, b: Point) {
    Remaining(a) < Remaining(b) || (Remaining(a) == Remaining(b) && PeersLeft(a) < PeersLeft(b))
  }

  lemma AdvanceCloser(cfg: Config, now: nat, m: Machine, obs: int, at: Point, a: Answer)
    ensures var pc := Advance(cfg, now, m, obs, at, a); pc.Active? ==> Closer(pc.at, at)
  {
  }

  /** An endless run: each state follows from the one before by the label between them. */
  ghost predicate Endless(states: nat -> World, labels: nat -> Label) {
    forall i: nat :: states(i + 1) == Apply(states(i), labels(i))
  }

  predicate AnswersTo(l: Label, n: string) {
    l.On? && l.name == n && (l.act.Reply? || l.act.Crash?)
  }

  ghost predicate AnswerComes(labels: nat -> Label, n: string, i: nat) {
    exists j: nat :: i <= j && AnswersTo(labels(j), n)
  }

  /** Some answer to the machine's reconcile, or its crash, always comes. */
  ghost predicate KeepsAnswering(labels: nat -> Label, n: string) {
    forall i: nat :: AnswerComes(labels, n, i)
  }

  ghost predicate Resting(w: World, n: string) {
    n in w.cells && w.cells[n].pc.Idle?
  }

  lemma OthersWait(w: World, l: Label, n: string)
    requires n in w.cells && w.cells[n].pc.Active? && !AnswersTo(l, n)
    ensures n in Apply(w, l).cells && Apply(w, l).cells[n].pc == w.cells[n].pc
  {
  }

  lemma AnswerBringsCloser(w: World, l: Label, n: string)
    requires n in w.cells && w.cells[n].pc.Active? && AnswersTo(l, n)
    ensures n in Apply(w, l).cells
    ensures var pc := Apply(w, l).cells[n].pc; pc.Active? ==> Closer(pc.at, w.cells[n].pc.at)
  {
    var c := w.cells[n];
    if l.act.Reply? {
      AdvanceCloser(w.cfg, w.now, c.pc.m, c.pc.obs, c.pc.at, Heard(w, c.pc.m, l.act.answer));
    }
  }

  /** Up to the next answer, at `j`, the reconcile stands where it stood at `i`. */
  lemma {:induction false} Waits(states: nat -> World, labels: nat -> Label, n: string, i: nat, j: nat)
    requires Endless(states, labels) && i <= j && n in states(i).cells && states(i).cells[n].pc.Active?
    requires forall k: nat | i <= k < j :: !AnswersTo(labels(k), n)
    ensures n in states(j).cells && states(j).cells[n].pc == states(i).cells[n].pc
  {
    if i < j {
      Waits(states, labels, n, i, j - 1);
      assert states(j - 1 + 1) == Apply(states(j - 1), labels(j - 1));
      OthersWait(states(j - 1), labels(j - 1), n);
    }
  }

  lemma {:induction false} NextAnswer(labels: nat -> Label, n: string, i: nat, j: nat) returns (k: nat)
    requires i <= j && AnswersTo(labels(j), n)
    ensures i <= k <= j && AnswersTo(labels(k), n) && forall x: nat | i <= x < k :: !AnswersTo(labels(x), n)
    decreases j - i
  {
    if AnswersTo(labels(i), n) {
      k := i;
    } else {
      k := NextAnswer(labels, n, i + 1, j);
    }
  }

  /** A reconcile whose calls keep being answered comes to rest, whatever the answers are, whatever
      happens in between, and however many peers it is told to try. */
  lemma {:induction false} EveryReconcileEnds(states: nat -> World, labels: nat -> Label, n: string, i: nat) returns (end: nat)
    requires Endless(states, labels) && KeepsAnswering(labels, n)
    requires n in states(i).cells && states(i).cells[n].pc.Active?
    ensures i < end && Resting(states(end), n)
    decreases Remaining(states(i).cells[n].pc.at), PeersLeft(states(i).cells[n].pc.at)
  {
    assert AnswerComes(labels, n, i);
    var j: nat :| i <= j && AnswersTo(labels(j), n);
    var k := NextAnswer(labels, n, i, j);
    Waits(states, labels, n, i, k);
    AnswerBringsCloser(states(k), labels(k), n);
    assert states(k + 1) == Apply(states(k), labels(k));
    if states(k + 1).cells[n].pc.Idle? {
      end := k + 1;
    } else {
      end := EveryReconcileEnds(states, labels, n, k + 1);
    }
  }
}

/** Go's `<` on strings, and the lexicographic orders the controllers build on it. */
module Ordering {
  predicate Less(a: string, b: string) {
    if b == "" then false
    else if a == "" then true
    else a[0] < b[0] || (a[0] == b[0] && Less(a[1..], b[1..]))
  }

  /** Up to `i` they agree, and there `a` ends or has the smaller character. */
  ghost predicate PrecedesAt(a: string, b: string, i: int) {
    0 <= i <= |a| && i < |b| && a[..i] == b[..i] && (i == |a| || a[i] < b[i])
  }

  ghost predicate Precedes(a: string, b: string) {
    exists i :: PrecedesAt(a, b, i)
  }

  /** The order is the lexicographic one. */
  lemma {:induction false} LessExactly(a: string, b: string)
    ensures Less(a, b) <==> Precedes(a, b)
  {
    if b != "" {
      if a == "" {
        assert PrecedesAt(a, b, 0);
      } else if a[0] < b[0] {
        assert PrecedesAt(a, b, 0);
      } else if a[0] == b[0] {
        LessExactly(a[1..], b[1..]);
        SharedFront(a, b);
      } else {
        forall i ensures !PrecedesAt(a, b, i) {
          assert 0 < i <= |a| && i < |b| ==> a[..i][0] != b[..i][0];
        }
      }
    }
  }

  lemma SharedFront(a: string, b: string)
    requires a != "" && b != "" && a[0] == b[0]
    ensures Precedes(a, b) <==> Precedes(a[1..], b[1..])
  {
    if Precedes(a, b) {
      var i :| PrecedesAt(a, b, i);
      assert a[1..][..i - 1] == a[..i][1..] && b[1..][..i - 1] == b[..i][1..];
      assert PrecedesAt(a[1..], b[1..], i - 1);
    }
    if Precedes(a[1..], b[1..]) {
      var i :| PrecedesAt(a[1..], b[1..], i);
      assert a[..i + 1] == [a[0]] + a[1..][..i] && b[..i + 1] == [b[0]] + b[1..][..i];
      assert PrecedesAt(a, b, i + 1);
    }
  }

  lemma {:induction false} LessTotal(a: string, b: string)
    ensures a == b || Less(a, b) || Less(b, a)
  {
    if a != "" && b != "" && a[0] == b[0] {
      LessTotal(a[1..], b[1..]);
      assert a == [a[0]] + a[1..] && b == [b[0]] + b[1..];
    }
  }

  lemma {:induction false} LessAsymmetric(a: string, b: string)
    ensures !(Less(a, b) && Less(b, a))
  {
    if a != "" && b != "" {
      LessAsymmetric(a[1..], b[1..]);
    }
  }

  lemma {:induction false} LessTransitive(a: string, b: string, c: string)
    requires Less(a, b) && Less(b, c)
    ensures Less(a, c)
  {
    if a != "" && a[0] == b[0] == c[0] {
      LessTransitive(a[1..], b[1..], c[1..]);
    }
  }

  /** Order by time, then by name: deletion order and age order are both this. */
  predicate Before(time1: int, name1: string, time2: int, name2: string) {
    time1 < time2 || (time1 == time2 && Less(name1, name2))
  }

  lemma BeforeTotal(t1: int, n1: string, t2: int, n2: string)
    ensures n1 == n2 || Before(t1, n1, t2, n2) || Before(t2, n2, t1, n1)
  {
    LessTotal(n1, n2);
  }

  lemma BeforeAsymmetric(t1: int, n1: string, t2: int, n2: string)
    ensures !(Before(t1, n1, t2, n2) && Before(t2, n2, t1, n1))
  {
    LessAsymmetric(n1, n2);
  }

  lemma BeforeTransitive(t1: int, n1: string, t2: int, n2: string, t3: int, n3: string)
    requires Before(t1, n1, t2, n2) && Before(t2, n2, t3, n3)
    ensures Before(t1, n1, t3, n3)
  {
    if t1 == t2 == t3 {
      LessTransitive(n1, n2, n3);
    }
  }
}

/** The string operations of the Go standard library the controllers lean on, over ASCII. */
module Text {
  function LowerChar(c: char): char {
    if 'A' <= c <= 'Z' then (c as int + 32) as char else c
  }

  function Lower(s: string): (r: string)
    ensures |r| == |s| && forall i | 0 <= i < |s| :: r[i] == LowerChar(s[i])
  {
    seq(|s|, i requires 0 <= i < |s| => LowerChar(s[i]))
  }

  /** The same letter in either case, or the same character. */
  ghost predicate SameLetter(c: char, d: char) {
    || c == d
    || ('A' <= c <= 'Z' && d as int == c as int + 32)
    || ('A' <= d <= 'Z' && c as int == d as int + 32)
  }

  ghost predicate SameLetters(a: string, b: string) {
    |a| == |b| && forall i | 0 <= i < |a| :: SameLetter(a[i], b[i])
  }

  /** Lowering leaves no upper-case letter, and makes two texts equal exactly when they differ in case
      only. */
  lemma LowerExactly(a: string, b: string)
    ensures forall i | 0 <= i < |a| :: SameLetter(a[i], Lower(a)[i]) && !('A' <= Lower(a)[i] <= 'Z')
    ensures Lower(a) == Lower(b) <==> SameLetters(a, b)
  {
    forall i | 0 <= i < |a| && i < |b| ensures SameLetter(a[i], b[i]) <==> Lower(a)[i] == Lower(b)[i] {
      assert Lower(a)[i] == LowerChar(a[i]) && Lower(b)[i] == LowerChar(b[i]);
    }
  }

  /** `h` is what stands before the first `c` of `s`, or all of it. */
  ghost predicate Leads(s: string, c: char, h: string) {
    c !in h && (s == h || exists rest :: s == h + [c] + rest)
  }

  lemma HeadLeads(s: string, c: char, h: string)
    ensures Leads(s, c, h) <==> h == Head(s, c)
  {
    if Leads(s, c, h) && s != h {
      var rest :| s == h + [c] + rest;
      CutGlued(h, c, rest);
    }
    if Found(s, c) {
      GlueCut(s, c);
    }
  }

  /** Position of the first `c` in `s`, or `|s|`. */
  function Index(s: string, c: char): (i: nat)
    ensures i <= |s|
    ensures forall j | 0 <= j < i :: s[j] != c
    ensures i < |s| ==> s[i] == c
  {
    if s == "" || s[0] == c then 0 else 1 + Index(s[1..], c)
  }

  /** `strings.Cut`: found, and what stands before and after the first `c`. */
  function Found(s: string, c: char): bool {
    Index(s, c) < |s|
  }

  function Head(s: string, c: char): string {
    s[..Index(s, c)]
  }

  function Tail(s: string, c: char): string {
    if Found(s, c) then s[Index(s, c) + 1..] else ""
  }

  /** Cutting a text glued together at a `c` gives the parts back. */
  lemma CutGlued(a: string, c: char, b: string)
    requires c !in a
    ensures Found(a + [c] + b, c) && Head(a + [c] + b, c) == a && Tail(a + [c] + b, c) == b
  {
    var s := a + [c] + b;
    assert s[|a|] == c;
    assert forall j | 0 <= j < |a| :: s[j] == a[j];
    assert Index(s, c) == |a|;
  }

  lemma GlueCut(s: string, c: char)
    requires Found(s, c)
    ensures s == Head(s, c) + [c] + Tail(s, c) && c !in Head(s, c)
  {
  }

  /** `strings.Split` at a character. */
  function Split(s: string, c: char): (parts: seq<string>)
    ensures parts != []
    decreases |s|
  {
    if Found(s, c) then [Head(s, c)] + Split(Tail(s, c), c) else [s]
  }

  function Join(parts: seq<string>, c: char): string {
    if parts == [] then ""
    else if |parts| == 1 then parts[0]
    else parts[0] + [c] + Join(parts[1..], c)
  }

  /** Splitting undoes joining, for parts free of the separator. */
  lemma {:induction false} SplitJoin(parts: seq<string>, c: char)
    requires parts != [] && forall p | p in parts :: c !in p
    ensures Split(Join(parts, c), c) == parts
  {
    if |parts| == 1 {
      assert parts == [parts[0]];
      assert parts[0] in parts;
    } else {
      assert parts[0] in parts;
      CutGlued(parts[0], c, Join(parts[1..], c));
      assert forall p | p in parts[1..] :: p in parts;
      SplitJoin(parts[1..], c);
      assert parts == [parts[0]] + parts[1..];
    }
  }

  /** Joining undoes splitting, for every text. */
  lemma {:induction false} JoinSplit(s: string, c: char)
    ensures Join(Split(s, c), c) == s
    ensures forall p | p in Split(s, c) :: c !in p
    decreases |s|
  {
    if Found(s, c) {
      GlueCut(s, c);
      JoinSplit(Tail(s, c), c);
      assert Split(s, c)[1..] == Split(Tail(s, c), c);
    }
  }
}

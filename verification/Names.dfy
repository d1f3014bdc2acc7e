/** Resource names: `SanitizeName` and `ResourceName` (internal/sync/names.go:52-90). */
module Names {
  import opened Text

  const LABEL_LIMIT: nat := 63

  predicate IsAlnum(c: char) {
    'a' <= c <= 'z' || '0' <= c <= '9'
  }

  /** A label of section 2.1 of RFC 1123, within the limit of section 2.3.4 of RFC 1035. */
  predicate ValidLabel(s: string) {
    && 0 < |s| <= LABEL_LIMIT
    && (forall i | 0 <= i < |s| :: IsAlnum(s[i]) || s[i] == '-')
    && IsAlnum(s[0]) && IsAlnum(s[|s| - 1])
  }

  // ------------------------------------------------------- the pipeline, declaratively

  function Dashed(s: string): (r: string)
    ensures |r| == |s| && forall i | 0 <= i < |s| :: r[i] == if IsAlnum(s[i]) then s[i] else '-'
  {
    seq(|s|, i requires 0 <= i < |s| => if IsAlnum(s[i]) then s[i] else '-')
  }

  /** Runs of dashes become one. */
  function Collapse(s: string): string {
    if s == "" then ""
    else
      var r, c := Collapse(s[..|s| - 1]), s[|s| - 1];
      if c == '-' && r != "" && r[|r| - 1] == '-' then r else r + [c]
  }

  function TrimLeft(s: string): string {
    if s != "" && s[0] == '-' then TrimLeft(s[1..]) else s
  }

  function TrimRight(s: string): string {
    if s != "" && s[|s| - 1] == '-' then TrimRight(s[..|s| - 1]) else s
  }

  function Truncate(s: string): string {
    if |s| > LABEL_LIMIT then s[..LABEL_LIMIT] else s
  }

  /** Lower, replace, collapse, trim, truncate, trim. */
  function Sanitized(s: string): string {
    TrimRight(Truncate(TrimRight(TrimLeft(Collapse(Dashed(Lower(s)))))))
  }

  // --------------------------------------------------------------- what it yields

  ghost predicate Clean(s: string) {
    && (forall i | 0 <= i < |s| :: IsAlnum(s[i]) || s[i] == '-')
    && (forall i | 0 < i < |s| :: !(s[i - 1] == '-' && s[i] == '-'))
  }

  ghost predicate HasAlnum(s: string) {
    exists i :: 0 <= i < |s| && IsAlnum(s[i])
  }

  lemma HasAlnumAppend(s: string, c: char)
    ensures HasAlnum(s + [c]) <==> HasAlnum(s) || IsAlnum(c)
  {
    var t := s + [c];
    assert t[|s|] == c;
    assert forall i | 0 <= i < |s| :: t[i] == s[i];
  }

  lemma {:induction false} CollapseClean(s: string)
    requires forall i | 0 <= i < |s| :: IsAlnum(s[i]) || s[i] == '-'
    ensures Clean(Collapse(s)) && (HasAlnum(Collapse(s)) <==> HasAlnum(s))
  {
    if s != "" {
      var front, c := s[..|s| - 1], s[|s| - 1];
      CollapseClean(front);
      assert s == front + [c];
      HasAlnumAppend(front, c);
      HasAlnumAppend(Collapse(front), c);
    }
  }

  lemma {:induction false} TrimLeftSpec(s: string)
    ensures exists k :: 0 <= k <= |s| && TrimLeft(s) == s[k..] && forall i | 0 <= i < k :: s[i] == '-'
    ensures TrimLeft(s) != "" ==> TrimLeft(s)[0] != '-'
  {
    if s != "" && s[0] == '-' {
      TrimLeftSpec(s[1..]);
      var k :| 0 <= k <= |s[1..]| && TrimLeft(s[1..]) == s[1..][k..] && forall i | 0 <= i < k :: s[1..][i] == '-';
      assert s[1..][k..] == s[k + 1..];
      assert forall i | 0 <= i < k + 1 :: s[i] == '-';
    } else {
      assert s[0..] == s;
    }
  }

  lemma {:induction false} TrimRightSpec(s: string)
    ensures exists k :: 0 <= k <= |s| && TrimRight(s) == s[..k] && forall i | k <= i < |s| :: s[i] == '-'
    ensures TrimRight(s) != "" ==> TrimRight(s)[|TrimRight(s)| - 1] != '-'
  {
    if s != "" && s[|s| - 1] == '-' {
      var front := s[..|s| - 1];
      TrimRightSpec(front);
      var k :| 0 <= k <= |front| && TrimRight(front) == front[..k] && forall i | k <= i < |front| :: front[i] == '-';
      assert front[..k] == s[..k];
    } else {
      assert s[..|s|] == s;
    }
  }

  /** Clean text trimmed, cut and trimmed again is "" or a label. */
  lemma TrimmedIsLabel(s: string)
    requires Clean(s) && (s != "" ==> IsAlnum(s[0]))
    ensures var r := TrimRight(Truncate(TrimRight(s)));
            Clean(r) && (r == "" <==> s == "") && (r != "" ==> ValidLabel(r))
  {
    TrimRightSpec(s);
    var t := TrimRight(s);
    TrimRightSpec(Truncate(t));
  }

  /** In clean text, trimming leaves something exactly when there is a letter or digit. */
  lemma TrimLeftLeaves(s: string)
    requires Clean(s)
    ensures Clean(TrimLeft(s)) && (TrimLeft(s) != "" <==> HasAlnum(s))
    ensures TrimLeft(s) != "" ==> IsAlnum(TrimLeft(s)[0])
  {
    TrimLeftSpec(s);
    var k :| 0 <= k <= |s| && TrimLeft(s) == s[k..] && forall i | 0 <= i < k :: s[i] == '-';
    if k < |s| {
      assert TrimLeft(s)[0] == s[k];
    }
  }

  /** `SanitizeName` yields "" or a valid label, and "" only when no letter or digit is there. */
  lemma SanitizedIsLabel(s: string)
    ensures Sanitized(s) == "" || ValidLabel(Sanitized(s))
    ensures Clean(Sanitized(s))
    ensures Sanitized(s) == "" <==> !HasAlnum(Lower(s))
  {
    var d := Dashed(Lower(s));
    assert HasAlnum(d) <==> HasAlnum(Lower(s)) by {
      assert forall i | 0 <= i < |d| :: IsAlnum(d[i]) <==> IsAlnum(Lower(s)[i]);
    }
    CollapseClean(d);
    TrimLeftLeaves(Collapse(d));
    TrimmedIsLabel(TrimLeft(Collapse(d)));
  }

  lemma {:induction false} CollapseFixed(s: string)
    requires Clean(s)
    ensures Collapse(s) == s
  {
    if s != "" {
      CollapseFixed(s[..|s| - 1]);
    }
  }

  /** Sanitizing a clean label changes nothing, so sanitizing twice is sanitizing once. */
  lemma SanitizeIdempotent(s: string)
    ensures Sanitized(Sanitized(s)) == Sanitized(s)
  {
    SanitizedIsLabel(s);
    var r := Sanitized(s);
    assert Dashed(Lower(r)) == r;
    CollapseFixed(r);
  }

  // ------------------------------------------------------------------- the one-pass loop

  lemma {:induction false} TrimLeftAppend(s: string, c: char)
    ensures TrimLeft(s + [c]) == if TrimLeft(s) == "" && c == '-' then "" else TrimLeft(s) + [c]
  {
    if s != "" && s[0] == '-' {
      assert (s + [c])[1..] == s[1..] + [c];
      TrimLeftAppend(s[1..], c);
    }
  }

  lemma CollapseAppend(s: string, c: char)
    ensures Collapse(s + [c]) == if c == '-' && Collapse(s) != "" && Collapse(s)[|Collapse(s)| - 1] == '-'
                                 then Collapse(s) else Collapse(s) + [c]
  {
    assert (s + [c])[..|s + [c]| - 1] == s;
  }

  /** What the builder holds after the characters `s`. */
  function Built(s: string): string {
    TrimLeft(Collapse(Dashed(s)))
  }

  lemma BuiltAppend(s: string, c: char)
    ensures Built(s + [c]) ==
            if IsAlnum(c) then Built(s) + [c]
            else if Built(s) == "" || Built(s)[|Built(s)| - 1] == '-' then Built(s)
            else Built(s) + ['-']
  {
    var d := if IsAlnum(c) then c else '-';
    assert Dashed(s + [c]) == Dashed(s) + [d];
    CollapseAppend(Dashed(s), d);
    var r := Collapse(Dashed(s));
    TrimLeftAppend(r, d);
    TrimLeftEnds(r);
  }

  lemma {:induction false} TrimLeftEnds(s: string)
    ensures TrimLeft(s) != "" ==> s != "" && TrimLeft(s)[|TrimLeft(s)| - 1] == s[|s| - 1]
    ensures TrimLeft(s) == "" && s != "" ==> s[|s| - 1] == '-'
  {
    if s != "" && s[0] == '-' {
      TrimLeftEnds(s[1..]);
    }
  }

  /** `SanitizeName`: one pass with a builder and a flag equals the pipeline. */
  method SanitizeName(s: string) returns (out: string)
    ensures out == Sanitized(s)
  {
    var b := "";
    var lastDash := true;
    var lower := Lower(s);
    var i := 0;
    while i < |lower|
      invariant 0 <= i <= |lower|
      invariant b == Built(lower[..i])
      invariant lastDash <==> b == "" || b[|b| - 1] == '-'
    {
      var r := lower[i];
      BuiltAppend(lower[..i], r);
      assert lower[..i + 1] == lower[..i] + [r];
      if IsAlnum(r) {
        b := b + [r];
        lastDash := false;
      } else if !lastDash {
        b := b + ['-'];
        lastDash := true;
      }
      i := i + 1;
    }
    assert lower[..i] == lower;
    out := TrimRight(b);
    TrimRightSpec(b);
    if |out| > LABEL_LIMIT {
      out := TrimRight(out[..LABEL_LIMIT]);
    }
  }

  // ----------------------------------------------------- words, and what is between them

  ghost predicate Word(w: string) {
    w != "" && forall i | 0 <= i < |w| :: 'a' <= w[i] <= 'z' || '0' <= w[i] <= '9'
  }

  ghost predicate Gap(g: string) {
    forall i | 0 <= i < |g| :: !('a' <= g[i] <= 'z') && !('0' <= g[i] <= '9')
  }

  /** Words with gaps before, between and after them. */
  ghost function Weave(gaps: seq<string>, words: seq<string>): string
    requires |gaps| == |words| + 1
  {
    var n := |words|;
    if n == 0 then gaps[0] else Weave(gaps[..n], words[..n - 1]) + words[n - 1] + gaps[n]
  }

  ghost predicate Proper(gaps: seq<string>, words: seq<string>) {
    && |gaps| == |words| + 1
    && (forall w | w in words :: Word(w)) && (forall g | g in gaps :: Gap(g))
    && (forall i | 0 < i < |words| :: gaps[i] != "")
  }

  lemma {:induction false} BuiltWord(s: string, w: string)
    requires forall i | 0 <= i < |w| :: IsAlnum(w[i])
    ensures Built(s + w) == Built(s) + w
  {
    if w == "" {
      assert s + w == s;
    } else {
      var front, c := w[..|w| - 1], w[|w| - 1];
      BuiltWord(s, front);
      BuiltAppend(s + front, c);
      assert s + w == s + front + [c];
    }
  }

  lemma {:induction false} BuiltGap(s: string, g: string)
    requires Gap(g)
    ensures Built(s + g) == if g == "" || Built(s) == "" || Built(s)[|Built(s)| - 1] == '-' then Built(s) else Built(s) + "-"
  {
    if g == "" {
      assert s + g == s;
    } else {
      var front, c := g[..|g| - 1], g[|g| - 1];
      BuiltGap(s, front);
      BuiltAppend(s + front, c);
      assert s + g == s + front + [c];
    }
  }

  lemma {:induction false} JoinSnoc(words: seq<string>, w: string, c: char)
    ensures Join(words + [w], c) == if words == [] then w else Join(words, c) + [c] + w
  {
    if words != [] {
      assert (words + [w])[1..] == words[1..] + [w];
      JoinSnoc(words[1..], w, c);
      if |words| == 1 {
        assert words[1..] == [];
      }
    }
  }

  /** Joined words end in a letter or digit. */
  lemma JoinEnds(words: seq<string>)
    requires words != [] && forall w | w in words :: Word(w)
    ensures var j := Join(words, '-'); j != "" && IsAlnum(j[|j| - 1])
  {
    var n := |words|;
    assert words == words[..n - 1] + [words[n - 1]] && words[n - 1] in words;
    JoinSnoc(words[..n - 1], words[n - 1], '-');
  }

  lemma {:induction false} BuiltWeave(gaps: seq<string>, words: seq<string>)
    requires Proper(gaps, words)
    ensures var n := |words|;
            Built(Weave(gaps, words)) == Join(words, '-') + if n > 0 && gaps[n] != "" then "-" else ""
  {
    var n := |words|;
    if n == 0 {
      assert gaps[0] in gaps;
      BuiltGap("", gaps[0]);
      assert "" + gaps[0] == gaps[0];
    } else {
      var front, w, g := words[..n - 1], words[n - 1], gaps[n];
      assert Proper(gaps[..n], front);
      BuiltWeave(gaps[..n], front);
      assert w in words && g in gaps && words == front + [w];
      assert n > 1 ==> gaps[..n][n - 1] != "";
      BuiltNext(Weave(gaps[..n], front), front, w, g);
    }
  }

  lemma BuiltNext(before: string, front: seq<string>, w: string, g: string)
    requires Built(before) == Join(front, '-') + (if front != [] then "-" else "")
    requires (forall x | x in front :: Word(x)) && Word(w) && Gap(g)
    ensures Built(before + w + g) == Join(front + [w], '-') + (if g != "" then "-" else "")
  {
    var j := Join(front + [w], '-');
    BuiltWord(before, w);
    JoinSnoc(front, w, '-');
    assert Built(before + w) == j;
    assert forall x | x in front + [w] :: Word(x);
    JoinEnds(front + [w]);
    BuiltGap(before + w, g);
  }

  /** What a name becomes: its words in lower case, joined by single dashes, cut after 63 characters and
      not left with a dash at the end. */
  lemma SanitizedWords(s: string, gaps: seq<string>, words: seq<string>)
    requires Proper(gaps, words) && Lower(s) == Weave(gaps, words)
    ensures var j := Join(words, '-');
            Sanitized(s) == if |j| <= 63 then j else if j[62] == '-' then j[..62] else j[..63]
  {
    var j, n := Join(words, '-'), |words|;
    BuiltWeave(gaps, words);
    if n > 0 {
      JoinEnds(words);
    }
    assert TrimRight(Built(Lower(s))) == j by {
      if n > 0 && gaps[n] != "" {
        assert (j + "-")[..|j|] == j;
      }
    }
    if |j| > 63 {
      CleanBuilt(s, j);
      CutClean(j);
    }
  }

  lemma CutClean(j: string)
    requires |j| > 63 && Clean(j)
    ensures TrimRight(j[..63]) == if j[62] == '-' then j[..62] else j[..63]
  {
    var t := j[..63];
    if t[62] == '-' {
      assert t[..|t| - 1] == j[..62];
      assert j[62 - 1] != '-' && j[..62][61] == j[61];
      assert TrimRight(j[..62]) == j[..62];
    }
  }

  lemma CleanBuilt(s: string, j: string)
    requires j == TrimRight(Built(Lower(s)))
    ensures Clean(j)
  {
    var d := Dashed(Lower(s));
    CollapseClean(d);
    TrimLeftSpec(Collapse(d));
    TrimRightSpec(Built(Lower(s)));
  }

  /** Every text is words with gaps around them. */
  lemma {:induction false} EveryTextWeaves(s: string) returns (gaps: seq<string>, words: seq<string>)
    ensures Proper(gaps, words) && Weave(gaps, words) == s
  {
    if s == "" {
      gaps, words := [""], [];
    } else {
      var front, c := s[..|s| - 1], s[|s| - 1];
      gaps, words := EveryTextWeaves(front);
      var n := |words|;
      if !IsAlnum(c) {
        gaps := GrowGap(gaps, words, c);
      } else if n > 0 && gaps[n] == "" {
        words := GrowWord(gaps, words, c);
      } else {
        gaps, words := NewWord(gaps, words, c);
      }
    }
  }

  lemma GrowGap(gaps: seq<string>, words: seq<string>, c: char) returns (gaps': seq<string>)
    requires Proper(gaps, words) && !IsAlnum(c)
    ensures Proper(gaps', words) && Weave(gaps', words) == Weave(gaps, words) + [c]
  {
    var n := |words|;
    gaps' := gaps[n := gaps[n] + [c]];
    assert gaps[n] in gaps;
    forall g | g in gaps' ensures Gap(g) {
      assert g in gaps || g == gaps[n] + [c];
    }
    if n > 0 {
      assert gaps'[..n] == gaps[..n];
    }
  }

  lemma GrowWord(gaps: seq<string>, words: seq<string>, c: char) returns (words': seq<string>)
    requires Proper(gaps, words) && IsAlnum(c) && |words| > 0 && gaps[|words|] == ""
    ensures Proper(gaps, words') && Weave(gaps, words') == Weave(gaps, words) + [c]
  {
    var n := |words|;
    words' := words[n - 1 := words[n - 1] + [c]];
    assert words[n - 1] in words;
    forall w | w in words' ensures Word(w) {
      assert w in words || w == words[n - 1] + [c];
    }
    assert words'[..n - 1] == words[..n - 1];
  }

  lemma NewWord(gaps: seq<string>, words: seq<string>, c: char) returns (gaps': seq<string>, words': seq<string>)
    requires Proper(gaps, words) && IsAlnum(c) && (|words| > 0 ==> gaps[|words|] != "")
    ensures Proper(gaps', words') && Weave(gaps', words') == Weave(gaps, words) + [c]
  {
    var n := |words|;
    gaps', words' := gaps + [""], words + [[c]];
    assert gaps'[..n + 1] == gaps && words'[..n] == words;
  }

  // ----------------------------------------------------------------------- endpoints

  datatype Endpoint = Endpoint(instance: string, service: string, hostname: string, ip: string, port: int)

  function DashedAddress(ip: string): string {
    seq(|ip|, i requires 0 <= i < |ip| => if ip[i] == '.' || ip[i] == ':' then '-' else ip[i])
  }

  function ResourceName(ep: Endpoint): string {
    var host, instance := Sanitized(Head(ep.hostname, '.')), Sanitized(ep.instance);
    if host != "" then host
    else if instance != "" then instance
    else "bmc-" + Sanitized(DashedAddress(ep.ip))
  }

  lemma AddressSurvives(ip: string)
    ensures Sanitized(DashedAddress(ip)) != "" <==> HasAlnum(Lower(ip))
  {
    var d := DashedAddress(ip);
    SanitizedIsLabel(d);
    assert forall i | 0 <= i < |ip| :: IsAlnum(Lower(d)[i]) <==> IsAlnum(Lower(ip)[i]);
  }

  /** The endpoint is named by the part of its hostname before the first dot if that holds a letter or
      digit, else by its instance if that does, else by its address. */
  lemma ResourceNameSpec(ep: Endpoint, host: string)
    requires Leads(ep.hostname, '.', host)
    ensures HasAlnum(Lower(host)) ==> ResourceName(ep) == Sanitized(host)
    ensures !HasAlnum(Lower(host)) && HasAlnum(Lower(ep.instance)) ==> ResourceName(ep) == Sanitized(ep.instance)
    ensures !HasAlnum(Lower(host)) && !HasAlnum(Lower(ep.instance)) ==> ResourceName(ep) == "bmc-" + Sanitized(ep.ip)
  {
    HeadLeads(ep.hostname, '.', host);
    SanitizedIsLabel(host);
    SanitizedIsLabel(ep.instance);
    assert Dashed(Lower(DashedAddress(ep.ip))) == Dashed(Lower(ep.ip));
  }

  /** The name of an endpoint is a valid label exactly when its hostname, its instance or its
      address holds a letter or digit.  (No address prints to more than 45 characters.) */
  lemma ResourceNameIsLabel(ep: Endpoint)
    ensures |ep.ip| <= LABEL_LIMIT - 4 ==>
              (ValidLabel(ResourceName(ep)) <==>
                 HasAlnum(Lower(Head(ep.hostname, '.'))) || HasAlnum(Lower(ep.instance)) || HasAlnum(Lower(ep.ip)))
  {
    SanitizedShorter(DashedAddress(ep.ip));
    SanitizedIsLabel(Head(ep.hostname, '.'));
    SanitizedIsLabel(ep.instance);
    var a := Sanitized(DashedAddress(ep.ip));
    SanitizedIsLabel(DashedAddress(ep.ip));
    AddressSurvives(ep.ip);
    var name := "bmc-" + a;
    if a == "" {
      assert name[|name| - 1] == '-';
    } else {
      assert name[|name| - 1] == a[|a| - 1] && name[0] == 'b';
      assert forall i | 0 <= i < |name| :: name[i] == if i < 4 then "bmc-"[i] else a[i - 4];
    }
  }

  /** An unspecified IPv6 address with nothing else to go by yields `bmc-`, which is no label. */
  lemma UnspecifiedAddress()
    ensures var ep := Endpoint("", "_redfish._tcp", "", "::", 443);
            ResourceName(ep) == "bmc-" && !ValidLabel(ResourceName(ep))
  {
    var ep := Endpoint("", "_redfish._tcp", "", "::", 443);
    SanitizedIsLabel("");
    SanitizedIsLabel(DashedAddress("::"));
    assert Head(ep.hostname, '.') == "";
    assert DashedAddress("::") == "--";
  }

  /** Collapsing and trimming never lengthen. */
  lemma {:induction false} CollapseShorter(s: string)
    ensures |Collapse(s)| <= |s|
  {
    if s != "" {
      CollapseShorter(s[..|s| - 1]);
    }
  }

  lemma SanitizedShorter(s: string)
    ensures |Sanitized(s)| <= |s|
  {
    var d := Dashed(Lower(s));
    CollapseShorter(d);
    TrimLeftSpec(Collapse(d));
    var t := TrimLeft(Collapse(d));
    TrimRightSpec(t);
    TrimRightSpec(Truncate(TrimRight(t)));
  }

  function Decimal(n: nat): (s: string)
    ensures s != "" && '0' <= s[0] <= '9'
    ensures n < 1000 ==> |s| <= 3
    ensures n < 100 ==> |s| <= 2
    ensures n < 10 ==> |s| == 1
  {
    if n < 10 then [(n + '0' as int) as char] else Decimal(n / 10) + [(n % 10 + '0' as int) as char]
  }

  function DottedDecimal(a: nat, b: nat, c: nat, d: nat): string {
    Decimal(a) + "." + Decimal(b) + "." + Decimal(c) + "." + Decimal(d)
  }

  /** Every IPv4 endpoint has a valid label for a name, whatever its hostname and instance. */
  lemma IPv4NameIsLabel(ep: Endpoint, a: nat, b: nat, c: nat, d: nat)
    requires a < 256 && b < 256 && c < 256 && d < 256 && ep.ip == DottedDecimal(a, b, c, d)
    ensures ValidLabel(ResourceName(ep))
  {
    assert ep.ip[0] == Decimal(a)[0] && |ep.ip| <= 15;
    assert IsAlnum(Lower(ep.ip)[0]);
    SanitizedShorter(DashedAddress(ep.ip));
    ResourceNameIsLabel(ep);
  }
}

/** Name templates: `TemplateName` (internal/sync/names.go:14-50) and the name `Sync` picks
    (internal/sync/syncer.go:52-59). */
module Template {
  import opened Text
  import opened Names
  import opened Wrappers
  import opened Inventory

  datatype Token = Lit(c: char) | Ref(name: string)

  predicate IsVarChar(c: char) {
    'a' <= c <= 'z' || c == '_'
  }

  /** The longest prefix of variable characters. */
  function VarRun(s: string): (r: string)
    ensures r <= s && (forall i | 0 <= i < |r| :: IsVarChar(r[i])) && (|r| < |s| ==> !IsVarChar(s[|r|]))
  {
    if s == "" || !IsVarChar(s[0]) then "" else [s[0]] + VarRun(s[1..])
  }

  /** The reference `${name}` that starts at the front of `s`. */
  function MatchRef(s: string): (r: Option<string>)
    ensures r.Some? ==> r.value != "" && |r.value| + 3 <= |s| && s[..|r.value| + 3] == "${" + r.value + "}"
  {
    if |s| >= 2 && s[0] == '$' && s[1] == '{' then
      var name := VarRun(s[2..]);
      if name != "" && |name| + 2 < |s| && s[|name| + 2] == '}' then
        assert s[2..|name| + 2] == name;
        Some(name)
      else None
    else None
  }

  /** Exactly `${`, letters `a` to `z` or underscores, at least one, and `}` are a reference. */
  lemma RefExactly(s: string, name: string)
    ensures MatchRef(s) == Some(name)
            <==> && name != "" && (forall i | 0 <= i < |name| :: 'a' <= name[i] <= 'z' || name[i] == '_')
                 && |name| + 3 <= |s| && s[..|name| + 3] == "${" + name + "}"
  {
    var ref := "${" + name + "}";
    if name != "" && (forall i | 0 <= i < |name| :: IsVarChar(name[i])) && |name| + 3 <= |s| && s[..|ref|] == ref {
      assert s[0] == ref[0] && s[1] == ref[1] && s[|name| + 2] == ref[|name| + 2];
      assert forall i | 0 <= i < |name| :: s[2..][i] == ref[i + 2] == name[i];
      RunExactly(s[2..], name);
    }
  }

  lemma {:induction false} RunExactly(s: string, name: string)
    requires |name| < |s| && s[..|name|] == name && (forall i | 0 <= i < |name| :: IsVarChar(name[i])) && !IsVarChar(s[|name|])
    ensures VarRun(s) == name
  {
    if name != "" {
      assert s[0] == name[0];
      assert s[1..][..|name| - 1] == name[1..];
      RunExactly(s[1..], name[1..]);
    }
  }

  /** One pass from the left, references first. */
  function Tokens(s: string): seq<Token>
    decreases |s|
  {
    if s == "" then []
    else match MatchRef(s)
      case Some(name) => [Ref(name)] + Tokens(s[|name| + 3..])
      case None => [Lit(s[0])] + Tokens(s[1..])
  }

  function Source(t: Token): string {
    match t case Lit(c) => [c] case Ref(name) => "${" + name + "}"
  }

  function SourceAll(ts: seq<Token>): string {
    if ts == [] then "" else Source(ts[0]) + SourceAll(ts[1..])
  }

  /** Nothing of the template is lost or invented. */
  lemma {:induction false} TokensCover(s: string)
    ensures SourceAll(Tokens(s)) == s
    decreases |s|
  {
    if s != "" {
      match MatchRef(s)
      case Some(name) =>
        TokensCover(s[|name| + 3..]);
        assert s == s[..|name| + 3] + s[|name| + 3..];
        assert Tokens(s)[1..] == Tokens(s[|name| + 3..]);
      case None =>
        TokensCover(s[1..]);
        assert s == [s[0]] + s[1..];
        assert Tokens(s)[1..] == Tokens(s[1..]);
    }
  }

  /** No reference starts inside another. */
  lemma RefsDoNotOverlap(s: string, i: nat)
    requires MatchRef(s).Some? && 0 < i < |MatchRef(s).value| + 3
    ensures MatchRef(s[i..]).None?
  {
    var text := "${" + MatchRef(s).value + "}";
    assert s[i] == s[..|text|][i] == text[i];
    assert text[i] != '$';
  }

  /** How much of the template the first token takes. */
  function FirstWidth(s: string): (n: nat)
    requires s != ""
    ensures 0 < n <= |s|
  {
    match MatchRef(s) case Some(name) => |name| + 3 case None => 1
  }

  lemma FirstToken(s: string)
    requires s != ""
    ensures Tokens(s) != [] && Tokens(s)[1..] == Tokens(s[FirstWidth(s)..]) && |Source(Tokens(s)[0])| == FirstWidth(s)
    ensures MatchRef(s).Some? ==> Tokens(s)[0] == Ref(MatchRef(s).value)
  {
  }

  /** `name` is read as a reference at position `i` of what the tokens cover. */
  ghost predicate RefAt(ts: seq<Token>, i: nat, name: string) {
    exists k :: 0 <= k < |ts| && ts[k] == Ref(name) && |SourceAll(ts[..k])| == i
  }

  lemma RefAtLater(ts: seq<Token>, i: nat, name: string)
    requires ts != [] && RefAt(ts[1..], i, name)
    ensures RefAt(ts, |Source(ts[0])| + i, name)
  {
    var rest := ts[1..];
    var k :| 0 <= k < |rest| && rest[k] == Ref(name) && |SourceAll(rest[..k])| == i;
    assert ts[..k + 1][1..] == rest[..k];
    assert ts[k + 1] == Ref(name);
  }

  /** Every place where a reference can be read is one of the tokens: none is missed. */
  lemma {:induction false} TokensComplete(s: string, i: nat)
    requires i < |s| && MatchRef(s[i..]).Some?
    ensures RefAt(Tokens(s), i, MatchRef(s[i..]).value)
    decreases |s|
  {
    FirstToken(s);
    if i == 0 {
      assert s[0..] == s;
      assert Tokens(s)[..0] == [];
    } else {
      var n := FirstWidth(s);
      if i < n {
        RefsDoNotOverlap(s, i);
      }
      assert s[n..][i - n..] == s[i..];
      TokensComplete(s[n..], i - n);
      RefAtLater(Tokens(s), i - n, MatchRef(s[i..]).value);
    }
  }

  // ----------------------------------------------------------------------- rendering

  function Without(s: string, c: char): string {
    if s == "" then "" else (if s[0] == c then "" else [s[0]]) + Without(s[1..], c)
  }

  function Swap(s: string, c: char, d: char): string {
    seq(|s|, i requires 0 <= i < |s| => if s[i] == c then d else s[i])
  }

  function Vars(ep: Endpoint, dev: Device): map<string, string> {
    map["mac" := Without(PrimaryMac(dev), ':'),
        "mac_dashes" := Swap(PrimaryMac(dev), ':', '-'),
        "hostname" := Head(ep.hostname, '.'),
        "instance" := ep.instance,
        "serial" := dev.serial,
        "ip" := DashedAddress(ep.ip)]
  }

  function Concat(parts: seq<string>): string {
    if parts == [] then "" else parts[0] + Concat(parts[1..])
  }

  lemma {:induction false} WithoutFree(a: string, b: string, c: char)
    requires c !in a
    ensures Without(a + b, c) == a + Without(b, c)
  {
    if a != "" {
      assert (a + b)[1..] == a[1..] + b;
      WithoutFree(a[1..], b, c);
    } else {
      assert a + b == b;
    }
  }

  lemma {:induction false} WithoutJoin(parts: seq<string>, c: char)
    requires forall p | p in parts :: c !in p
    ensures Without(Join(parts, c), c) == Concat(parts)
  {
    if |parts| == 1 {
      WithoutFree(parts[0], "", c);
      assert parts[0] + "" == parts[0] && Concat(parts[1..]) == "";
    } else if |parts| > 1 {
      var rest := Join(parts[1..], c);
      WithoutFree(parts[0], [c] + rest, c);
      assert ([c] + rest)[1..] == rest && parts[0] + [c] + rest == parts[0] + ([c] + rest);
      assert forall p | p in parts[1..] :: p in parts;
      WithoutJoin(parts[1..], c);
    }
  }

  lemma {:induction false} SwapJoin(parts: seq<string>, c: char, d: char)
    requires forall p | p in parts :: c !in p
    ensures Swap(Join(parts, c), c, d) == Join(parts, d)
  {
    if |parts| > 1 {
      assert forall p | p in parts[1..] :: p in parts;
      SwapJoin(parts[1..], c, d);
      var p, rest := parts[0], Join(parts[1..], c);
      assert p in parts && Swap(p, c, d) == p;
      assert Swap(p + [c] + rest, c, d) == Swap(p, c, d) + [d] + Swap(rest, c, d);
    } else if |parts| == 1 {
      assert parts[0] in parts;
    }
  }

  /** The six variables: the primary MAC without its colons and with dashes for them, what stands before
      the first dot of the hostname, the instance, the serial number, and the address with dashes for
      its dots and colons. */
  lemma VarsExactly(ep: Endpoint, dev: Device, pairs: seq<string>)
    requires PrimaryMac(dev) == Join(pairs, ':') && forall p | p in pairs :: ':' !in p
    ensures var v := Vars(ep, dev);
            && v.Keys == {"mac", "mac_dashes", "hostname", "instance", "serial", "ip"}
            && v["mac"] == Concat(pairs) && v["mac_dashes"] == Join(pairs, '-')
            && Leads(ep.hostname, '.', v["hostname"])
            && v["instance"] == ep.instance && v["serial"] == dev.serial
            && |v["ip"]| == |ep.ip|
            && forall i | 0 <= i < |ep.ip| :: v["ip"][i] == if ep.ip[i] == '.' || ep.ip[i] == ':' then '-' else ep.ip[i]
  {
    WithoutJoin(pairs, ':');
    SwapJoin(pairs, ':', '-');
    HeadLeads(ep.hostname, '.', Head(ep.hostname, '.'));
  }

  /** A variable that is not there reads as "". */
  function Value(vars: map<string, string>, name: string): string {
    if name in vars then vars[name] else ""
  }

  function Substitute(ts: seq<Token>, vars: map<string, string>): string {
    if ts == [] then ""
    else Substitute(ts[..|ts| - 1], vars)
         + match ts[|ts| - 1] case Lit(c) => [c] case Ref(name) => Value(vars, name)
  }

  predicate Resolves(ts: seq<Token>, vars: map<string, string>) {
    forall t | t in ts :: t.Ref? ==> Value(vars, t.name) != ""
  }

  function TemplateName(template: string, vars: map<string, string>): string {
    if template == "" || !Resolves(Tokens(template), vars) then ""
    else Sanitized(Substitute(Tokens(template), vars))
  }

  /** The rendered name is "" exactly when the template is empty, some reference is unknown or
      empty, or no letter or digit is left to name by; otherwise it is a valid label. */
  lemma TemplateNameSpec(template: string, vars: map<string, string>)
    ensures TemplateName(template, vars) == "" <==>
              || template == ""
              || (exists t :: t in Tokens(template) && t.Ref? && (t.name !in vars || vars[t.name] == ""))
              || !HasAlnum(Lower(Substitute(Tokens(template), vars)))
    ensures TemplateName(template, vars) != "" ==>
              && ValidLabel(TemplateName(template, vars))
              && TemplateName(template, vars) == Sanitized(Substitute(Tokens(template), vars))
  {
    SanitizedIsLabel(Substitute(Tokens(template), vars));
  }

  lemma {:induction false} SubstituteConcat(a: seq<Token>, b: seq<Token>, vars: map<string, string>)
    ensures Substitute(a + b, vars) == Substitute(a, vars) + Substitute(b, vars)
  {
    if b == [] {
      assert a + b == a;
    } else {
      assert (a + b)[..|a + b| - 1] == a + b[..|b| - 1];
      SubstituteConcat(a, b[..|b| - 1], vars);
    }
  }

  /** A value is inserted as it is, between what the template's own text before and after it
      renders to: it is not read again, whatever dollar signs and braces it holds. */
  lemma ValuesVerbatim(ts: seq<Token>, k: nat, vars: map<string, string>)
    requires k < |ts| && ts[k].Ref?
    ensures Substitute(ts, vars) == Substitute(ts[..k], vars) + Value(vars, ts[k].name) + Substitute(ts[k + 1..], vars)
  {
    assert ts == ts[..k + 1] + ts[k + 1..];
    SubstituteConcat(ts[..k + 1], ts[k + 1..], vars);
    assert ts[..k + 1][..k] == ts[..k];
  }

  /** And so is the template's own text. */
  lemma LiteralsVerbatim(ts: seq<Token>, k: nat, vars: map<string, string>)
    requires k < |ts| && ts[k].Lit?
    ensures Substitute(ts, vars) == Substitute(ts[..k], vars) + [ts[k].c] + Substitute(ts[k + 1..], vars)
  {
    assert ts == ts[..k + 1] + ts[k + 1..];
    SubstituteConcat(ts[..k + 1], ts[k + 1..], vars);
    assert ts[..k + 1][..k] == ts[..k];
  }

  lemma RenderNext(ts: seq<Token>, i: nat, vars: map<string, string>)
    requires i < |ts|
    ensures Substitute(ts[..i + 1], vars)
            == Substitute(ts[..i], vars) + if ts[i].Lit? then [ts[i].c] else Value(vars, ts[i].name)
    ensures Resolves(ts[..i + 1], vars) <==> Resolves(ts[..i], vars) && (ts[i].Ref? ==> Value(vars, ts[i].name) != "")
  {
    assert ts[..i + 1][..i] == ts[..i];
    assert ts[..i + 1] == ts[..i] + [ts[i]];
    assert forall t :: t in ts[..i + 1] <==> t in ts[..i] || t == ts[i];
  }

  /** The substitution with its closure that sets `unresolved`. */
  method Render(template: string, ep: Endpoint, dev: Device) returns (name: string)
    ensures name == TemplateName(template, Vars(ep, dev))
  {
    if template == "" {
      return "";
    }
    var vars := Vars(ep, dev);
    var tokens := Tokens(template);
    var unresolved, out := false, "";
    var i := 0;
    while i < |tokens|
      invariant 0 <= i <= |tokens|
      invariant out == Substitute(tokens[..i], vars)
      invariant unresolved <==> !Resolves(tokens[..i], vars)
    {
      RenderNext(tokens, i, vars);
      match tokens[i] {
        case Lit(c) => out := out + [c];
        case Ref(ref) =>
          var value := Value(vars, ref);
          if value == "" {
            unresolved := true;
          }
          out := out + value;
      }
      i := i + 1;
    }
    assert tokens[..i] == tokens;
    if unresolved {
      return "";
    }
    name := SanitizeName(out);
  }

  /** The name `Sync` gives an endpoint's resources. */
  function SyncName(template: string, ep: Endpoint, dev: Device): string {
    var name := TemplateName(template, Vars(ep, dev));
    if name == "" then ResourceName(ep) else name
  }

  /** The rendered template names the resources if it renders to a name; else the endpoint does. */
  lemma SyncNameSpec(template: string, ep: Endpoint, dev: Device)
    ensures var name, t := SyncName(template, ep, dev), TemplateName(template, Vars(ep, dev));
            (t != "" ==> name == t) && (t == "" ==> name == ResourceName(ep))
  {
  }

  /** Whatever the template, every IPv4 endpoint's resources get a valid label for a name. */
  lemma SyncNameIsLabel(template: string, ep: Endpoint, dev: Device, a: nat, b: nat, c: nat, d: nat)
    requires a < 256 && b < 256 && c < 256 && d < 256 && ep.ip == DottedDecimal(a, b, c, d)
    ensures ValidLabel(SyncName(template, ep, dev))
  {
    TemplateNameSpec(template, Vars(ep, dev));
    IPv4NameIsLabel(ep, a, b, c, d);
  }
}

/** The default-credentials list: `ParseDefaults` (internal/inventory/defaults.go:17-34) and the
    Helm chart that prints it (templates/deployment.yaml:52-56). */
module Defaults {
  import opened Text
  import opened Wrappers

  datatype Credentials = Credentials(username: string, password: string)
  datatype Entry = Entry(service: string, creds: Credentials)
  datatype Result<+T> = Ok(value: T) | Err(entry: string)

  /** One `<service>=<username>:<password>` entry. */
  function ParseEntry(s: string): Option<Entry> {
    var service, cred := Head(s, '='), Tail(s, '=');
    if !Found(s, '=') || !Found(cred, ':') then None
    else
      var username, password := Head(cred, ':'), Tail(cred, ':');
      if service == "" || username == "" || password == "" then None
      else Some(Entry(service, Credentials(username, password)))
  }

  /** The table a list of entries stands for: of two entries for a service the later one counts. */
  function Table(entries: seq<Entry>): map<string, Credentials> {
    if entries == [] then map[]
    else
      var last := entries[|entries| - 1];
      Table(entries[..|entries| - 1])[last.service := last.creds]
  }

  /** The last entry for the service, at `i`, gives these credentials. */
  ghost predicate LastFor(entries: seq<Entry>, service: string, creds: Credentials, i: int) {
    0 <= i < |entries| && entries[i] == Entry(service, creds) && forall j | i < j < |entries| :: entries[j].service != service
  }

  lemma {:induction false} TableLast(entries: seq<Entry>, service: string)
    ensures service in Table(entries) <==> exists e :: e in entries && e.service == service
    ensures service in Table(entries) ==> exists i :: LastFor(entries, service, Table(entries)[service], i)
  {
    if entries != [] {
      var front, last := entries[..|entries| - 1], entries[|entries| - 1];
      TableLast(front, service);
      assert forall e :: e in entries <==> e in front || e == last;
      if last.service == service {
        assert LastFor(entries, service, last.creds, |entries| - 1);
      } else if service in Table(front) {
        var i :| LastFor(front, service, Table(front)[service], i);
        assert forall j | 0 <= j < |front| :: entries[j] == front[j];
        assert LastFor(entries, service, Table(front)[service], i);
      }
    }
  }

  /** Entry by entry, stopping at the first the given parser refuses. */
  function ParseParts(parts: seq<string>, parse: string -> Option<Entry>): Result<map<string, Credentials>> {
    if parts == [] then Ok(map[])
    else
      var last := parts[|parts| - 1];
      match ParseParts(parts[..|parts| - 1], parse)
      case Err(bad) => Err(bad)
      case Ok(table) =>
        match parse(last)
        case None => Err(last)
        case Some(e) => Ok(table[e.service := e.creds])
  }

  function Parsed(s: string): Result<map<string, Credentials>> {
    if s == "" then Ok(map[]) else ParseParts(Split(s, ','), ParseEntry)
  }

  /** All parts parse, to these entries. */
  ghost predicate AllParse(parts: seq<string>, parse: string -> Option<Entry>, entries: seq<Entry>) {
    |parts| == |entries| && forall i | 0 <= i < |parts| :: parse(parts[i]) == Some(entries[i])
  }

  ghost predicate FirstBad(parts: seq<string>, parse: string -> Option<Entry>, i: int) {
    0 <= i < |parts| && parse(parts[i]).None? && forall j | 0 <= j < i :: parse(parts[j]).Some?
  }

  lemma {:induction false} ErrorStays(parts: seq<string>, parse: string -> Option<Entry>, i: nat)
    requires i <= |parts| && ParseParts(parts[..i], parse).Err?
    ensures ParseParts(parts, parse) == ParseParts(parts[..i], parse)
  {
    if i == |parts| {
      assert parts[..i] == parts;
    } else {
      assert parts[..|parts| - 1][..i] == parts[..i];
      ErrorStays(parts[..|parts| - 1], parse, i);
    }
  }

  /** Parts that all parse stand for the table of their entries. */
  lemma {:induction false} PartsToTable(parts: seq<string>, parse: string -> Option<Entry>, entries: seq<Entry>)
    requires AllParse(parts, parse, entries)
    ensures ParseParts(parts, parse) == Ok(Table(entries))
  {
    if parts != [] {
      PartsToTable(parts[..|parts| - 1], parse, entries[..|entries| - 1]);
    }
  }

  /** Accepted parts all parse. */
  lemma {:induction false} AcceptedParts(parts: seq<string>, parse: string -> Option<Entry>) returns (entries: seq<Entry>)
    requires ParseParts(parts, parse).Ok?
    ensures AllParse(parts, parse, entries)
  {
    if parts == [] {
      entries := [];
    } else {
      entries := AcceptedParts(parts[..|parts| - 1], parse);
      entries := entries + [parse(parts[|parts| - 1]).value];
    }
  }

  lemma {:induction false} ErrorIsFirstBad(parts: seq<string>, parse: string -> Option<Entry>) returns (i: int)
    requires ParseParts(parts, parse).Err?
    ensures FirstBad(parts, parse, i) && parts[i] == ParseParts(parts, parse).entry
  {
    var n := |parts| - 1;
    if ParseParts(parts[..n], parse).Err? {
      i := ErrorIsFirstBad(parts[..n], parse);
    } else {
      i := n;
      var entries := AcceptedParts(parts[..n], parse);
      forall j | 0 <= j < n ensures parse(parts[j]).Some? {
        assert parse(parts[..n][j]) == Some(entries[j]);
      }
    }
  }

  /** `s` is written `service=username:password`, with no field empty and none but the password
      holding the character that ends it. */
  ghost predicate Spells(s: string, e: Entry) {
    && e.service != "" && '=' !in e.service
    && e.creds.username != "" && ':' !in e.creds.username
    && e.creds.password != ""
    && s == e.service + "=" + (e.creds.username + ":" + e.creds.password)
  }

  lemma EntryExactly(s: string, e: Entry)
    ensures ParseEntry(s) == Some(e) <==> Spells(s, e)
  {
    if Spells(s, e) {
      CutGlued(e.service, '=', e.creds.username + ":" + e.creds.password);
      CutGlued(e.creds.username, ':', e.creds.password);
    }
    if ParseEntry(s) == Some(e) {
      GlueCut(s, '=');
      GlueCut(Tail(s, '='), ':');
    }
  }

  ghost predicate SpellsSome(s: string) {
    exists e :: Spells(s, e)
  }

  lemma SomeExactly(s: string)
    ensures ParseEntry(s).Some? <==> SpellsSome(s)
  {
    if ParseEntry(s).Some? {
      EntryExactly(s, ParseEntry(s).value);
    }
    if SpellsSome(s) {
      var e :| Spells(s, e);
      EntryExactly(s, e);
    }
  }

  /** Comma-free texts, glued together with commas. */
  ghost predicate Lists(s: string, parts: seq<string>) {
    parts != [] && (forall p | p in parts :: ',' !in p) && s == Join(parts, ',')
  }

  /** Exactly the empty text and the comma-separated lists of well-formed entries are accepted, as the
      table of those entries; an error names the first entry that is not well-formed. */
  lemma AcceptsExactly(s: string, parts: seq<string>)
    requires s != "" && Lists(s, parts)
    ensures Parsed("") == Ok(map[])
    ensures Parsed(s).Ok? <==> forall i | 0 <= i < |parts| :: SpellsSome(parts[i])
    ensures forall entries | |entries| == |parts| && (forall i | 0 <= i < |parts| :: Spells(parts[i], entries[i])) ::
              Parsed(s) == Ok(Table(entries))
    ensures Parsed(s).Err? ==> exists i :: FirstNotSpelled(parts, i) && parts[i] == Parsed(s).entry
  {
    SplitJoin(parts, ',');
    if ParseParts(parts, ParseEntry).Ok? {
      var entries := AcceptedParts(parts, ParseEntry);
      forall i | 0 <= i < |parts| ensures SpellsSome(parts[i]) {
        SomeExactly(parts[i]);
      }
    } else {
      var i := ErrorIsFirstBad(parts, ParseEntry);
      forall j | 0 <= j <= i ensures ParseEntry(parts[j]).Some? <==> SpellsSome(parts[j]) {
        SomeExactly(parts[j]);
      }
      assert FirstNotSpelled(parts, i);
    }
    forall entries | |entries| == |parts| && (forall i | 0 <= i < |parts| :: Spells(parts[i], entries[i]))
      ensures Parsed(s) == Ok(Table(entries))
    {
      forall i | 0 <= i < |parts| ensures ParseEntry(parts[i]) == Some(entries[i]) {
        EntryExactly(parts[i], entries[i]);
      }
      PartsToTable(parts, ParseEntry, entries);
    }
  }

  ghost predicate FirstNotSpelled(parts: seq<string>, i: int) {
    0 <= i < |parts| && !SpellsSome(parts[i]) && forall j | 0 <= j < i :: SpellsSome(parts[j])
  }

  /** Every text is such a list of one kind of parts. */
  lemma EveryTextLists(s: string)
    ensures Lists(s, Split(s, ','))
  {
    JoinSplit(s, ',');
  }

  /** `ParseDefaults`. */
  method ParseDefaults(s: string) returns (r: Result<map<string, Credentials>>)
    ensures r == Parsed(s)
  {
    var defaults: map<string, Credentials> := map[];
    if s == "" {
      return Ok(defaults);
    }
    var parts := Split(s, ',');
    var i := 0;
    while i < |parts|
      invariant 0 <= i <= |parts|
      invariant ParseParts(parts[..i], ParseEntry) == Ok(defaults)
    {
      var entry := parts[i];
      assert parts[..i + 1][..i] == parts[..i];
      var service, cred, ok := Head(entry, '='), Tail(entry, '='), Found(entry, '=');
      if !ok {
        ErrorStays(parts, ParseEntry, i + 1);
        return Err(entry);
      }
      var username, password := Head(cred, ':'), Tail(cred, ':');
      ok := Found(cred, ':');
      if !ok || service == "" || username == "" || password == "" {
        ErrorStays(parts, ParseEntry, i + 1);
        return Err(entry);
      }
      defaults := defaults[service := Credentials(username, password)];
      i := i + 1;
    }
    assert parts[..i] == parts;
    return Ok(defaults);
  }

  // ---------------------------------------------------------------- the printer

  /** No field is empty or holds the character that ends it. */
  ghost predicate Printable(e: Entry) {
    && e.service != "" && '=' !in e.service && ',' !in e.service
    && e.creds.username != "" && ':' !in e.creds.username && ',' !in e.creds.username
    && e.creds.password != "" && ',' !in e.creds.password
  }

  function Print(e: Entry): string {
    e.service + "=" + (e.creds.username + ":" + e.creds.password)
  }

  function PrintAll(entries: seq<Entry>): string {
    Join(seq(|entries|, i requires 0 <= i < |entries| => Print(entries[i])), ',')
  }

  lemma ParsePrint(e: Entry)
    requires Printable(e)
    ensures ParseEntry(Print(e)) == Some(e) && ',' !in Print(e)
  {
    var cred := e.creds.username + ":" + e.creds.password;
    CutGlued(e.service, '=', cred);
    CutGlued(e.creds.username, ':', e.creds.password);
  }

  /** An entry text parses only as what prints back to it. */
  lemma PrintParse(s: string)
    requires ParseEntry(s).Some?
    ensures Print(ParseEntry(s).value) == s
  {
    GlueCut(s, '=');
    GlueCut(Tail(s, '='), ':');
  }

  lemma PrintedParts(entries: seq<Entry>)
    requires forall e | e in entries :: Printable(e)
    ensures var parts := seq(|entries|, i requires 0 <= i < |entries| => Print(entries[i]));
            && AllParse(parts, ParseEntry, entries)
            && (entries != [] ==> Split(PrintAll(entries), ',') == parts && PrintAll(entries) != "")
  {
    var parts := seq(|entries|, i requires 0 <= i < |entries| => Print(entries[i]));
    forall i | 0 <= i < |entries| ensures ParseEntry(parts[i]) == Some(entries[i]) && ',' !in parts[i] {
      ParsePrint(entries[i]);
    }
    if entries != [] {
      SplitJoin(parts, ',');
      assert PrintAll(entries) == "" ==> Split(PrintAll(entries), ',') == [""];
    }
  }

  /** Parsing what the chart prints gives the table back: whatever the order in which the chart
      walks the services, and for passwords with colons and equals signs. */
  lemma RoundTrip(entries: seq<Entry>)
    requires forall e | e in entries :: Printable(e)
    ensures Parsed(PrintAll(entries)) == Ok(Table(entries))
  {
    PrintedParts(entries);
    if entries != [] {
      PartsToTable(Split(PrintAll(entries), ','), ParseEntry, entries);
    }
  }

  /** `entries` walks the map `m`: every service once, in any order. */
  ghost predicate Walks(entries: seq<Entry>, m: map<string, Credentials>) {
    && (forall i, j | 0 <= i < j < |entries| :: entries[i].service != entries[j].service)
    && (forall e | e in entries :: e.service in m && e.creds == m[e.service])
    && (forall service | service in m :: Entry(service, m[service]) in entries)
  }

  lemma WalkedService(entries: seq<Entry>, m: map<string, Credentials>, service: string)
    requires Walks(entries, m)
    ensures service in Table(entries) <==> service in m
    ensures service in m ==> Table(entries)[service] == m[service]
  {
    TableLast(entries, service);
    if service in Table(entries) {
      var i :| LastFor(entries, service, Table(entries)[service], i);
      assert entries[i] in entries;
    }
  }

  /** Parsing what the chart prints for a map gives the map back, in whatever order the chart
      walks its services. */
  lemma ChartRoundTrip(entries: seq<Entry>, m: map<string, Credentials>)
    requires Walks(entries, m) && forall e | e in entries :: Printable(e)
    ensures Parsed(PrintAll(entries)) == Ok(m)
  {
    RoundTrip(entries);
    forall service ensures (service in Table(entries) <==> service in m) && (service in m ==> Table(entries)[service] == m[service]) {
      WalkedService(entries, m, service);
    }
    assert Table(entries) == m;
  }

  /** And an accepted text is what the chart would print for its entries. */
  lemma PrintOfParsed(s: string) returns (entries: seq<Entry>)
    requires s != "" && Parsed(s).Ok?
    ensures PrintAll(entries) == s && Parsed(s) == Ok(Table(entries))
  {
    var parts := Split(s, ',');
    entries := AcceptedParts(parts, ParseEntry);
    PartsToTable(parts, ParseEntry, entries);
    JoinSplit(s, ',');
    forall i | 0 <= i < |parts| ensures Print(entries[i]) == parts[i] {
      PrintParse(parts[i]);
    }
    assert seq(|entries|, i requires 0 <= i < |entries| => Print(entries[i])) == parts;
  }
}

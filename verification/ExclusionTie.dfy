/** Two deletions in one second: why the condition on joining the line is there. */
module ExclusionTie {
  import opened Wrappers
  import opened Machines
  import opened Protocol
  import opened Runs
  import opened Agreement
  import opened Exclusion

  /** Everything but the order of deletions is as the exclusion theorem wants it. */
  ghost predicate Careful(w: World, l: Label) {
    FreshReads(w, l) && CompleteList(w, l) && !StampsLate(w, l)
  }

  function Fresh(name: string): Machine {
    Machine(name, "c", true, TalosConfig, BootstrapGroup, TinkerbellMachine, InfrastructureGroup, name, 0, None,
            map[Hook := Owner, ObservedAt := Timestamp(0)], [], "", [])
  }

  function Waiting(name: string): Machine {
    Fresh(name).(deletion := Some(5), conditions := [Condition(true, true, WaitingForPreTerminateHook)])
  }

  const EVERYONE: Answer := Picks([("a", 9), ("b", 9)])

  lemma Extend(ls: seq<Label>, l: Label)
    requires Throughout(Start(Config(1, 2)), ls, Careful)
    requires Careful(Run(Start(Config(1, 2)), ls), l)
    ensures Throughout(Start(Config(1, 2)), ls + [l], Careful)
    ensures Run(Start(Config(1, 2)), ls + [l]) == Apply(Run(Start(Config(1, 2)), ls), l)
  {
    Extended(Apply, Start(Config(1, 2)), ls, Careful, l);
  }

  ghost function At(ls: seq<Label>): World {
    Run(Start(Config(1, 2)), ls)
  }

  /** Only `name`'s cell differs, and its object does not. */
  ghost predicate Moved(w: World, w': World, name: string, pc: Pc) {
    && name in w.cells && w'.cells.Keys == w.cells.Keys && w'.collapsing == w.collapsing
    && (forall n | n in w.cells && n != name :: w'.cells[n] == w.cells[n])
    && w'.cells[name].live == w.cells[name].live && w'.cells[name].past == w.cells[name].past
    && w'.cells[name].pc == pc
  }

  ghost predicate Ready(w: World, name: string, pc: Pc) {
    && name in w.cells && w.collapsing == {}
    && (forall n | n in w.cells :: |w.cells[n].past| <= 9)
    && w.cells[name].live == Waiting(name) && w.cells[name].pc == pc
  }

  lemma DeleteIt(w: World, name: string)
    requires name in w.cells && w.cells[name].live == Fresh(name)
    ensures var l := On(name, Delete(5)); var w' := Apply(w, l);
            && Careful(w, l) && w'.collapsing == w.collapsing
            && w'.cells == w.cells[name := w'.cells[name]]
            && w'.cells[name].live == Fresh(name).(deletion := Some(5))
            && w'.cells[name].pc == w.cells[name].pc && |w'.cells[name].past| == |w.cells[name].past| + 1
  {
  }

  lemma ParkIt(w: World, name: string)
    requires name in w.cells && w.cells[name].live == Fresh(name).(deletion := Some(5))
    ensures var l := On(name, Edit(Waiting(name))); var w' := Apply(w, l);
            && Careful(w, l) && w'.collapsing == w.collapsing
            && w'.cells == w.cells[name := w'.cells[name]]
            && w'.cells[name].live == Waiting(name)
            && w'.cells[name].pc == w.cells[name].pc && |w'.cells[name].past| == |w.cells[name].past| + 1
  {
    assert DeletingReason(Waiting(name).conditions) == WaitingForPreTerminateHook;
    assert ForeignEdit(w.cells[name].live, Waiting(name), w.cells[name].passed);
  }

  lemma ReadIt(w: World, name: string)
    requires Ready(w, name, Idle)
    ensures var l := On(name, Read(9)); Careful(w, l) && Moved(w, Apply(w, l), name, Active(Waiting(name), 0, ReadCluster))
  {
    assert !HasOtherPreTerminateHooks(Waiting(name));
    assert DeletingReason(Waiting(name).conditions) == WaitingForPreTerminateHook;
  }

  lemma SeeHealthy(w: World, name: string)
    requires Ready(w, name, Active(Waiting(name), 0, ReadCluster))
    ensures var l := On(name, Reply(ClusterIs(false)));
            Careful(w, l) && Moved(w, Apply(w, l), name, Active(Waiting(name), 0, ListTurn))
  {
  }

  lemma SeeTurn(w: World, name: string)
    requires Ready(w, name, Active(Waiting(name), 0, ListTurn)) && w.cells.Keys == {"a", "b"}
    requires !Held(Waiting(name), Listing(w.cells, "c", EVERYONE.picks))
    ensures var l := On(name, Reply(EVERYONE));
            && Careful(w, l) && Moved(w, Apply(w, l), name, Active(Waiting(name), 0, EtcdConfig))
            && Apply(w, l).cells[name].turn
  {
    assert EVERYONE.picks[0] == ("a", 9) && EVERYONE.picks[1] == ("b", 9);
  }

  lemma Park(ls: seq<Label>, name: string) returns (ls': seq<Label>)
    requires Throughout(Start(Config(1, 2)), ls, Careful) && name in At(ls).cells && At(ls).cells[name] == NewCell(Fresh(name))
    ensures Throughout(Start(Config(1, 2)), ls', Careful)
    ensures name in At(ls').cells && At(ls').cells == At(ls).cells[name := At(ls').cells[name]] && At(ls').collapsing == At(ls).collapsing
    ensures var c := At(ls').cells[name]; c.live == Waiting(name) && |c.past| <= 9 && c.pc.Idle?
  {
    DeleteIt(At(ls), name);
    Extend(ls, On(name, Delete(5)));
    ls' := ls + [On(name, Delete(5))];
    ParkIt(At(ls'), name);
    Extend(ls', On(name, Edit(Waiting(name))));
    ls' := ls' + [On(name, Edit(Waiting(name)))];
  }

  lemma TakeTurn(ls: seq<Label>, name: string) returns (ls': seq<Label>)
    requires Throughout(Start(Config(1, 2)), ls, Careful)
    requires Ready(At(ls), name, Idle) && At(ls).cells.Keys == {"a", "b"}
    requires !Held(Waiting(name), Listing(At(ls).cells, "c", EVERYONE.picks))
    ensures Throughout(Start(Config(1, 2)), ls', Careful)
    ensures Moved(At(ls), At(ls'), name, Active(Waiting(name), 0, EtcdConfig)) && At(ls').cells[name].turn
  {
    ReadIt(At(ls), name);
    Extend(ls, On(name, Read(9)));
    ls' := ls + [On(name, Read(9))];
    SeeHealthy(At(ls'), name);
    Extend(ls', On(name, Reply(ClusterIs(false))));
    ls' := ls' + [On(name, Reply(ClusterIs(false)))];
    SameListing(At(ls).cells, At(ls').cells, EVERYONE.picks);
    SeeTurn(At(ls'), name);
    Extend(ls', On(name, Reply(EVERYONE)));
    ls' := ls' + [On(name, Reply(EVERYONE))];
  }

  lemma {:induction false} SameListing(a: map<string, Cell>, b: map<string, Cell>, picks: seq<(string, nat)>)
    requires a.Keys == b.Keys
    requires forall n | n in a :: a[n].live == b[n].live && a[n].past == b[n].past
    ensures Listing(a, "c", picks) == Listing(b, "c", picks)
  {
    if picks != [] {
      SameListing(a, b, picks[1..]);
    }
  }

  lemma BothListed(cells: map<string, Cell>)
    requires "a" in cells && "b" in cells
    requires |cells["a"].past| <= 9 && |cells["b"].past| <= 9
    requires cells["a"].live.cluster == cells["b"].live.cluster == "c"
    requires cells["a"].live.controlPlane && cells["b"].live.controlPlane
    ensures Listing(cells, "c", EVERYONE.picks) == [cells["a"].live, cells["b"].live]
  {
    var picks := [("a", 9), ("b", 9)];
    assert picks[1..] == [("b", 9)];
    assert Listing(cells, "c", picks[1..][1..]) == [];
    assert Listing(cells, "c", picks[1..]) == [cells["b"].live];
  }

  lemma Created() returns (ls: seq<Label>)
    ensures Throughout(Start(Config(1, 2)), ls, Careful)
    ensures At(ls).cells == map["a" := NewCell(Fresh("a")), "b" := NewCell(Fresh("b"))] && At(ls).collapsing == {}
  {
    ls := [];
    Extend(ls, Create(Fresh("b")));
    ls := ls + [Create(Fresh("b"))];
    Extend(ls, Create(Fresh("a")));
    ls := ls + [Create(Fresh("a"))];
  }

  lemma FirstTurn() returns (ls: seq<Label>)
    ensures Throughout(Start(Config(1, 2)), ls, Careful)
    ensures var w := At(ls);
            && w.cells.Keys == {"a", "b"} && w.collapsing == {} && w.cells["a"] == NewCell(Fresh("a"))
            && w.cells["b"].turn && w.cells["b"].live == Waiting("b") && |w.cells["b"].past| <= 9
  {
    ls := Created();
    ls := Park(ls, "b");
    BothListed(At(ls).cells);
    ls := TakeTurn(ls, "b");
  }

  /** A sibling deleted in the same second, after a machine took its turn, with a smaller name,
      takes its turn too: current and complete reads and early hooks do not suffice. */
  lemma SameSecondDeletion() returns (ls: seq<Label>)
    ensures Throughout(Start(Config(1, 2)), ls, Careful)
    ensures var w := Run(Start(Config(1, 2)), ls);
            "a" in w.cells && "b" in w.cells && Holder(w.cells["a"]) && Holder(w.cells["b"])
  {
    ls := FirstTurn();
    ls := Park(ls, "a");
    BothListed(At(ls).cells);
    ls := TakeTurn(ls, "a");
  }
}

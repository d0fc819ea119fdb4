/** The server a dev session runs (crates/vilan-cli/src/main.rs, crates/vilan-cli/src/hmr.rs): which
    rounds restart it, and which bundle it was started with.

    The selected leg is the one node leg the session runs, chosen anew each round; the child is taken
    to start, and to run until it is replaced. */
module DevServer {
  import opened Basics
  import opened DevLoop

  /** `running` is the bundle the child was started with. */
  datatype Server = Server(legs: seq<Leg>, selected: Option<string>, running: Option<string>, starts: nat)

  const FRESH := Server([], None, None, 0)

  function SelectedBundle(legs: seq<Leg>, selected: Option<string>): Option<string> {
    if selected.Some? && Find(legs, selected.value).Some? && !Find(legs, selected.value).value.browser
    then Some(Find(legs, selected.value).value.bundle)
    else None
  }

  ghost function AfterRound(s: Server, next: seq<Leg>, selected: Option<string>): Server {
    if s.legs == [] || ServerMoved(s.legs, next, selected)
    then Server(next, selected, SelectedBundle(next, selected), s.starts + 1)
    else s.(legs := next, selected := selected)
  }

  /** A round: classified, recorded, and the child replaced where the decision says so. */
  method RunRound(s: Server, next: seq<Leg>, selected: Option<string>) returns (t: Server)
    ensures t == AfterRound(s, next, selected)
  {
    var decision := Classify(s.legs, next, selected);
    t := s.(legs := next, selected := selected);
    if decision.restartServer {
      t := t.(running := SelectedBundle(next, selected), starts := t.starts + 1);
    }
  }

  // ----- which rounds restart -----

  ghost predicate IsSelected(legs: seq<Leg>, selected: Option<string>, leg: Leg) {
    leg in legs && !leg.browser && selected == Some(leg.name)
  }

  lemma SelectedIs(legs: seq<Leg>, selected: Option<string>, leg: Leg)
    requires Unique(legs) && IsSelected(legs, selected, leg)
    ensures SelectedBundle(legs, selected) == Some(leg.bundle)
  {
    FindUnique(legs, leg);
  }

  /** Past the first, a round restarts the server exactly when the selected leg's bundle is another, or
      the leg appeared or vanished. */
  lemma RestartsIff(previous: seq<Leg>, next: seq<Leg>, selected: Option<string>)
    requires Unique(previous) && Unique(next) && StableKinds(previous, next)
    ensures ServerMoved(previous, next, selected) <==>
            SelectedBundle(previous, selected) != SelectedBundle(next, selected)
  {
    if ServerLegMoved(previous, next, selected) {
      var leg :| leg in next && ServerLegMoves(previous, leg, selected);
      SelectedIs(next, selected, leg);
    }
    if was :| was in previous && !was.browser && selected == Some(was.name) && Vanished(next, was) {
      SelectedIs(previous, selected, was);
    }
    if SelectedBundle(previous, selected) != SelectedBundle(next, selected) {
      if SelectedBundle(next, selected).Some? {
        assert ServerLegMoves(previous, Find(next, selected.value).value, selected);
      } else {
        var was := Find(previous, selected.value).value;
        assert was in previous && !was.browser && selected == Some(was.name);
        assert Vanished(next, was);
      }
    }
  }

  // ----- what runs -----

  /** The server runs the selected leg's bundle as the last round left it, or nothing where no node leg
      is selected. */
  ghost predicate RunsCurrent(s: Server) {
    && (forall leg :: IsSelected(s.legs, s.selected, leg) ==> s.running == Some(leg.bundle))
    && (s.running.Some? ==> exists leg :: IsSelected(s.legs, s.selected, leg))
  }

  lemma RunsCurrentIs(s: Server)
    requires Unique(s.legs)
    ensures RunsCurrent(s) <==> s.running == SelectedBundle(s.legs, s.selected)
  {
    forall leg | IsSelected(s.legs, s.selected, leg) ensures SelectedBundle(s.legs, s.selected) == Some(leg.bundle) {
      SelectedIs(s.legs, s.selected, leg);
    }
    if SelectedBundle(s.legs, s.selected).Some? {
      assert IsSelected(s.legs, s.selected, Find(s.legs, s.selected.value).value);
    }
  }

  /** A round leaves the current bundle running exactly when it restarts, or selects a leg that the round
      before had the same bundle as the one selected then. */
  lemma RoundRunsCurrent(s: Server, next: seq<Leg>, selected: Option<string>)
    requires Unique(s.legs) && Unique(next) && StableKinds(s.legs, next) && (s.legs != [] ==> RunsCurrent(s))
    ensures RunsCurrent(AfterRound(s, next, selected)) <==>
            || s.legs == [] || ServerMoved(s.legs, next, selected)
            || SelectedBundle(s.legs, selected) == SelectedBundle(s.legs, s.selected)
  {
    RestartsIff(s.legs, next, selected);
    RunsCurrentIs(s);
    RunsCurrentIs(AfterRound(s, next, selected));
  }

  ghost predicate CanRounds(legs: seq<Leg>, rounds: seq<seq<Leg>>)
    decreases |rounds|
  {
    rounds == [] || (Unique(rounds[0]) && StableKinds(legs, rounds[0]) && CanRounds(rounds[0], rounds[1..]))
  }

  ghost function AfterRounds(s: Server, rounds: seq<seq<Leg>>, selected: Option<string>): Server
    decreases |rounds|
  {
    if rounds == [] then s else AfterRounds(AfterRound(s, rounds[0], selected), rounds[1..], selected)
  }

  lemma {:induction false} RoundsRunCurrent(s: Server, rounds: seq<seq<Leg>>, selected: Option<string>)
    requires Unique(s.legs) && CanRounds(s.legs, rounds)
    requires s.legs != [] ==> RunsCurrent(s) && s.selected == selected
    ensures rounds != [] || s.legs != [] ==> RunsCurrent(AfterRounds(s, rounds, selected))
    decreases |rounds|
  {
    if rounds != [] {
      RoundRunsCurrent(s, rounds[0], selected);
      RoundsRunCurrent(AfterRound(s, rounds[0], selected), rounds[1..], selected);
    }
  }

  /** Over every run of rounds under one selection, the server runs the selected leg's current bundle
      after each, and a round that leaves that leg's bundle and presence alone does not restart it. */
  lemma ServerFollows(rounds: seq<seq<Leg>>, next: seq<Leg>, selected: Option<string>)
    requires CanRounds([], rounds) && rounds != []
    requires var s := AfterRounds(FRESH, rounds, selected); Unique(s.legs) && Unique(next) && StableKinds(s.legs, next)
    ensures var s := AfterRounds(FRESH, rounds, selected);
            && RunsCurrent(s) && RunsCurrent(AfterRound(s, next, selected))
            && (s.legs != [] ==>
                  var still := SelectedBundle(s.legs, selected) == SelectedBundle(next, selected);
                  AfterRound(s, next, selected).starts == if still then s.starts else s.starts + 1)
  {
    var s := AfterRounds(FRESH, rounds, selected);
    RoundsRunCurrent(FRESH, rounds, selected);
    SelectionStands(FRESH, rounds, selected);
    RoundRunsCurrent(s, next, selected);
    RestartsIff(s.legs, next, selected);
  }

  lemma {:induction false} SelectionStands(s: Server, rounds: seq<seq<Leg>>, selected: Option<string>)
    ensures rounds != [] ==> AfterRounds(s, rounds, selected).selected == selected
    decreases |rounds|
  {
    if rounds != [] {
      SelectionStands(AfterRound(s, rounds[0], selected), rounds[1..], selected);
    }
  }

  /** A selection that moves while no bundle does is not a restart: the session goes on running the leg
      selected before. */
  lemma SelectionMovesAlone()
    ensures var legs := [Leg("api", false, "a", None), Leg("admin", false, "b", None)];
            var s := AfterRound(FRESH, legs, Some("api"));
            && Unique(legs) && RunsCurrent(s)
            && AfterRound(s, legs, Some("admin")).running == Some("a")
            && !RunsCurrent(AfterRound(s, legs, Some("admin")))
  {
    var api, admin := Leg("api", false, "a", None), Leg("admin", false, "b", None);
    var legs := [api] + [admin];
    assert legs == [Leg("api", false, "a", None), Leg("admin", false, "b", None)];
    assert "api" != "admin" && "a" != "b";
    FindUnique(legs, api);
    FindUnique(legs, admin);
    RoundRunsCurrent(FRESH, legs, Some("api"));
    var s := AfterRound(FRESH, legs, Some("api"));
    RestartsIff(legs, legs, Some("admin"));
    RoundRunsCurrent(s, legs, Some("admin"));
  }
}

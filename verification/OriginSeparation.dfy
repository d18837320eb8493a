/** Origin separation: under one account, no clientId is ever handed to Foundry servers at two
    different origins, whichever lookup of POST /auth/pair chose it. */
module OriginSeparation {
  import opened Wrappers
  import opened Text
  import opened Stores
  import opened Handlers

  /** One clientId handed out by POST /auth/pair, and the origin it was handed to. */
  datatype Issue = Issue(row: Row, origin: string)

  datatype System = System(relay: Relay, issued: seq<Issue>)

  function Next(s: System, step: Step): System {
    var outcome := Apply(s.relay, step);
    System(outcome.relay,
           if step.DoExchange? && outcome.response.Paired?
           then s.issued + [Issue(Row(outcome.response.user, outcome.response.client), step.body.origin)]
           else s.issued)
  }

  function Runs(s: System, steps: seq<Step>): System
    decreases |steps|
  {
    if steps == [] then s else Runs(Next(s, steps[0]), steps[1..])
  }

  ghost predicate Separated(issued: seq<Issue>) {
    forall i, j | 0 <= i < |issued| && 0 <= j < |issued| ::
      issued[i].row == issued[j].row && issued[i].origin != "" && issued[j].origin != ""
      ==> issued[i].origin == issued[j].origin
  }

  /** What the one-sided trimming makes of "the same origin": a world paired from `a` may pair again
      from `b`. */
  predicate MayTurnInto(a: string, b: string) {
    a == b || Trim(a) == "" || Trim(a) == b
  }

  /** Under one account, whenever a clientId goes to two non-empty origins, the earlier may turn into
      the later. */
  ghost predicate Compatible(issued: seq<Issue>) {
    forall i, j | 0 <= i < j < |issued| ::
      issued[i].row == issued[j].row && issued[i].origin != "" && issued[j].origin != ""
      ==> MayTurnInto(issued[i].origin, issued[j].origin)
  }

  /** A fresh random id: no row has it and it was never handed out. */
  ghost predicate Fresh(s: System, minted: string) {
    && minted != ""
    && (forall row | row in s.relay.clients :: row.client != minted)
    && (forall i | 0 <= i < |s.issued| :: s.issued[i].row.client != minted)
  }

  /** The two ways a lookup accepts a stored origin: the guarded ones and the exact one. */
  predicate Fits(kc: KnownClient, origin: string) {
    OriginConsistent(kc, origin) || kc.publicUrl == Str(origin)
  }

  /** Every earlier issue of this clientId to a known origin may turn into this one. */
  ghost predicate FitsHistory(issued: seq<Issue>, row: Row, origin: string) {
    forall i | 0 <= i < |issued| && issued[i].row == row && issued[i].origin != "" ::
      MayTurnInto(issued[i].origin, origin)
  }

  /** An "add browser" exchange comes from an origin that fits the bound world, or, if that world has
      been deleted, its history. */
  ghost predicate BrowserAtHome(s: System, code: PairingCode, origin: string) {
    IsAddBrowser(code) ==>
      var row := Row(code.user, code.bound.s);
      if row in s.relay.clients then Fits(s.relay.clients[row], origin) else FitsHistory(s.issued, row, origin)
  }

  /** What the environment grants a step: real lookup answers and fresh ids. `strict` adds the guard
      the add-browser branch does not check. */
  ghost predicate Granted(s: System, step: Step, strict: bool) {
    && Truthful(s.relay, step)
    && (step.DoExchange? ==>
          && Fresh(s, step.minted)
          && (strict && step.code in s.relay.codes ==>
                BrowserAtHome(s, s.relay.codes[step.code], step.body.origin)))
  }

  ghost predicate GrantedRun(s: System, steps: seq<Step>)
    decreases |steps|
  {
    steps != [] ==> Granted(s, steps[0], true) && GrantedRun(Next(s, steps[0]), steps[1..])
  }

  ghost predicate TrimmedOrigins(steps: seq<Step>) {
    forall i | 0 <= i < |steps| :: steps[i].DoExchange? ==> Trimmed(steps[i].body.origin)
  }

  /** The row of a world that was paired from a known origin records one it may turn into. */
  ghost predicate Recorded(s: System) {
    forall i | 0 <= i < |s.issued| && s.issued[i].origin != "" && s.issued[i].row in s.relay.clients ::
      MayTurnInto(s.issued[i].origin, s.relay.clients[s.issued[i].row].publicUrl.Value())
  }

  /** Only a pairing ever writes an origin. */
  ghost predicate Witnessed(s: System) {
    forall row | row in s.relay.clients ::
      s.relay.clients[row].publicUrl.Value() != "" ==>
        exists i :: 0 <= i < |s.issued| && s.issued[i] == Issue(row, s.relay.clients[row].publicUrl.s)
  }

  // ---- What a step does to the origins on record ----

  /** Every step but an exchange keeps the origin of each row that it keeps. */
  lemma OtherStepsKeepOrigins(r: Relay, step: Step)
    requires !step.DoExchange?
    ensures var r' := Apply(r, step).relay;
            forall row | row in r'.clients :: row in r.clients && r'.clients[row].publicUrl == r.clients[row].publicUrl
  {
  }

  /** An exchange hands out a clientId whose row fits the origin or, the row missing, one that is
      new or whose history fits. */
  lemma ChosenIsFreeOrConsistent(s: System, code: PairingCode, body: PairBody, picks: Picks, minted: string)
    requires Answers(s.relay.clients, code.user, body, picks)
    requires Fresh(s, minted)
    requires BrowserAtHome(s, code, body.origin)
    ensures var row := Row(code.user, ChooseClientId(s.relay.clients, code, body, picks, minted));
            if row in s.relay.clients then Fits(s.relay.clients[row], body.origin)
            else FitsHistory(s.issued, row, body.origin) && (row.client == minted || IsAddBrowser(code))
  {
  }

  lemma ExchangeOrigins(r: Relay, code: PairingCode, body: PairBody, picks: Picks, minted: string)
    ensures var client := ChooseClientId(r.clients, code, body, picks, minted);
            var row := Row(code.user, client);
            var r' := Complete(r, code, body, picks, minted);
            && r'.clients.Keys == r.clients.Keys + {row}
            && r'.clients[row].publicUrl
               == Preserve(NullIfEmpty(body.origin),
                           if row in r.clients then r.clients[row].publicUrl else NullIfEmpty(body.origin))
            && (forall other | other in r.clients && other != row :: r'.clients[other] == r.clients[other])
  {
  }

  lemma TurnsCompose(a: string, b: string, c: string)
    requires MayTurnInto(a, b) && MayTurnInto(b, c)
    ensures MayTurnInto(a, c)
  {
    TrimIsTrimmed(a);
    TrimTrimmed(Trim(a));
  }

  lemma FittingTurns(kc: KnownClient, origin: string)
    requires Fits(kc, origin) && origin != ""
    ensures MayTurnInto(kc.publicUrl.Value(), origin)
  {
    assert Trim("") == "";
  }

  lemma StepKeepsRecorded(s: System, step: Step)
    requires Recorded(s) && Compatible(s.issued)
    requires Granted(s, step, true)
    ensures Recorded(Next(s, step)) && Compatible(Next(s, step).issued)
  {
    if step.DoExchange? {
      if ReadCode(s.relay, step.code, step.body, step.now).None? {
        ExchangeKeepsRecorded(s, step);
      }
    } else {
      OtherStepsKeepOrigins(s.relay, step);
    }
  }

  lemma ExchangeKeepsRecorded(s: System, step: Step)
    requires Recorded(s) && Compatible(s.issued)
    requires Granted(s, step, true)
    requires step.DoExchange? && ReadCode(s.relay, step.code, step.body, step.now).None?
    ensures Recorded(Next(s, step)) && Compatible(Next(s, step).issued)
  {
    var code := s.relay.codes[step.code];
    var body := step.body;
    ChosenIsFreeOrConsistent(s, code, body, step.picks, step.minted);
    var row := Row(code.user, ChooseClientId(s.relay.clients, code, body, step.picks, step.minted));
    if body.origin != "" {
      NewOriginFits(s, row, body.origin);
    }
    var marked := MarkUsed(s.relay, step.code);
    ExchangeOrigins(marked, code, body, step.picks, step.minted);
    var relay := Complete(marked, code, body, step.picks, step.minted);
    assert Next(s, step) == System(relay, s.issued + [Issue(row, body.origin)]);
    IssueKeepsRecorded(s, relay, Issue(row, body.origin));
  }

  lemma NewOriginFits(s: System, row: Row, origin: string)
    requires Recorded(s) && origin != ""
    requires row in s.relay.clients ==> Fits(s.relay.clients[row], origin)
    requires row !in s.relay.clients ==> FitsHistory(s.issued, row, origin)
    ensures FitsHistory(s.issued, row, origin)
  {
    if row in s.relay.clients {
      FittingTurns(s.relay.clients[row], origin);
      forall i | 0 <= i < |s.issued| && s.issued[i].row == row && s.issued[i].origin != ""
        ensures MayTurnInto(s.issued[i].origin, origin)
      {
        TurnsCompose(s.issued[i].origin, s.relay.clients[row].publicUrl.Value(), origin);
      }
    }
  }

  /** Issuing a clientId to an origin that fits its history, and recording that origin. */
  lemma IssueKeepsRecorded(s: System, relay: Relay, issue: Issue)
    requires Recorded(s) && Compatible(s.issued)
    requires issue.origin != "" || issue.row !in s.relay.clients ==> FitsHistory(s.issued, issue.row, issue.origin)
    requires relay.clients.Keys == s.relay.clients.Keys + {issue.row}
    requires relay.clients[issue.row].publicUrl ==
             Preserve(NullIfEmpty(issue.origin),
                      if issue.row in s.relay.clients then s.relay.clients[issue.row].publicUrl
                      else NullIfEmpty(issue.origin))
    requires forall other | other in s.relay.clients && other != issue.row ::
               relay.clients[other] == s.relay.clients[other]
    ensures Recorded(System(relay, s.issued + [issue])) && Compatible(s.issued + [issue])
  {
  }

  // ---- The theorem ----

  lemma {:induction false} RunKeepsRecorded(s: System, steps: seq<Step>)
    requires Recorded(s) && Compatible(s.issued)
    requires GrantedRun(s, steps)
    ensures Recorded(Runs(s, steps)) && Compatible(Runs(s, steps).issued)
    decreases |steps|
  {
    if steps != [] {
      StepKeepsRecorded(s, steps[0]);
      RunKeepsRecorded(Next(s, steps[0]), steps[1..]);
    }
  }

  /** From any tables at all, over any run of any handlers, whatever the origins. */
  lemma OriginsStayCompatible(r: Relay, steps: seq<Step>)
    requires GrantedRun(System(r, []), steps)
    ensures Compatible(Runs(System(r, []), steps).issued)
  {
    RunKeepsRecorded(System(r, []), steps);
  }

  lemma {:induction false} IssuesAreTrimmed(s: System, steps: seq<Step>)
    requires TrimmedOrigins(steps) && forall i | 0 <= i < |s.issued| :: Trimmed(s.issued[i].origin)
    ensures forall i | 0 <= i < |Runs(s, steps).issued| :: Trimmed(Runs(s, steps).issued[i].origin)
    decreases |steps|
  {
    if steps != [] {
      assert forall i | 0 <= i < |steps[1..]| :: steps[1..][i] == steps[i + 1];
      IssuesAreTrimmed(Next(s, steps[0]), steps[1..]);
    }
  }

  /** Origins without surrounding blanks are compatible only with themselves. */
  lemma OriginsStaySeparated(r: Relay, steps: seq<Step>)
    requires GrantedRun(System(r, []), steps) && TrimmedOrigins(steps)
    ensures Separated(Runs(System(r, []), steps).issued)
  {
    OriginsStayCompatible(r, steps);
    IssuesAreTrimmed(System(r, []), steps);
    TrimmedAreSeparated(Runs(System(r, []), steps).issued);
  }

  lemma TrimmedAreSeparated(issued: seq<Issue>)
    requires Compatible(issued) && forall i | 0 <= i < |issued| :: Trimmed(issued[i].origin)
    ensures Separated(issued)
  {
    forall i | 0 <= i < |issued| ensures Trim(issued[i].origin) == issued[i].origin {
      TrimTrimmed(issued[i].origin);
    }
  }

  // ---- The guard is exactly what the add-browser branch misses ----

  lemma {:induction false} RunKeepsWitnessed(s: System, steps: seq<Step>)
    requires Witnessed(s)
    ensures Witnessed(Runs(s, steps))
    decreases |steps|
  {
    if steps != [] {
      StepKeepsWitnessed(s, steps[0]);
      RunKeepsWitnessed(Next(s, steps[0]), steps[1..]);
    }
  }

  lemma StepKeepsWitnessed(s: System, step: Step)
    requires Witnessed(s)
    ensures Witnessed(Next(s, step))
  {
    var s' := Next(s, step);
    forall row | row in s'.relay.clients && s'.relay.clients[row].publicUrl.Value() != ""
      ensures exists i :: 0 <= i < |s'.issued| && s'.issued[i] == Issue(row, s'.relay.clients[row].publicUrl.s)
    {
      if step.DoExchange? && ReadCode(s.relay, step.code, step.body, step.now).None? {
        var code := s.relay.codes[step.code];
        ExchangeOrigins(MarkUsed(s.relay, step.code), code, step.body, step.picks, step.minted);
        if row.client == ChooseClientId(s.relay.clients, code, step.body, step.picks, step.minted)
           && row.user == code.user && step.body.origin != "" {
          assert s'.issued[|s.issued|] == Issue(row, step.body.origin);
        } else {
          WitnessCarries(s, s', row);
        }
      } else {
        if !step.DoExchange? {
          OtherStepsKeepOrigins(s.relay, step);
        }
        WitnessCarries(s, s', row);
      }
    }
  }

  lemma WitnessCarries(s: System, s': System, row: Row)
    requires Witnessed(s)
    requires s.issued <= s'.issued
    requires row in s'.relay.clients && row in s.relay.clients
    requires s'.relay.clients[row].publicUrl == s.relay.clients[row].publicUrl
    requires s.relay.clients[row].publicUrl.Value() != ""
    ensures exists i :: 0 <= i < |s'.issued| && s'.issued[i] == Issue(row, s'.relay.clients[row].publicUrl.s)
  {
    var i :| 0 <= i < |s.issued| && s.issued[i] == Issue(row, s.relay.clients[row].publicUrl.s);
    assert s'.issued[i] == s.issued[i];
  }

  /** After any granted run from empty tables, one more "add browser" exchange keeps the origins
      compatible if and only if its origin fits the bound world or, when that world has been deleted,
      its history: the check that the other branches make and this one skips. */
  lemma AddBrowserExact(steps: seq<Step>, step: Step)
    requires GrantedRun(System(EMPTY_RELAY, []), steps)
    requires step.DoExchange?
    requires var s := Runs(System(EMPTY_RELAY, []), steps);
             && Granted(s, step, false)
             && ReadCode(s.relay, step.code, step.body, step.now).None?
             && IsAddBrowser(s.relay.codes[step.code])
    ensures var s := Runs(System(EMPTY_RELAY, []), steps);
            var row := Row(s.relay.codes[step.code].user, s.relay.codes[step.code].bound.s);
            Compatible(Next(s, step).issued)
            <==> if row in s.relay.clients then Fits(s.relay.clients[row], step.body.origin)
                 else step.body.origin == "" || FitsHistory(s.issued, row, step.body.origin)
  {
    var s0 := System(EMPTY_RELAY, []);
    var s := Runs(s0, steps);
    RunKeepsRecorded(s0, steps);
    RunKeepsWitnessed(s0, steps);
    AddBrowserStep(s, step);
  }

  lemma AddBrowserStep(s: System, step: Step)
    requires Recorded(s) && Compatible(s.issued) && Witnessed(s)
    requires step.DoExchange? && Granted(s, step, false)
    requires ReadCode(s.relay, step.code, step.body, step.now).None? && IsAddBrowser(s.relay.codes[step.code])
    ensures var row := Row(s.relay.codes[step.code].user, s.relay.codes[step.code].bound.s);
            Compatible(Next(s, step).issued)
            <==> if row in s.relay.clients then Fits(s.relay.clients[row], step.body.origin)
                 else step.body.origin == "" || FitsHistory(s.issued, row, step.body.origin)
  {
    var code := s.relay.codes[step.code];
    var row := Row(code.user, code.bound.s);
    var issued, last := Next(s, step).issued, |s.issued|;
    assert issued == s.issued + [Issue(row, step.body.origin)];
    if BrowserAtHome(s, code, step.body.origin) {
      StepKeepsRecorded(s, step);
    } else if row in s.relay.clients {
      var stored := s.relay.clients[row].publicUrl.s;
      assert Trim("") == "";
      var i :| 0 <= i < |s.issued| && s.issued[i] == Issue(row, stored);
      assert issued[i] == Issue(row, stored) && issued[last] == Issue(row, step.body.origin);
    } else if step.body.origin != "" {
      var i :| 0 <= i < |s.issued| && s.issued[i].row == row && s.issued[i].origin != ""
               && !MayTurnInto(s.issued[i].origin, step.body.origin);
      assert issued[i] == s.issued[i] && issued[last] == Issue(row, step.body.origin);
    }
  }

  // ---- Every origin that may turn into another does so in some run ----

  const ROW := Row(1, "fvtt_a")
  const NO_PICKS := Picks(None, None, None)

  /** One world is paired from `a`. */
  function FirstPairing(a: string): seq<Step> {
    [DoGenerate(1, "", "A", 0), DoExchange("A", PairBody("w", "", "", "", a), NO_PICKS, "fvtt_a", 1)]
  }

  /** It pairs again from `b`, naming itself. */
  function SecondPairing(a: string, b: string): seq<Step> {
    var picks := Picks(None, if a == b then Some(ROW) else None, Some(ROW));
    [DoGenerate(1, "", "B", 2), DoExchange("B", PairBody("w", "", "", "fvtt_a", b), picks, "fvtt_b", 3)]
  }

  /** A code is bound to it, it is deleted, and the code is exchanged from `b`. */
  function BoundPairing(b: string): seq<Step> {
    [DoGenerate(1, "fvtt_a", "B", 2), DoDelete(1, ROW),
     DoExchange("B", PairBody("w", "", "", "", b), NO_PICKS, "fvtt_b", 3)]
  }

  /** The tables after the first pairing. */
  function PairedFrom(a: string): System {
    System(Relay(map[ROW := KnownClient(Str("w"), Null, Null, Str(a), Str(""), Str(""), 0)],
                 map["A" := PairingCode(1, Null, Null, Null, 0, DASHBOARD_CODE_SECONDS, true)],
                 [Token(1, "fvtt_a")], map[]),
           [Issue(ROW, a)])
  }

  lemma TwoSteps(s: System, x: Step, y: Step)
    ensures Runs(s, [x, y]) == Next(Next(s, x), y)
    ensures GrantedRun(s, [x, y]) <==> Granted(s, x, true) && Granted(Next(s, x), y, true)
  {
    assert [x, y][1..] == [y] && [y][1..] == [];
    var s', s'' := Next(s, x), Next(Next(s, x), y);
    assert Runs(s'', []) == s'' && GrantedRun(s'', []);
    assert Runs(s', [y]) == s'' && (GrantedRun(s', [y]) <==> Granted(s', y, true));
  }

  lemma {:induction false} RunsAppend(s: System, a: seq<Step>, b: seq<Step>)
    ensures Runs(s, a + b) == Runs(Runs(s, a), b)
    ensures GrantedRun(s, a + b) <==> GrantedRun(s, a) && GrantedRun(Runs(s, a), b)
    decreases |a|
  {
    if a == [] {
      assert a + b == b;
    } else {
      assert (a + b)[1..] == a[1..] + b;
      RunsAppend(Next(s, a[0]), a[1..], b);
    }
  }

  lemma FirstPairingRuns(a: string)
    requires a != ""
    ensures GrantedRun(System(EMPTY_RELAY, []), FirstPairing(a))
    ensures Runs(System(EMPTY_RELAY, []), FirstPairing(a)) == PairedFrom(a)
  {
    var steps := FirstPairing(a);
    TwoSteps(System(EMPTY_RELAY, []), steps[0], steps[1]);
  }

  lemma SecondPairingRuns(a: string, b: string)
    requires a != "" && b != "" && MayTurnInto(a, b)
    ensures GrantedRun(PairedFrom(a), SecondPairing(a, b))
    ensures Runs(PairedFrom(a), SecondPairing(a, b)).issued == [Issue(ROW, a), Issue(ROW, b)]
  {
    var steps := SecondPairing(a, b);
    TwoSteps(PairedFrom(a), steps[0], steps[1]);
  }

  lemma BoundPairingRuns(a: string, b: string)
    requires a != ""
    ensures GrantedRun(PairedFrom(a), BoundPairing(b)[..2])
    ensures var s := Runs(PairedFrom(a), BoundPairing(b)[..2]);
            && s.issued == [Issue(ROW, a)] && s.relay.clients == map[]
            && "B" in s.relay.codes && s.relay.codes["B"] == BOUND_CODE
  {
    var steps := BoundPairing(b);
    assert steps[..2] == [steps[0], steps[1]];
    TwoSteps(PairedFrom(a), steps[0], steps[1]);
  }

  const BOUND_CODE := PairingCode(1, Str("fvtt_a"), Null, Null, 0, 2 + DASHBOARD_CODE_SECONDS, false)

  lemma BoundExchange(s: System, a: string, b: string)
    requires s.issued == [Issue(ROW, a)] && s.relay.clients == map[]
    requires "B" in s.relay.codes && s.relay.codes["B"] == BOUND_CODE
    ensures Granted(s, BoundPairing(b)[2], false)
    ensures Next(s, BoundPairing(b)[2]).issued == [Issue(ROW, a), Issue(ROW, b)]
  {
  }

  /** In some granted run one account's clientId goes to `a` and later to `b`. */
  ghost predicate Turns(a: string, b: string) {
    exists steps, i, j ::
      && GrantedRun(System(EMPTY_RELAY, []), steps)
      && 0 <= i < j < |Runs(System(EMPTY_RELAY, []), steps).issued|
      && Runs(System(EMPTY_RELAY, []), steps).issued[i].row == Runs(System(EMPTY_RELAY, []), steps).issued[j].row
      && Runs(System(EMPTY_RELAY, []), steps).issued[i].origin == a
      && Runs(System(EMPTY_RELAY, []), steps).issued[j].origin == b
  }

  /** Exactly which origins can share a clientId: equal ones, and a blank or blank-padded one with
      what the trimming of its stored copy makes of it. */
  lemma OriginTurnsExact(a: string, b: string)
    requires a != "" && b != ""
    ensures Turns(a, b) <==> MayTurnInto(a, b)
  {
    var s0 := System(EMPTY_RELAY, []);
    if MayTurnInto(a, b) {
      var first, second := FirstPairing(a), SecondPairing(a, b);
      FirstPairingRuns(a);
      SecondPairingRuns(a, b);
      RunsAppend(s0, first, second);
      var issued := Runs(s0, first + second).issued;
      assert 0 <= 0 < 1 < |issued| && issued[0].row == issued[1].row && issued[0].origin == a && issued[1].origin == b;
    }
    forall steps | GrantedRun(s0, steps) ensures Compatible(Runs(s0, steps).issued) {
      OriginsStayCompatible(EMPTY_RELAY, steps);
    }
  }

  /** So origins with surrounding blanks do break separation. */
  lemma BlanksBreakSeparation()
    ensures exists steps ::
              GrantedRun(System(EMPTY_RELAY, []), steps) && !Separated(Runs(System(EMPTY_RELAY, []), steps).issued)
  {
    assert Trim(" x") == "x" by {
      assert TrimLeft(" x") == TrimLeft(" x"[1..]) == "x";
    }
    OriginTurnsExact(" x", "x");
  }

  /** And a code bound to a world that has been deleted hands its clientId to any origin at all. */
  lemma DeletedWorldReturnsAnywhere(a: string, b: string)
    requires a != ""
    ensures var steps := FirstPairing(a) + BoundPairing(b)[..2];
            var s := Runs(System(EMPTY_RELAY, []), steps);
            && GrantedRun(System(EMPTY_RELAY, []), steps)
            && Granted(s, BoundPairing(b)[2], false)
            && Next(s, BoundPairing(b)[2]).issued == [Issue(ROW, a), Issue(ROW, b)]
  {
    var s0 := System(EMPTY_RELAY, []);
    FirstPairingRuns(a);
    BoundPairingRuns(a, b);
    RunsAppend(s0, FirstPairing(a), BoundPairing(b)[..2]);
    BoundExchange(Runs(PairedFrom(a), BoundPairing(b)[..2]), a, b);
  }
}

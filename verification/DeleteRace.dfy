/** POST /auth/pair against DELETE /auth/known-clients/:id, store access by store access: a pairing
    that has claimed its code stores its token, then its world, then the world's settings; a deletion
    finds its world, then removes its tokens, then its row, then its id from the siblings. Between them
    any other access may run. */
module DeleteRace {
  import opened Wrappers
  import opened Text
  import opened Stores
  import opened Handlers
  import opened Permissions
  import PairRace

  // ---- The accesses ----

  function StoreToken(r: Relay, row: Row): Relay {
    r.(tokens := r.tokens + [Token(row.user, row.client)])
  }

  function StoreWorld(r: Relay, row: Row, code: PairingCode, body: PairBody): Relay {
    r.(clients := Upsert(r.clients, row, Metadata(code, body)))
  }

  function StoreSettings(r: Relay, row: Row, code: PairingCode): Relay {
    if code.targets.Str? || code.scopes.Str?
    then r.(clients := SetCrossWorldSettings(r.clients, row, code.targets, code.scopes, code.rate)) else r
  }

  function RemoveTokens(r: Relay, row: Row): Relay {
    r.(tokens := DropTokens(r.tokens, Token(row.user, row.client)))
  }

  function RemoveRow(r: Relay, row: Row): Relay {
    r.(clients := r.clients - {row})
  }

  function RemoveFromSiblings(r: Relay, row: Row): Relay {
    r.(clients := Siblings(r.clients, row.user, row.client))
  }

  /** The one-step forms of the other modules are these accesses in a row. */
  lemma AccessesInARow(r: Relay, code: PairingCode, body: PairBody, picks: Picks, minted: string, row: Row)
    ensures var chosen := Row(code.user, ChooseClientId(r.clients, code, body, picks, minted));
            Complete(r, code, body, picks, minted)
            == StoreSettings(StoreWorld(StoreToken(r, chosen), chosen, code, body), chosen, code)
    ensures row in r.clients ==>
              Delete(r, row.user, row).relay == RemoveFromSiblings(RemoveRow(RemoveTokens(r, row), row), row)
  {
  }

  // ---- Interleavings ----

  datatype PairPhase = HasCode | HasToken(client: string) | HasWorld(client: string) | Configured(client: string)

  datatype Pairing = Pairing(code: PairingCode, body: PairBody, phase: PairPhase)

  datatype DeletePhase = Asked | Found | TokensGone | RowGone | Deleted

  datatype Deletion = Deletion(row: Row, phase: DeletePhase)

  /** What happened to tokens and rows, for the record. */
  datatype Event =
    | Issued(pairing: nat, row: Row)
    | Registered(pairing: nat, row: Row)
    | TokensDropped(deletion: nat, row: Row)
    | RowDropped(deletion: nat, row: Row)

  datatype Race = Race(relay: Relay, pairings: seq<Pairing>, deletions: seq<Deletion>, log: seq<Event>)

  /** `Issue` carries the clientId that the lookups chose, whenever they ran and whatever they saw. */
  datatype Action =
    | Issue(i: nat, client: string)
    | Register(i: nat)
    | Configure(i: nat)
    | Find(j: nat)
    | DropTheTokens(j: nat)
    | DropTheRow(j: nat)
    | Revoke(j: nat)
    | Other(step: Step)

  function PairingMoves(s: Race, i: nat, relay: Relay, phase: PairPhase, log: seq<Event>): Race
    requires i < |s.pairings|
  {
    Race(relay, s.pairings[i := s.pairings[i].(phase := phase)], s.deletions, s.log + log)
  }

  function DeletionMoves(s: Race, j: nat, relay: Relay, phase: DeletePhase, log: seq<Event>): Race
    requires j < |s.deletions|
  {
    Race(relay, s.pairings, s.deletions[j := s.deletions[j].(phase := phase)], s.log + log)
  }

  function Act(s: Race, action: Action): Race {
    match action
    case Issue(i, client) =>
      if i < |s.pairings| && s.pairings[i].phase.HasCode? then
        var row := Row(s.pairings[i].code.user, client);
        PairingMoves(s, i, StoreToken(s.relay, row), HasToken(client), [Issued(i, row)])
      else s
    case Register(i) =>
      if i < |s.pairings| && s.pairings[i].phase.HasToken? then
        var p := s.pairings[i];
        var row := Row(p.code.user, p.phase.client);
        PairingMoves(s, i, StoreWorld(s.relay, row, p.code, p.body), HasWorld(p.phase.client), [Registered(i, row)])
      else s
    case Configure(i) =>
      if i < |s.pairings| && s.pairings[i].phase.HasWorld? then
        var p := s.pairings[i];
        var relay := StoreSettings(s.relay, Row(p.code.user, p.phase.client), p.code);
        PairingMoves(s, i, relay, Configured(p.phase.client), [])
      else s
    case Find(j) =>
      if j < |s.deletions| && s.deletions[j].phase.Asked? && s.deletions[j].row in s.relay.clients
      then DeletionMoves(s, j, s.relay, Found, []) else s
    case DropTheTokens(j) =>
      if j < |s.deletions| && s.deletions[j].phase.Found? then
        var row := s.deletions[j].row;
        DeletionMoves(s, j, RemoveTokens(s.relay, row), TokensGone, [TokensDropped(j, row)])
      else s
    case DropTheRow(j) =>
      if j < |s.deletions| && s.deletions[j].phase.TokensGone? then
        var row := s.deletions[j].row;
        DeletionMoves(s, j, RemoveRow(s.relay, row), RowGone, [RowDropped(j, row)])
      else s
    case Revoke(j) =>
      if j < |s.deletions| && s.deletions[j].phase.RowGone?
      then DeletionMoves(s, j, RemoveFromSiblings(s.relay, s.deletions[j].row), Deleted, []) else s
    case Other(step) =>
      if step.DoExchange? || step.DoDelete? then s else s.(relay := Apply(s.relay, step).relay)
  }

  function Play(s: Race, actions: seq<Action>): Race
    decreases |actions|
  {
    if actions == [] then s else Play(Act(s, actions[0]), actions[1..])
  }

  ghost predicate Starting(s: Race) {
    && (forall i | 0 <= i < |s.pairings| :: s.pairings[i].phase.HasCode?)
    && (forall j | 0 <= j < |s.deletions| :: s.deletions[j].phase.Asked?)
    && s.log == []
  }

  /** No pairing is left between its token and its world. */
  ghost predicate Settled(s: Race) {
    forall i | 0 <= i < |s.pairings| :: !s.pairings[i].phase.HasToken?
  }

  // ---- The tables follow from the log ----

  function TokenIn(before: bool, log: seq<Event>, row: Row): bool {
    if log == [] then before
    else
      match log[|log| - 1]
      case Issued(_, r) => r == row || TokenIn(before, log[..|log| - 1], row)
      case TokensDropped(_, r) => r != row && TokenIn(before, log[..|log| - 1], row)
      case _ => TokenIn(before, log[..|log| - 1], row)
  }

  function RowIn(before: bool, log: seq<Event>, row: Row): bool {
    if log == [] then before
    else
      match log[|log| - 1]
      case Registered(_, r) => r == row || RowIn(before, log[..|log| - 1], row)
      case RowDropped(_, r) => r != row && RowIn(before, log[..|log| - 1], row)
      case _ => RowIn(before, log[..|log| - 1], row)
  }

  function HasTokenFor(r: Relay, row: Row): bool {
    Token(row.user, row.client) in r.tokens
  }

  ghost predicate TablesFollow(r0: Relay, s: Race) {
    forall row: Row ::
      && (HasTokenFor(s.relay, row) <==> TokenIn(HasTokenFor(r0, row), s.log, row))
      && (row in s.relay.clients <==> RowIn(row in r0.clients, s.log, row))
  }

  ghost predicate RegisteredAfter(log: seq<Event>, k: int, pairing: nat, row: Row) {
    exists m :: 0 <= m && k < m < |log| && log[m] == Registered(pairing, row)
  }

  /** Every issue belongs to a pairing that has its token and, unless it is still on its way to it,
      registered its world later. */
  ghost predicate PairingsFollow(s: Race) {
    forall k | 0 <= k < |s.log| && s.log[k].Issued? ::
      var i := s.log[k].pairing;
      && i < |s.pairings| && !s.pairings[i].phase.HasCode?
      && s.log[k].row == Row(s.pairings[i].code.user, s.pairings[i].phase.client)
      && (!s.pairings[i].phase.HasToken? ==> RegisteredAfter(s.log, k, i, s.log[k].row))
  }

  ghost predicate DroppedBefore(log: seq<Event>, l: int, deletion: nat, row: Row) {
    exists m :: 0 <= m < l && m < |log| && log[m] == TokensDropped(deletion, row)
  }

  /** A deletion removes its tokens before its row. */
  ghost predicate DeletionsFollow(s: Race) {
    && (forall j: nat | j < |s.deletions| && s.deletions[j].phase.TokensGone? ::
          DroppedBefore(s.log, |s.log|, j, s.deletions[j].row))
    && (forall l | 0 <= l < |s.log| && s.log[l].RowDropped? ::
          DroppedBefore(s.log, l, s.log[l].deletion, s.log[l].row))
  }

  ghost predicate Follows(r0: Relay, s: Race) {
    TablesFollow(r0, s) && PairingsFollow(s) && DeletionsFollow(s)
  }

  lemma OtherKeepsKeys(r: Relay, step: Step)
    requires !step.DoExchange? && !step.DoDelete?
    ensures Apply(r, step).relay.tokens == r.tokens && Apply(r, step).relay.clients.Keys == r.clients.Keys
  {
  }

  /** What each access does to tokens and rows. */
  lemma AccessesOnTables(r: Relay, row: Row, other: Row, code: PairingCode, body: PairBody)
    ensures HasTokenFor(StoreToken(r, row), other) <==> other == row || HasTokenFor(r, other)
    ensures HasTokenFor(RemoveTokens(r, row), other) <==> other != row && HasTokenFor(r, other)
    ensures StoreWorld(r, row, code, body).clients.Keys == r.clients.Keys + {row}
    ensures StoreSettings(r, row, code).clients.Keys == r.clients.Keys
    ensures RemoveFromSiblings(r, row).clients.Keys == r.clients.Keys
  {
    DropTokensMember(r.tokens, Token(row.user, row.client), Token(other.user, other.client));
  }

  lemma ActKeepsTables(r0: Relay, s: Race, action: Action)
    requires TablesFollow(r0, s)
    ensures TablesFollow(r0, Act(s, action))
  {
    var s' := Act(s, action);
    forall row: Row
      ensures HasTokenFor(s'.relay, row) <==> TokenIn(HasTokenFor(r0, row), s'.log, row)
      ensures row in s'.relay.clients <==> RowIn(row in r0.clients, s'.log, row)
    {
      TablesStep(r0, s, action, row);
    }
  }

  /** An event, if any, and the tables that go with it. */
  lemma EventStep(r0: Relay, s: Race, relay: Relay, log: seq<Event>, row: Row)
    requires TablesFollow(r0, s) && |log| <= 1
    requires HasTokenFor(relay, row) <==>
               if log != [] && log[0].Issued? && log[0].row == row then true
               else if log != [] && log[0].TokensDropped? && log[0].row == row then false
               else HasTokenFor(s.relay, row)
    requires row in relay.clients <==>
               if log != [] && log[0].Registered? && log[0].row == row then true
               else if log != [] && log[0].RowDropped? && log[0].row == row then false
               else row in s.relay.clients
    ensures HasTokenFor(relay, row) <==> TokenIn(HasTokenFor(r0, row), s.log + log, row)
    ensures row in relay.clients <==> RowIn(row in r0.clients, s.log + log, row)
  {
    if log == [] {
      assert s.log + log == s.log;
    } else {
      assert (s.log + log)[..|s.log|] == s.log;
    }
  }

  lemma TablesStep(r0: Relay, s: Race, action: Action, row: Row)
    requires TablesFollow(r0, s)
    ensures var s' := Act(s, action);
            && (HasTokenFor(s'.relay, row) <==> TokenIn(HasTokenFor(r0, row), s'.log, row))
            && (row in s'.relay.clients <==> RowIn(row in r0.clients, s'.log, row))
  {
    var s' := Act(s, action);
    if action.Other? {
      if !action.step.DoExchange? && !action.step.DoDelete? {
        OtherKeepsKeys(s.relay, action.step);
      }
    } else if action.Issue? || action.Register? || action.Configure? {
      PairingStep(r0, s, action, row);
    } else {
      DeletionStep(r0, s, action, row);
    }
  }

  lemma PairingStep(r0: Relay, s: Race, action: Action, row: Row)
    requires TablesFollow(r0, s) && (action.Issue? || action.Register? || action.Configure?)
    ensures var s' := Act(s, action);
            && (HasTokenFor(s'.relay, row) <==> TokenIn(HasTokenFor(r0, row), s'.log, row))
            && (row in s'.relay.clients <==> RowIn(row in r0.clients, s'.log, row))
  {
    var s' := Act(s, action);
    if action.i < |s.pairings| && s' != s {
      var p, p' := s.pairings[action.i], s'.pairings[action.i];
      AccessesOnTables(s.relay, Row(p.code.user, p'.phase.client), row, p.code, p.body);
      var log := s'.log[|s.log|..];
      assert s'.log == s.log + log;
      EventStep(r0, s, s'.relay, log, row);
    }
  }

  lemma DeletionStep(r0: Relay, s: Race, action: Action, row: Row)
    requires TablesFollow(r0, s)
    requires action.Find? || action.DropTheTokens? || action.DropTheRow? || action.Revoke?
    ensures var s' := Act(s, action);
            && (HasTokenFor(s'.relay, row) <==> TokenIn(HasTokenFor(r0, row), s'.log, row))
            && (row in s'.relay.clients <==> RowIn(row in r0.clients, s'.log, row))
  {
    var s' := Act(s, action);
    if action.j < |s.deletions| && s' != s {
      AccessesOnTables(s.relay, s.deletions[action.j].row, row, BLANK_CODE, BLANK_BODY);
      var log := s'.log[|s.log|..];
      assert s'.log == s.log + log;
      EventStep(r0, s, s'.relay, log, row);
    }
  }

  const BLANK_CODE := PairingCode(0, Null, Null, Null, 0, 0, false)
  const BLANK_BODY := PairBody("", "", "", "", "")

  lemma ActKeepsPairings(s: Race, action: Action)
    requires PairingsFollow(s)
    ensures PairingsFollow(Act(s, action))
  {
    var s' := Act(s, action);
    forall k | 0 <= k < |s'.log| && s'.log[k].Issued?
      ensures var i := s'.log[k].pairing;
              && i < |s'.pairings| && !s'.pairings[i].phase.HasCode?
              && s'.log[k].row == Row(s'.pairings[i].code.user, s'.pairings[i].phase.client)
              && (!s'.pairings[i].phase.HasToken? ==> RegisteredAfter(s'.log, k, i, s'.log[k].row))
    {
      if k < |s.log| {
        var i, row := s.log[k].pairing, s.log[k].row;
        assert s'.log[k] == s.log[k];
        if RegisteredAfter(s.log, k, i, row) {
          var m :| k < m < |s.log| && s.log[m] == Registered(i, row);
          assert s'.log[m] == Registered(i, row);
        } else if action == Register(i) {
          assert s'.log[|s.log|] == Registered(i, row);
        }
      }
    }
  }

  lemma ActKeepsDeletions(s: Race, action: Action)
    requires DeletionsFollow(s)
    ensures DeletionsFollow(Act(s, action))
  {
    var s' := Act(s, action);
    forall j: nat | j < |s'.deletions| && s'.deletions[j].phase.TokensGone?
      ensures DroppedBefore(s'.log, |s'.log|, j, s'.deletions[j].row)
    {
      if action == DropTheTokens(j) && s.deletions[j].phase.Found? {
        assert s'.log[|s.log|] == TokensDropped(j, s'.deletions[j].row);
      } else {
        StaysDropped(s.log, s'.log, |s.log|, j, s.deletions[j].row);
      }
    }
    forall l | 0 <= l < |s'.log| && s'.log[l].RowDropped?
      ensures DroppedBefore(s'.log, l, s'.log[l].deletion, s'.log[l].row)
    {
      StaysDropped(s.log, s'.log, l, s'.log[l].deletion, s'.log[l].row);
    }
  }

  lemma StaysDropped(log: seq<Event>, longer: seq<Event>, l: int, deletion: nat, row: Row)
    requires log <= longer && DroppedBefore(log, l, deletion, row)
    ensures forall n | n >= l :: DroppedBefore(longer, n, deletion, row)
  {
    var m :| 0 <= m < l && m < |log| && log[m] == TokensDropped(deletion, row);
    assert longer[m] == TokensDropped(deletion, row);
  }

  lemma {:induction false} PlayFollows(r0: Relay, s: Race, actions: seq<Action>)
    requires Follows(r0, s)
    ensures Follows(r0, Play(s, actions))
    decreases |actions|
  {
    if actions != [] {
      ActKeepsTables(r0, s, actions[0]);
      ActKeepsPairings(s, actions[0]);
      ActKeepsDeletions(s, actions[0]);
      PlayFollows(r0, Act(s, actions[0]), actions[1..]);
    }
  }

  // ---- Reading the log ----

  /** No deletion removes the row's tokens from place `k` on. */
  ghost predicate TokensSafe(log: seq<Event>, k: int, row: Row) {
    forall m | 0 <= m < |log| && k <= m :: !(log[m].TokensDropped? && log[m].row == row)
  }

  /** No pairing registers the row from place `k` on. */
  ghost predicate RowQuiet(log: seq<Event>, k: int, row: Row) {
    forall m | 0 <= m < |log| && k <= m :: !(log[m].Registered? && log[m].row == row)
  }

  ghost predicate LastIssue(log: seq<Event>, j: int, row: Row) {
    0 <= j < |log| && log[j].Issued? && log[j].row == row && TokensSafe(log, j, row)
  }

  ghost predicate LastDrop(log: seq<Event>, l: int, row: Row) {
    0 <= l < |log| && log[l].RowDropped? && log[l].row == row && RowQuiet(log, l, row)
  }

  lemma {:induction false} TokenInMeans(before: bool, log: seq<Event>, row: Row)
    ensures TokenIn(before, log, row) <==> (before && TokensSafe(log, 0, row)) || exists j :: LastIssue(log, j, row)
  {
    if log != [] {
      var n := |log| - 1;
      var front := log[..n];
      TokenInMeans(before, front, row);
      assert log == front + [log[n]];
      if log[n].Issued? && log[n].row == row {
        assert LastIssue(log, n, row);
      } else if !(log[n].TokensDropped? && log[n].row == row) {
        forall j ensures LastIssue(log, j, row) <==> LastIssue(front, j, row) {
        }
        assert TokensSafe(log, 0, row) <==> TokensSafe(front, 0, row);
      }
    }
  }

  lemma {:induction false} RowInMeans(before: bool, log: seq<Event>, row: Row)
    ensures !RowIn(before, log, row) <==> (!before && RowQuiet(log, 0, row)) || exists l :: LastDrop(log, l, row)
  {
    if log != [] {
      var n := |log| - 1;
      var front := log[..n];
      RowInMeans(before, front, row);
      assert log == front + [log[n]];
      if log[n].RowDropped? && log[n].row == row {
        assert LastDrop(log, n, row);
      } else if !(log[n].Registered? && log[n].row == row) {
        forall l ensures LastDrop(log, l, row) <==> LastDrop(front, l, row) {
        }
        assert RowQuiet(log, 0, row) <==> RowQuiet(front, 0, row);
      }
    }
  }

  // ---- The theorem ----

  /** A pairing stores its token and its world between the two removals of one deletion of that world,
      and afterwards no deletion removes its tokens again and no pairing registers it again. */
  ghost predicate Straddled(log: seq<Event>, row: Row, i: int, j: int, k: int, l: int) {
    && 0 <= i < j < k < l < |log|
    && log[i].TokensDropped? && log[i].row == row
    && LastIssue(log, j, row)
    && log[k] == Registered(log[j].pairing, row)
    && log[l] == RowDropped(log[i].deletion, row)
    && LastDrop(log, l, row)
  }

  ghost predicate SomeStraddled(log: seq<Event>) {
    exists row, i, j, k, l :: Straddled(log, row, i, j, k, l)
  }

  lemma DanglingIsStraddled(r0: Relay, s: Race, row: Row)
    requires PairRace.TokensLive(r0) && Follows(r0, s) && Settled(s)
    requires HasTokenFor(s.relay, row) && row !in s.relay.clients
    ensures SomeStraddled(s.log)
  {
    TokenInMeans(HasTokenFor(r0, row), s.log, row);
    RowInMeans(row in r0.clients, s.log, row);
    if j :| LastIssue(s.log, j, row) {
      assert RegisteredAfter(s.log, j, s.log[j].pairing, row);
      var k :| j < k < |s.log| && s.log[k] == Registered(s.log[j].pairing, row);
      var l :| LastDrop(s.log, l, row);
      assert DroppedBefore(s.log, l, s.log[l].deletion, row);
      var i :| 0 <= i < l && i < |s.log| && s.log[i] == TokensDropped(s.log[l].deletion, row);
      assert Straddled(s.log, row, i, j, k, l);
    } else {
      assert false;
    }
  }

  lemma StraddledIsDangling(r0: Relay, s: Race, row: Row, i: int, j: int, k: int, l: int)
    requires Follows(r0, s) && Straddled(s.log, row, i, j, k, l)
    ensures !PairRace.TokensLive(s.relay)
  {
    TokenInMeans(HasTokenFor(r0, row), s.log, row);
    RowInMeans(row in r0.clients, s.log, row);
    assert HasTokenFor(s.relay, row) && row !in s.relay.clients;
  }

  /** Over every interleaving of pairings and deletions, access by access, from tables in which every
      token names a known client, and with no pairing left between its token and its world: some token
      names no known client if and only if some pairing falls between a deletion's two removals, and
      nothing later makes up for it. */
  lemma DanglingExact(s: Race, actions: seq<Action>)
    requires Starting(s) && PairRace.TokensLive(s.relay) && Settled(Play(s, actions))
    ensures PairRace.TokensLive(Play(s, actions).relay) <==> !SomeStraddled(Play(s, actions).log)
  {
    var s' := Play(s, actions);
    PlayFollows(s.relay, s, actions);
    if SomeStraddled(s'.log) {
      var row, i, j, k, l :| Straddled(s'.log, row, i, j, k, l);
      StraddledIsDangling(s.relay, s', row, i, j, k, l);
    }
    if !PairRace.TokensLive(s'.relay) {
      var token :| token in s'.relay.tokens && Row(token.user, token.client) !in s'.relay.clients;
      DanglingIsStraddled(s.relay, s', Row(token.user, token.client));
    }
  }

  function OpenDeletion(s: Race): Race {
    Act(Act(s, Find(0)), DropTheTokens(0))
  }

  function WholePairing(s: Race, client: string): Race {
    Act(Act(Act(s, Issue(0, client)), Register(0)), Configure(0))
  }

  function CloseDeletion(s: Race): Race {
    Act(Act(s, DropTheRow(0)), Revoke(0))
  }

  lemma OpenDeletionRuns(s: Race, row: Row)
    requires s.deletions == [Deletion(row, Asked)] && row in s.relay.clients
    ensures OpenDeletion(s).pairings == s.pairings && OpenDeletion(s).deletions == [Deletion(row, TokensGone)]
  {
    var s' := Act(s, Find(0));
    assert s'.deletions == [Deletion(row, Found)];
  }

  lemma WholePairingRuns(s: Race, code: PairingCode, body: PairBody, row: Row)
    requires s.pairings == [Pairing(code, body, HasCode)] && code.user == row.user
    ensures var s' := WholePairing(s, row.client);
            && s'.deletions == s.deletions && s'.pairings == [Pairing(code, body, Configured(row.client))]
            && HasTokenFor(s'.relay, row)
  {
    var issued := Act(s, Issue(0, row.client));
    AccessesOnTables(s.relay, row, row, code, body);
    assert issued.pairings == [Pairing(code, body, HasToken(row.client))] && HasTokenFor(issued.relay, row);
    var registered := Act(issued, Register(0));
    assert registered.pairings == [Pairing(code, body, HasWorld(row.client))];
  }

  lemma CloseDeletionRuns(s: Race, row: Row)
    requires s.deletions == [Deletion(row, TokensGone)]
    ensures var s' := CloseDeletion(s);
            && s'.pairings == s.pairings && s'.deletions == [Deletion(row, Deleted)]
            && s'.relay.tokens == s.relay.tokens && row !in s'.relay.clients
  {
    var s' := Act(s, DropTheRow(0));
    assert s'.deletions == [Deletion(row, RowGone)];
  }

  /** Such an interleaving, for any living world and any code of its account: everything runs to the
      end, and the token names no known client. */
  lemma PairingInsideDeletion(r: Relay, code: PairingCode, body: PairBody, row: Row)
    requires row in r.clients && code.user == row.user
    ensures var s := Race(r, [Pairing(code, body, HasCode)], [Deletion(row, Asked)], []);
            var s' := CloseDeletion(WholePairing(OpenDeletion(s), row.client));
            && s'.pairings == [Pairing(code, body, Configured(row.client))]
            && s'.deletions == [Deletion(row, Deleted)]
            && HasTokenFor(s'.relay, row) && row !in s'.relay.clients
  {
    var s := Race(r, [Pairing(code, body, HasCode)], [Deletion(row, Asked)], []);
    OpenDeletionRuns(s, row);
    WholePairingRuns(OpenDeletion(s), code, body, row);
    CloseDeletionRuns(WholePairing(OpenDeletion(s), row.client), row);
  }
}

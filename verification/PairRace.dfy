/** POST /auth/pair under concurrency. Each call is three steps apart: it reads the code, marks it
    used, and creates the token and the world. Between them any other call's step and any other
    handler may run. (DeleteRace takes the last step and deletions apart in turn.) */
module PairRace {
  import opened Wrappers
  import opened Stores
  import opened Handlers
  import opened DeviceFlow
  import opened Permissions

  datatype Phase =
    | Waiting
    | HasRead(code: PairingCode)
    | HasClaimed(code: PairingCode)
    | Finished(client: string)
    | Rejected(http: int)

  datatype Call = Call(code: string, body: PairBody, phase: Phase)

  datatype Race = Race(relay: Relay, calls: seq<Call>)

  datatype Action =
    | Read(i: nat, now: int)
    | Claim(i: nat)
    | Create(i: nat, picks: Picks, minted: string)
    | Other(step: Step)

  /** How MarkUsed treats a code that is used already: the store's UPDATE succeeds all the same
      (`conditional` false); the handler's comment expects it to fail (`conditional` true). */
  function Act(s: Race, action: Action, conditional: bool): Race {
    match action
    case Read(i, now) =>
      if i < |s.calls| && s.calls[i].phase.Waiting? then
        match ReadCode(s.relay, s.calls[i].code, s.calls[i].body, now)
        case Some(http) => Moved(s, i, Rejected(http))
        case None => Moved(s, i, HasRead(s.relay.codes[s.calls[i].code]))
      else s
    case Claim(i) =>
      if i < |s.calls| && s.calls[i].phase.HasRead? then
        var code := s.calls[i].code;
        if conditional && code in s.relay.codes && s.relay.codes[code].used then Moved(s, i, Rejected(409))
        else Moved(s.(relay := MarkUsed(s.relay, code)), i, HasClaimed(s.calls[i].phase.code))
      else s
    case Create(i, picks, minted) =>
      if i < |s.calls| && s.calls[i].phase.HasClaimed? then
        var record := s.calls[i].phase.code;
        var client := ChooseClientId(s.relay.clients, record, s.calls[i].body, picks, minted);
        Moved(s.(relay := Complete(s.relay, record, s.calls[i].body, picks, minted)), i, Finished(client))
      else s
    case Other(step) =>
      if step.DoExchange? then s else s.(relay := Apply(s.relay, step).relay)
  }

  function Moved(s: Race, i: nat, phase: Phase): Race
    requires i < |s.calls|
  {
    s.(calls := s.calls[i := s.calls[i].(phase := phase)])
  }

  function Play(s: Race, actions: seq<Action>, conditional: bool): Race
    decreases |actions|
  {
    if actions == [] then s else Play(Act(s, actions[0], conditional), actions[1..], conditional)
  }

  ghost predicate Starting(s: Race) {
    forall i | 0 <= i < |s.calls| :: s.calls[i].phase.Waiting?
  }

  /** No call is left half way. */
  ghost predicate Settled(s: Race) {
    forall i | 0 <= i < |s.calls| :: s.calls[i].phase.Finished? || s.calls[i].phase.Rejected?
  }

  /** No code has yielded two connection tokens. */
  ghost predicate SingleUse(s: Race) {
    forall i, j | 0 <= i < |s.calls| && 0 <= j < |s.calls| ::
      s.calls[i].phase.Finished? && s.calls[j].phase.Finished? && s.calls[i].code == s.calls[j].code ==> i == j
  }

  /** Two calls have both read a code that neither has marked yet. */
  ghost predicate Crowded(s: Race) {
    exists i, j | 0 <= i < |s.calls| && 0 <= j < |s.calls| ::
      i != j && s.calls[i].phase.HasRead? && s.calls[j].phase.HasRead? && s.calls[i].code == s.calls[j].code
  }

  /** Some call reads a code between another call's read and its mark. */
  ghost predicate GetsCrowded(s: Race, actions: seq<Action>)
    decreases |actions|
  {
    Crowded(s) || (actions != [] && GetsCrowded(Act(s, actions[0], false), actions[1..]))
  }

  // ---- What every interleaving keeps ----

  /** A call past its read holds the code's record, and a call past its mark finds it used. */
  ghost predicate Consistent(s: Race) {
    forall i | 0 <= i < |s.calls| ::
      && (s.calls[i].phase.HasRead? || s.calls[i].phase.HasClaimed? ==>
            && s.calls[i].code in s.relay.codes
            && s.relay.codes[s.calls[i].code].user == s.calls[i].phase.code.user)
      && (s.calls[i].phase.HasClaimed? || s.calls[i].phase.Finished? ==>
            s.calls[i].code in s.relay.codes && s.relay.codes[s.calls[i].code].used)
  }

  lemma ActKeepsCodes(s: Race, action: Action, conditional: bool, code: string)
    requires code in s.relay.codes
    ensures var s' := Act(s, action, conditional);
            && code in s'.relay.codes
            && s'.relay.codes[code].user == s.relay.codes[code].user
            && (s.relay.codes[code].used ==> s'.relay.codes[code].used)
  {
    if action.Other? {
      CodesStay(s.relay, action.step, code);
    }
  }

  lemma ActKeepsConsistent(s: Race, action: Action, conditional: bool)
    requires Consistent(s)
    ensures Consistent(Act(s, action, conditional))
  {
    var s' := Act(s, action, conditional);
    forall i | 0 <= i < |s'.calls|
      ensures s'.calls[i].phase.HasRead? || s'.calls[i].phase.HasClaimed? ==>
                && s'.calls[i].code in s'.relay.codes
                && s'.relay.codes[s'.calls[i].code].user == s'.calls[i].phase.code.user
      ensures s'.calls[i].phase.HasClaimed? || s'.calls[i].phase.Finished? ==>
                s'.calls[i].code in s'.relay.codes && s'.relay.codes[s'.calls[i].code].used
    {
      if s.calls[i].code in s.relay.codes {
        ActKeepsCodes(s, action, conditional, s.calls[i].code);
      }
    }
  }

  // ---- With the store's MarkUsed: single use exactly when reads and marks do not overlap ----

  predicate PastRead(call: Call) {
    call.phase.HasRead? || call.phase.HasClaimed? || call.phase.Finished?
  }

  /** At most one call per code is past its read. */
  ghost predicate Alone(s: Race) {
    forall i, j | 0 <= i < |s.calls| && 0 <= j < |s.calls| ::
      PastRead(s.calls[i]) && PastRead(s.calls[j]) && s.calls[i].code == s.calls[j].code ==> i == j
  }

  lemma ActKeepsAlone(s: Race, action: Action)
    requires Consistent(s) && Alone(s) && !Crowded(Act(s, action, false))
    ensures Alone(Act(s, action, false))
  {
    var s' := Act(s, action, false);
    forall i, j | 0 <= i < |s'.calls| && 0 <= j < |s'.calls| && i != j
      ensures !(PastRead(s'.calls[i]) && PastRead(s'.calls[j]) && s'.calls[i].code == s'.calls[j].code)
    {
      assert s'.calls[i].code == s.calls[i].code && s'.calls[j].code == s.calls[j].code;
    }
  }

  lemma {:induction false} UncrowdedIsSingleUse(s: Race, actions: seq<Action>)
    requires Consistent(s) && Alone(s) && !GetsCrowded(s, actions)
    ensures SingleUse(Play(s, actions, false))
    decreases |actions|
  {
    if actions != [] {
      ActKeepsConsistent(s, actions[0], false);
      ActKeepsAlone(s, actions[0]);
      UncrowdedIsSingleUse(Act(s, actions[0], false), actions[1..]);
    }
  }

  /** A call that has read a free code cannot be turned away any more. */
  lemma {:induction false} ReadersFinish(s: Race, actions: seq<Action>, i: nat)
    requires i < |s.calls| && PastRead(s.calls[i])
    ensures var s' := Play(s, actions, false);
            i < |s'.calls| && s'.calls[i].code == s.calls[i].code && PastRead(s'.calls[i])
    decreases |actions|
  {
    if actions != [] {
      ReadersFinish(Act(s, actions[0], false), actions[1..], i);
    }
  }

  lemma {:induction false} CrowdedIsDoubleUse(s: Race, actions: seq<Action>)
    requires GetsCrowded(s, actions) && Settled(Play(s, actions, false))
    ensures !SingleUse(Play(s, actions, false))
    decreases |actions|
  {
    if Crowded(s) {
      var i, j :| 0 <= i < |s.calls| && 0 <= j < |s.calls| && i != j
                  && s.calls[i].phase.HasRead? && s.calls[j].phase.HasRead? && s.calls[i].code == s.calls[j].code;
      ReadersFinish(s, actions, i);
      ReadersFinish(s, actions, j);
    } else {
      CrowdedIsDoubleUse(Act(s, actions[0], false), actions[1..]);
    }
  }

  /** Over every interleaving that runs its calls to the end, each pairing code yields at most one
      token if and only if no call reads a code between another call's read of it and its mark. */
  lemma SingleUseExact(s: Race, actions: seq<Action>)
    requires Starting(s) && Settled(Play(s, actions, false))
    ensures SingleUse(Play(s, actions, false)) <==> !GetsCrowded(s, actions)
  {
    if GetsCrowded(s, actions) {
      CrowdedIsDoubleUse(s, actions);
    } else {
      UncrowdedIsSingleUse(s, actions);
    }
  }

  /** Two calls with one code: both read, then both mark and create. */
  lemma TwoTokensForOneCode(r: Relay, code: string, body: PairBody, now: int, picks: Picks, a: string, b: string)
    requires ReadCode(r, code, body, now).None?
    ensures var s := Race(r, [Call(code, body, Waiting), Call(code, body, Waiting)]);
            var s' := Act(Act(Act(Act(Act(Act(s, Read(0, now), false), Read(1, now), false), Claim(0), false),
                                      Create(0, picks, a), false), Claim(1), false), Create(1, picks, b), false);
            && s'.calls[0].phase.Finished? && s'.calls[1].phase.Finished?
            && |s'.relay.tokens| == |r.tokens| + 2
  {
  }

  // ---- With a MarkUsed that fails on a used code ----

  predicate PastClaim(call: Call) {
    call.phase.HasClaimed? || call.phase.Finished?
  }

  ghost predicate OneClaim(s: Race) {
    forall i, j | 0 <= i < |s.calls| && 0 <= j < |s.calls| ::
      PastClaim(s.calls[i]) && PastClaim(s.calls[j]) && s.calls[i].code == s.calls[j].code ==> i == j
  }

  /** If marking were an unused-to-used claim, as the handler's comment says, every interleaving
      whatever would give at most one token per code. */
  lemma {:induction false} ConditionalClaimIsSingleUse(s: Race, actions: seq<Action>)
    requires Consistent(s) && OneClaim(s)
    ensures SingleUse(Play(s, actions, true))
    decreases |actions|
  {
    if actions != [] {
      ActKeepsConsistent(s, actions[0], true);
      ActKeepsOneClaim(s, actions[0]);
      ConditionalClaimIsSingleUse(Act(s, actions[0], true), actions[1..]);
    }
  }

  lemma ActKeepsOneClaim(s: Race, action: Action)
    requires Consistent(s) && OneClaim(s)
    ensures OneClaim(Act(s, action, true))
  {
    var s' := Act(s, action, true);
    forall i, j | 0 <= i < |s'.calls| && 0 <= j < |s'.calls| && i != j
      ensures !(PastClaim(s'.calls[i]) && PastClaim(s'.calls[j]) && s'.calls[i].code == s'.calls[j].code)
    {
      assert s'.calls[i].code == s.calls[i].code && s'.calls[j].code == s.calls[j].code;
    }
  }

  // ---- The world behind the token ----

  /** The moment a call finishes, its token names a known client of the code's account. */
  lemma FinishedIsKnown(s: Race, i: nat, picks: Picks, minted: string, conditional: bool)
    requires Consistent(s) && i < |s.calls| && s.calls[i].phase.HasClaimed?
    ensures var s' := Act(s, Create(i, picks, minted), conditional);
            var user := s.relay.codes[s.calls[i].code].user;
            && s'.calls[i].phase.Finished?
            && Row(user, s'.calls[i].phase.client) in s'.relay.clients
            && s'.relay.tokens == s.relay.tokens + [Token(user, s'.calls[i].phase.client)]
  {
  }

  lemma {:induction false} PlayKeepsConsistent(s: Race, actions: seq<Action>, conditional: bool)
    requires Consistent(s)
    ensures Consistent(Play(s, actions, conditional))
    decreases |actions|
  {
    if actions != [] {
      ActKeepsConsistent(s, actions[0], conditional);
      PlayKeepsConsistent(Act(s, actions[0], conditional), actions[1..], conditional);
    }
  }

  /** Every connection token names a known client of its account. */
  ghost predicate TokensLive(r: Relay) {
    forall token | token in r.tokens :: Row(token.user, token.client) in r.clients
  }

  lemma StepKeepsTokensLive(r: Relay, step: Step)
    requires TokensLive(r)
    ensures TokensLive(Apply(r, step).relay)
  {
    if step.DoDelete? && Delete(r, step.user, step.row).response.Accepted? {
      DeleteRevokes(r, step.user, step.row);
    } else if step.DoExchange? {
      ExchangeKeepsTokensLive(r, step);
    }
  }

  lemma ExchangeKeepsTokensLive(r: Relay, step: Step)
    requires TokensLive(r) && step.DoExchange?
    ensures TokensLive(Apply(r, step).relay)
  {
    if ReadCode(r, step.code, step.body, step.now).None? {
      CompleteKeepsTokensLive(MarkUsed(r, step.code), r.codes[step.code], step.body, step.picks, step.minted);
    }
  }

  lemma CompleteKeepsTokensLive(r: Relay, code: PairingCode, body: PairBody, picks: Picks, minted: string)
    requires TokensLive(r)
    ensures TokensLive(Complete(r, code, body, picks, minted))
  {
    CompleteWrites(r, code, body, picks, minted);
  }

  /** Under either MarkUsed and in every interleaving of calls with each other and with all other
      handlers, deletions among them, every token names a known client of its account. */
  lemma {:induction false} TokensStayLive(s: Race, actions: seq<Action>, conditional: bool)
    requires TokensLive(s.relay)
    ensures TokensLive(Play(s, actions, conditional).relay)
    decreases |actions|
  {
    if actions != [] {
      match actions[0] {
        case Create(i, picks, minted) =>
          if i < |s.calls| && s.calls[i].phase.HasClaimed? {
            CompleteKeepsTokensLive(s.relay, s.calls[i].phase.code, s.calls[i].body, picks, minted);
          }
        case Other(step) => StepKeepsTokensLive(s.relay, step);
        case _ =>
      }
      TokensStayLive(Act(s, actions[0], conditional), actions[1..], conditional);
    }
  }

  /** A call that has finished got a token of its code's account, and holds it unless a deletion of
      that very world has taken it away since. */
  ghost predicate Served(s: Race, i: nat)
    requires i < |s.calls| && s.calls[i].phase.Finished?
  {
    && s.calls[i].code in s.relay.codes
    && Token(s.relay.codes[s.calls[i].code].user, s.calls[i].phase.client) in s.relay.tokens
  }

  ghost predicate Deletes(action: Action, user: int, client: string) {
    action.Other? && action.step == DoDelete(user, Row(user, client))
  }

  /** From its last access on, a finished call's token stays in the table and names a known client of
      the code's account, in every interleaving that does not delete that client. */
  lemma {:induction false} ServedStays(s: Race, actions: seq<Action>, conditional: bool, i: nat)
    requires TokensLive(s.relay) && i < |s.calls| && s.calls[i].phase.Finished? && Served(s, i)
    requires forall k | 0 <= k < |actions| ::
               !Deletes(actions[k], s.relay.codes[s.calls[i].code].user, s.calls[i].phase.client)
    ensures var s' := Play(s, actions, conditional);
            && i < |s'.calls| && s'.calls[i] == s.calls[i] && Served(s', i)
            && Row(s'.relay.codes[s'.calls[i].code].user, s'.calls[i].phase.client) in s'.relay.clients
    decreases |actions|
  {
    if actions != [] {
      var s' := Act(s, actions[0], conditional);
      ActKeepsCodes(s, actions[0], conditional, s.calls[i].code);
      ActKeepsServed(s, actions[0], conditional, i);
      assert Play(s, [actions[0]], conditional) == s' by {
        assert [actions[0]][1..] == [];
        assert Play(s', [], conditional) == s';
      }
      TokensStayLive(s, [actions[0]], conditional);
      assert forall k | 0 <= k < |actions[1..]| :: actions[1..][k] == actions[k + 1];
      ServedStays(s', actions[1..], conditional, i);
    }
  }

  lemma ActKeepsServed(s: Race, action: Action, conditional: bool, i: nat)
    requires i < |s.calls| && s.calls[i].phase.Finished? && Served(s, i)
    requires !Deletes(action, s.relay.codes[s.calls[i].code].user, s.calls[i].phase.client)
    ensures var s' := Act(s, action, conditional);
            i < |s'.calls| && s'.calls[i] == s.calls[i] && Served(s', i)
  {
    ActKeepsCodes(s, action, conditional, s.calls[i].code);
    if action.Other? && action.step.DoDelete? {
      var step := action.step;
      if Delete(s.relay, step.user, step.row).response.Accepted? {
        DeleteRevokes(s.relay, step.user, step.row);
      }
    }
  }

  /** The one-step exchange of the other modules is the three accesses in a row. */
  lemma AtomicExchange(r: Relay, code: string, body: PairBody, picks: Picks, minted: string, now: int)
    ensures var s := Race(r, [Call(code, body, Waiting)]);
            var s' := Act(Act(Act(s, Read(0, now), false), Claim(0), false), Create(0, picks, minted), false);
            var outcome := Exchange(r, code, body, picks, minted, now);
            && s'.relay == outcome.relay
            && (match s'.calls[0].phase
                case Finished(client) => outcome.response == Paired(r.codes[code].user, client)
                case Rejected(http) => outcome.response == Refused(http)
                case _ => false)
  {
  }
}

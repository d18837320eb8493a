/** The device flow over whole runs: how a pair request moves, how often its pairing code is
    released, and that what the owner approved is what the paired world ends up with. */
module DeviceFlow {
  import opened Wrappers
  import opened Text
  import opened Stores
  import opened Handlers

  // ---- How a request moves ----

  /** The statuses a request passes through over a run, without repetitions. */
  function Journey(r: Relay, steps: seq<Step>, code: string): (path: seq<Status>)
    requires code in r.requests
    ensures path != [] && path[0] == r.requests[code].status
    decreases |steps|
  {
    var here := r.requests[code].status;
    if steps == [] then [here]
    else
      RequestsStay(r, steps[0], code);
      var rest := Journey(Apply(r, steps[0]).relay, steps[1..], code);
      if rest[0] == here then rest else [here] + rest
  }

  lemma RequestsStay(r: Relay, step: Step, code: string)
    requires code in r.requests
    ensures var r' := Apply(r, step).relay;
            && code in r'.requests
            && r'.requests[code].upgradeOnly == r.requests[code].upgradeOnly
            && r'.requests[code].client == r.requests[code].client
            && r'.requests[code].worldId == r.requests[code].worldId
            && r'.requests[code].expiresAt == r.requests[code].expiresAt
  {
    if !step.DoApprove? && !step.DoOpen? && !step.DoPoll? && !step.DoDeny? && !step.DoExpire? {
      OtherHandlersKeepRequests(r, step);
    }
  }

  lemma OtherHandlersKeepRequests(r: Relay, step: Step)
    requires !step.DoApprove? && !step.DoOpen? && !step.DoPoll? && !step.DoDeny? && !step.DoExpire?
    ensures Apply(r, step).relay.requests == r.requests
  {
  }

  /** Each move is made by one handler only. */
  lemma MoveHasOneCause(r: Relay, step: Step, code: string)
    requires code in r.requests
    ensures var before := r.requests[code];
            var after := (RequestsStay(r, step, code); Apply(r, step).relay.requests[code]);
            after == before
            || (before.status == Pending && after.status == Approved
                && step.DoApprove? && step.code == code && step.now <= before.expiresAt
                && after == before.(status := Approved, approver := Some(step.user),
                                    pairingCode := Str(if before.upgradeOnly then "" else step.newCode)))
            || (before.status == Pending && step == DoDeny(code) && after == before.(status := Denied))
            || (before.status == Pending && step.DoExpire? && before.expiresAt < step.now
                && after == before.(status := Expired))
            || (before.status == Approved && step.DoPoll? && step.code == code && after == before.(status := Exchanged))
  {
  }

  /** Over any run a request that starts out pending goes pending -> approved -> exchanged, or
      pending -> denied, or pending -> expired, and nowhere else. */
  lemma {:induction false} JourneyIsOneOfThree(r: Relay, steps: seq<Step>, code: string)
    requires code in r.requests
    ensures var path := Journey(r, steps, code);
            match r.requests[code].status
            case Pending =>
              path <= [Pending, Approved, Exchanged] || path <= [Pending, Denied] || path <= [Pending, Expired]
            case Approved => path <= [Approved, Exchanged]
            case status => path == [status]
    decreases |steps|
  {
    if steps != [] {
      RequestsStay(r, steps[0], code);
      MoveHasOneCause(r, steps[0], code);
      JourneyIsOneOfThree(Apply(r, steps[0]).relay, steps[1..], code);
    }
  }

  // ---- What a request asks for ----

  /** The targets the approval page shows as requested are those asked for, less the wildcard. */
  lemma RequestShowsTargets(r: Relay, newCode: string, body: RequestBody, now: int)
    requires OpenRequest(r, newCode, body, now).response.Accepted?
    requires AllClean(body.targets)
    ensures ParseScopes(OpenRequest(r, newCode, body, now).relay.requests[newCode].wantedTargets.Value())
            == Without(body.targets, {"*"})
  {
    var targets := Without(body.targets, {"*"});
    forall t | t in targets ensures Clean(t) {
      WithoutMember(body.targets, {"*"}, t);
    }
    ReadersAgree(JoinedColumn(targets));
    JoinedRoundTrip(targets);
  }

  /** Of arbitrary targets, the wildcard is kept from the approval page if and only if none hides it
      between commas or blanks: the stripping compares whole values. */
  lemma WildcardStrippedExact(r: Relay, newCode: string, body: RequestBody, now: int)
    requires OpenRequest(r, newCode, body, now).response.Accepted?
    ensures "*" !in ParseScopes(OpenRequest(r, newCode, body, now).relay.requests[newCode].wantedTargets.Value())
            <==> forall t | t in body.targets && t != "*" :: "*" !in Cleaned(Split(t, ','))
  {
    var targets := Without(body.targets, {"*"});
    ReadersAgree(JoinedColumn(targets));
    JoinedReadsAsPieces(targets);
    PiecesMember(targets, "*");
    forall t ensures t in targets <==> t in body.targets && t != "*" {
      WithoutMember(body.targets, {"*"}, t);
    }
    assert JoinedColumn(targets).Value()
        == OpenRequest(r, newCode, body, now).relay.requests[newCode].wantedTargets.Value();
  }

  /** Such a target: any other value, a comma, and the wildcard. */
  lemma HiddenWildcardIsShown(newCode: string, worldId: string, now: int)
    requires worldId != ""
    ensures var body := RequestBody("", worldId, [], ["x," + "*"], false);
            && OpenRequest(EMPTY_RELAY, newCode, body, now).response.Accepted?
            && "*" in ParseScopes(
                 OpenRequest(EMPTY_RELAY, newCode, body, now).relay.requests[newCode].wantedTargets.Value())
  {
    var body := RequestBody("", worldId, [], ["x," + "*"], false);
    PieceAfterComma("*");
    WildcardStrippedExact(EMPTY_RELAY, newCode, body, now);
    assert body.targets[0] == "x," + "*";
  }

  // ---- How often its pairing code is released ----

  predicate Releases(r: Relay, step: Step, code: string) {
    && step.DoPoll?
    && step.code == code
    && Apply(r, step).response.Polled?
    && Apply(r, step).response.released.Str?
  }

  function Released(r: Relay, steps: seq<Step>, code: string): nat
    decreases |steps|
  {
    if steps == [] then 0
    else (if Releases(r, steps[0], code) then 1 else 0) + Released(Apply(r, steps[0]).relay, steps[1..], code)
  }

  predicate Polls(steps: seq<Step>, code: string) {
    exists i | 0 <= i < |steps| :: steps[i].DoPoll? && steps[i].code == code
  }

  /** An approved pairing request releases its code exactly once if it is ever polled again; a
      request that moved on, or that only upgrades, releases nothing; and from the start of any
      request at most one code comes out. */
  lemma {:induction false} ReleasedAtMostOnce(r: Relay, steps: seq<Step>, code: string)
    requires code in r.requests
    ensures var request := r.requests[code];
            && Released(r, steps, code) <= 1
            && (request.status !in {Pending, Approved} || request.upgradeOnly ==> Released(r, steps, code) == 0)
            && (request.status == Approved && !request.upgradeOnly && request.pairingCode.Str?
                ==> Released(r, steps, code) == if Polls(steps, code) then 1 else 0)
    decreases |steps|
  {
    if steps != [] {
      RequestsStay(r, steps[0], code);
      MoveHasOneCause(r, steps[0], code);
      ReleasedAtMostOnce(Apply(r, steps[0]).relay, steps[1..], code);
      PollsSplit(steps, code);
    }
  }

  lemma PollsSplit(steps: seq<Step>, code: string)
    requires steps != []
    ensures Polls(steps, code) <==> (steps[0].DoPoll? && steps[0].code == code) || Polls(steps[1..], code)
  {
    if Polls(steps[1..], code) {
      var i :| 0 <= i < |steps[1..]| && steps[1..][i].DoPoll? && steps[1..][i].code == code;
      assert steps[i + 1].DoPoll? && steps[i + 1].code == code;
    }
    if Polls(steps, code) && !(steps[0].DoPoll? && steps[0].code == code) {
      var i :| 0 <= i < |steps| && steps[i].DoPoll? && steps[i].code == code;
      assert steps[1..][i - 1] == steps[i];
    }
  }

  // ---- What a pairing code carries ----

  /** A code's record never changes but for being used, and a used code stays used. */
  lemma CodesStay(r: Relay, step: Step, code: string)
    requires code in r.codes
    ensures var r' := Apply(r, step).relay;
            && code in r'.codes
            && (r'.codes[code] == r.codes[code] || r'.codes[code] == r.codes[code].(used := true))
  {
  }

  lemma {:induction false} CodesStayOverRuns(r: Relay, steps: seq<Step>, code: string)
    requires code in r.codes
    ensures var r' := Run(r, steps);
            && code in r'.codes
            && (r'.codes[code] == r.codes[code] || r'.codes[code] == r.codes[code].(used := true))
    decreases |steps|
  {
    if steps != [] {
      CodesStay(r, steps[0], code);
      CodesStayOverRuns(Apply(r, steps[0]).relay, steps[1..], code);
    }
  }

  /** Only the dashboard and the approval of a pairing request make codes; upgrading makes none. */
  lemma CodeHasOneMaker(r: Relay, step: Step, code: string)
    requires code !in r.codes && code in Apply(r, step).relay.codes
    ensures (step.DoGenerate? && step.newCode == code)
            || (step.DoApprove? && step.newCode == code
                && step.code in r.requests && !r.requests[step.code].upgradeOnly)
  {
  }

  /** Whoever exchanges a code is paired to the account of its maker. */
  lemma ExchangeKeepsAccount(r: Relay, step: Step)
    requires step.DoExchange? && Apply(r, step).response.Paired?
    ensures step.code in r.codes && Apply(r, step).response.user == r.codes[step.code].user
  {
  }

  /** The world an exchange resolves to holds the settings its code carries, or keeps its own when
      the code carries none. */
  lemma CarriedSettings(r: Relay, step: Step)
    requires step.DoExchange? && Apply(r, step).response.Paired?
    ensures var code := (ExchangeKeepsAccount(r, step); r.codes[step.code]);
            var outcome := Apply(r, step);
            var row := Row(outcome.response.user, outcome.response.client);
            && row in outcome.relay.clients
            && (if code.targets.Str? || code.scopes.Str? then
                  && outcome.relay.clients[row].targets == code.targets
                  && outcome.relay.clients[row].scopes == code.scopes
                  && outcome.relay.clients[row].rate == code.rate
                else
                  && outcome.relay.clients[row].targets
                     == (if row in r.clients then r.clients[row].targets else Str(""))
                  && outcome.relay.clients[row].scopes == (if row in r.clients then r.clients[row].scopes else Str(""))
                  && outcome.relay.clients[row].rate == (if row in r.clients then r.clients[row].rate else 0))
  {
  }

  /** End to end: an approval, then any run, then the exchange of the code it made. If any scope or
      target was approved, the world that comes out reads back exactly the approved targets (less
      the requesting world itself), the approved scopes and the approved rate. */
  lemma ApprovedSettingsArrive(
    r: Relay, user: int, code: string, body: ApproveBody, byWorld: Option<Row>, newCode: string, now: int,
    steps: seq<Step>, exchange: Step)
    requires code in r.requests && !r.requests[code].upgradeOnly
    requires Approve(r, user, code, body, byWorld, newCode, now).response.Accepted?
    requires exchange.DoExchange? && exchange.code == newCode
    requires var after := Run(Approve(r, user, code, body, byWorld, newCode, now).relay, steps);
             Apply(after, exchange).response.Paired?
    requires AllClean(body.targets) && AllClean(body.scopes)
    ensures var after := Run(Approve(r, user, code, body, byWorld, newCode, now).relay, steps);
            var outcome := Apply(after, exchange);
            var world := RequestedWorld(r.clients, user, r.requests[code], byWorld);
            var targets := ApprovedTargets(r.requests[code], world, body);
            var row := Row(user, outcome.response.client);
            && outcome.response.user == user
            && row in outcome.relay.clients
            && (targets != [] || body.scopes != [] ==>
                  && ReadList(outcome.relay.clients[row].targets) == targets
                  && ReadList(outcome.relay.clients[row].scopes) == body.scopes
                  && outcome.relay.clients[row].rate == body.rate)
  {
    var approved := Approve(r, user, code, body, byWorld, newCode, now).relay;
    var world := RequestedWorld(r.clients, user, r.requests[code], byWorld);
    var targets := ApprovedTargets(r.requests[code], world, body);
    assert approved.codes[newCode].user == user;
    CodesStayOverRuns(approved, steps, newCode);
    ExchangeKeepsAccount(Run(approved, steps), exchange);
    CarriedSettings(Run(approved, steps), exchange);
    forall t | t in targets ensures Clean(t) {
      WithoutMember(body.targets, SelfIds(r.requests[code], world), t);
    }
    JoinedRoundTrip(targets);
    JoinedRoundTrip(body.scopes);
  }

  lemma JoinedRoundTrip(values: seq<string>)
    requires AllClean(values)
    ensures ReadList(JoinedColumn(values)) == values
    ensures JoinedColumn(values).Str? <==> values != []
  {
    JoinedReadsAsPieces(values);
    PiecesOfClean(values);
    if values != [] {
      assert values[0] in values && Clean(values[0]);
      JoinNonEmpty(values);
    }
  }

  /** An upgrade writes the approved settings on the requested world at once, and nowhere else. */
  lemma UpgradeSettingsArrive(
    r: Relay, user: int, code: string, body: ApproveBody, byWorld: Option<Row>, newCode: string, now: int)
    requires code in r.requests && r.requests[code].upgradeOnly
    requires AnswersWorld(r.clients, user, r.requests[code].worldId, byWorld)
    requires Approve(r, user, code, body, byWorld, newCode, now).response.Accepted?
    requires AllClean(body.targets) && AllClean(body.scopes)
    ensures var world := RequestedWorld(r.clients, user, r.requests[code], byWorld);
            var after := Approve(r, user, code, body, byWorld, newCode, now).relay;
            && world.Some? && world.value.user == user && world.value in r.clients
            && after.codes == r.codes && after.tokens == r.tokens
            && after.clients.Keys == r.clients.Keys
            && (forall row | row in r.clients && row != world.value :: after.clients[row] == r.clients[row])
            && ReadList(after.clients[world.value].targets)
               == Without(body.targets, {world.value.client} + SelfIds(r.requests[code], None))
            && ReadList(after.clients[world.value].scopes) == body.scopes
            && after.clients[world.value].rate == body.rate
  {
    var request := r.requests[code];
    var world := RequestedWorld(r.clients, user, request, byWorld);
    var targets := ApprovedTargets(request, world, body);
    assert SelfIds(request, world) == {world.value.client} + SelfIds(request, None);
    forall t | t in targets ensures Clean(t) {
      WithoutMember(body.targets, SelfIds(request, world), t);
    }
    JoinedRoundTrip(targets);
    JoinedRoundTrip(body.scopes);
  }
}

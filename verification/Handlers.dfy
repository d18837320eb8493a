/** What each pairing, permission and device-flow handler does to the relay's tables, as a function
    of the tables, the request and the environment's answers: the rows that `LIMIT 1` lookups
    return, the random ids, and the clock. */
module Handlers {
  import opened Wrappers
  import opened Text
  import opened Stores

  datatype PairBody = PairBody(
    worldId: string, worldTitle: string, fingerprint: string, existingClientId: string, origin: string)

  datatype Picks = Picks(byFingerprint: Option<Row>, byOrigin: Option<Row>, byWorld: Option<Row>)

  datatype Edit = Edit(targets: Option<seq<string>>, scopes: Option<seq<string>>, rate: Option<int>)

  datatype RequestBody = RequestBody(
    client: string, worldId: string, scopes: seq<string>, targets: seq<string>, upgradeOnly: bool)

  datatype ApproveBody = ApproveBody(scopes: seq<string>, targets: seq<string>, rate: int)

  datatype Response =
    | Refused(http: int)
    | Accepted
    | Paired(user: int, client: string)
    | Polled(status: Status, released: NullString)

  datatype Outcome = Outcome(relay: Relay, response: Response)

  /** model.AllScopes. */
  const ALL_SCOPES: set<string> := {
    "entity:read", "entity:write", "roll:read", "roll:execute", "chat:read", "chat:write",
    "encounter:read", "encounter:manage", "macro:list", "macro:execute", "macro:write",
    "scene:read", "scene:write", "canvas:read", "canvas:write", "effects:read", "effects:write",
    "user:read", "user:write", "file:read", "file:write", "playlist:control", "world:info",
    "clients:read", "sheet:read", "events:subscribe", "session:manage", "execute-js", "search",
    "structure:read", "structure:write", "dnd5e" }

  predicate AllScopesKnown(scopes: seq<string>) {
    forall s | s in scopes :: s in ALL_SCOPES
  }

  // ---- POST /auth/connection-tokens ----

  const DASHBOARD_CODE_SECONDS := 600

  function GenerateCode(r: Relay, user: int, bound: string, newCode: string, now: int): Outcome {
    if bound != "" && Row(user, bound) !in r.clients then Outcome(r, Refused(404))
    else if newCode in r.codes then Outcome(r, Refused(500))
    else
      var code := PairingCode(user, if bound != "" then Str(bound) else Null, Null, Null, 0,
                              now + DASHBOARD_CODE_SECONDS, false);
      Outcome(r.(codes := r.codes[newCode := code]), Accepted)
  }

  // ---- POST /auth/pair ----

  predicate OriginConsistent(kc: KnownClient, origin: string) {
    || origin == ""
    || kc.publicUrl.Null?
    || Trim(kc.publicUrl.s) == ""
    || Trim(kc.publicUrl.s) == origin
  }

  predicate IsAddBrowser(code: PairingCode) {
    code.bound.Value() != ""
  }

  ghost predicate Answers(clients: Clients, user: int, body: PairBody, picks: Picks) {
    && AnswersFingerprint(clients, user, body.fingerprint, picks.byFingerprint)
    && AnswersWorldAndOrigin(clients, user, body.worldId, body.origin, picks.byOrigin)
    && AnswersWorld(clients, user, body.worldId, picks.byWorld)
  }

  /** Whatever the tables, the lookups have answers. */
  lemma SomeAnswers(clients: Clients, user: int, body: PairBody) returns (picks: Picks)
    ensures Answers(clients, user, body, picks)
  {
    picks := Picks(None, None, None);
    if row :| row in clients && HasFingerprint(clients, user, body.fingerprint, row) {
      picks := picks.(byFingerprint := Some(row));
    }
    if row :| row in clients && HasWorldAndOrigin(clients, user, body.worldId, body.origin, row) {
      picks := picks.(byOrigin := Some(row));
    }
    if row :| row in clients && HasWorld(clients, user, body.worldId, row) {
      picks := picks.(byWorld := Some(row));
    }
  }

  /** The clientId of an offered row if the row is reusable for this origin. */
  function Reusable(clients: Clients, offer: Option<Row>, origin: string): string {
    if offer.Some? && offer.value in clients && OriginConsistent(clients[offer.value], origin)
    then offer.value.client else ""
  }

  /** The row the module itself names, if the user has it. */
  function Named(clients: Clients, user: int, client: string): Option<Row> {
    if client != "" && Row(user, client) in clients then Some(Row(user, client)) else None
  }

  /** The five-way priority lookup of the clientId. */
  function ChooseClientId(clients: Clients, code: PairingCode, body: PairBody, picks: Picks, minted: string): string {
    var first :=
      if IsAddBrowser(code) then code.bound.s
      else Reusable(clients, Named(clients, code.user, body.existingClientId), body.origin);
    var second :=
      if first == "" && body.fingerprint != "" then Reusable(clients, picks.byFingerprint, body.origin) else first;
    var third :=
      if second == "" && body.worldId != "" then
        if body.origin != "" && picks.byOrigin.Some? then picks.byOrigin.value.client
        else Reusable(clients, picks.byWorld, body.origin)
      else second;
    if third == "" then minted else third
  }

  /** Reading the code: the status to refuse with, or nothing. */
  function ReadCode(r: Relay, code: string, body: PairBody, now: int): Option<int> {
    if code == "" then Some(400)
    else if code !in r.codes || r.codes[code].expiresAt <= now then Some(404)
    else if r.codes[code].used then Some(410)
    else if !IsAddBrowser(r.codes[code]) && body.worldId == "" then Some(400)
    else None
  }

  /** PairingCodeStore.MarkUsed as it is written: an UPDATE that never fails. */
  function MarkUsed(r: Relay, code: string): Relay {
    if code in r.codes then r.(codes := r.codes[code := r.codes[code].(used := true)]) else r
  }

  function NullIfEmpty(s: string): NullString {
    if s == "" then Null else Str(s)
  }

  function Metadata(code: PairingCode, body: PairBody): WorldInfo {
    WorldInfo(
      if IsAddBrowser(code) then Null else Str(body.worldId),
      if IsAddBrowser(code) then Null else NullIfEmpty(body.worldTitle),
      NullIfEmpty(body.fingerprint), NullIfEmpty(body.origin))
  }

  /** Everything after the code is claimed: choose the id, store the token, upsert the world and
      apply the settings the code carries. */
  function Complete(r: Relay, code: PairingCode, body: PairBody, picks: Picks, minted: string): Relay {
    var client := ChooseClientId(r.clients, code, body, picks, minted);
    var row := Row(code.user, client);
    var stored := Upsert(r.clients, row, Metadata(code, body));
    var clients :=
      if code.targets.Str? || code.scopes.Str?
      then SetCrossWorldSettings(stored, row, code.targets, code.scopes, code.rate) else stored;
    r.(clients := clients, tokens := r.tokens + [Token(code.user, client)])
  }

  function Exchange(r: Relay, code: string, body: PairBody, picks: Picks, minted: string, now: int): Outcome {
    match ReadCode(r, code, body, now)
    case Some(status) => Outcome(r, Refused(status))
    case None =>
      var claimed := r.codes[code];
      Outcome(Complete(MarkUsed(r, code), claimed, body, picks, minted),
              Paired(claimed.user, ChooseClientId(r.clients, claimed, body, picks, minted)))
  }

  // ---- PATCH and DELETE /auth/known-clients/:id ----

  predicate TargetsKnown(clients: Clients, user: int, targets: seq<string>) {
    forall t | t in targets :: t == "*" || Row(user, t) in clients
  }

  function Patch(r: Relay, user: int, row: Row, edit: Edit): Outcome {
    if row !in r.clients || row.user != user then Outcome(r, Refused(404))
    else
      var kc := r.clients[row];
      var wanted := if edit.targets.Some? then Without(edit.targets.value, {row.client}) else [];
      if !TargetsKnown(r.clients, user, wanted) then Outcome(r, Refused(400))
      else if edit.scopes.Some? && !AllScopesKnown(edit.scopes.value) then Outcome(r, Refused(400))
      else
        var targets := if edit.targets.Some? then CsvNullString(wanted) else kc.targets;
        var scopes := if edit.scopes.Some? then CsvNullString(edit.scopes.value) else kc.scopes;
        var rate := if edit.rate.Some? then edit.rate.value else kc.rate;
        Outcome(r.(clients := SetCrossWorldSettings(r.clients, row, targets, scopes, rate)), Accepted)
  }

  /** One sibling's row once the deleted clientId is revoked from it. */
  function Revoked(kc: KnownClient, gone: string): KnownClient {
    var targets := ReadList(kc.targets);
    if targets == [] || "*" in targets then kc
    else
      var kept := Without(targets, {gone});
      if |kept| == |targets| then kc
      else kc.(targets := if kept == [] then Null else Str(Join(kept, ',')))
  }

  function Siblings(clients: Clients, user: int, gone: string): Clients {
    map row | row in clients :: if row.user == user then Revoked(clients[row], gone) else clients[row]
  }

  function DropTokens(tokens: seq<Token>, token: Token): seq<Token> {
    if tokens == [] then []
    else (if tokens[0] == token then [] else [tokens[0]]) + DropTokens(tokens[1..], token)
  }

  function Delete(r: Relay, user: int, row: Row): Outcome {
    if row !in r.clients || row.user != user then Outcome(r, Refused(404))
    else
      Outcome(r.(clients := Siblings(r.clients - {row}, user, row.client),
                 tokens := DropTokens(r.tokens, Token(user, row.client))),
              Accepted)
  }

  // ---- /auth/pair-request ----

  const REQUEST_SECONDS := 600
  const REQUEST_CODE_SECONDS := 300

  function OpenRequest(r: Relay, newCode: string, body: RequestBody, now: int): Outcome {
    if body.worldId == "" then Outcome(r, Refused(400))
    else if !AllScopesKnown(body.scopes) then Outcome(r, Refused(400))
    else if newCode in r.requests then Outcome(r, Refused(500))
    else
      var targets := Without(body.targets, {"*"});
      var request := PairRequest(
        body.client, body.worldId,
        if body.scopes != [] then Str(Join(body.scopes, ',')) else Null,
        if targets != [] then Str(Join(targets, ',')) else Null,
        body.upgradeOnly, Pending, Null, None, now + REQUEST_SECONDS);
      Outcome(r.(requests := r.requests[newCode := request]), Accepted)
  }

  function SetStatus(r: Relay, code: string, status: Status): Relay {
    if code in r.requests then r.(requests := r.requests[code := r.requests[code].(status := status)]) else r
  }

  function Poll(r: Relay, code: string, now: int): Outcome {
    if code !in r.requests then Outcome(r, Refused(404))
    else
      var request := r.requests[code];
      if request.expiresAt < now && request.status == Pending then Outcome(r, Refused(410))
      else
        match request.status
        case Approved =>
          if request.upgradeOnly || request.pairingCode.Null?
          then Outcome(SetStatus(r, code, Exchanged), Polled(Approved, Null))
          else Outcome(SetStatus(r, code, Exchanged), Polled(Approved, request.pairingCode))
        case Expired => Outcome(r, Refused(410))
        case status => Outcome(r, Polled(status, Null))
  }

  /** The world a request is about: the row it names, else whatever FindByWorldID answers. */
  function RequestedWorld(clients: Clients, user: int, request: PairRequest, byWorld: Option<Row>): Option<Row> {
    var named := Named(clients, user, request.client);
    if named.Some? then named else byWorld
  }

  function SelfIds(request: PairRequest, world: Option<Row>): set<string> {
    (if request.client != "" then {request.client} else {}) + (if world.Some? then {world.value.client} else {})
  }

  function ApprovedTargets(request: PairRequest, world: Option<Row>, body: ApproveBody): seq<string> {
    Without(body.targets, SelfIds(request, world))
  }

  function SetApproved(r: Relay, code: string, pairingCode: string, user: int): Relay
    requires code in r.requests
  {
    r.(requests := r.requests[code := r.requests[code].(
         status := Approved, pairingCode := Str(pairingCode), approver := Some(user))])
  }

  function Approve(
    r: Relay, user: int, code: string, body: ApproveBody, byWorld: Option<Row>, newCode: string, now: int): Outcome
  {
    if code !in r.requests then Outcome(r, Refused(404))
    else
      var request := r.requests[code];
      if request.status != Pending then Outcome(r, Refused(400))
      else if request.expiresAt < now then Outcome(r, Refused(410))
      else
        var world := RequestedWorld(r.clients, user, request, byWorld);
        var targets := JoinedColumn(ApprovedTargets(request, world, body));
        var scopes := JoinedColumn(body.scopes);
        if request.upgradeOnly then
          if world.None? then Outcome(r, Refused(400))
          else
            var updated := r.(clients := SetCrossWorldSettings(r.clients, world.value, targets, scopes, body.rate));
            Outcome(SetApproved(updated, code, "", user), Accepted)
        else if newCode in r.codes then Outcome(r, Refused(500))
        else
          var pairing := PairingCode(user, Null, targets, scopes, body.rate, now + REQUEST_CODE_SECONDS, false);
          var issued := r.(codes := r.codes[newCode := pairing]);
          var updated :=
            if world.Some? && (scopes.Str? || targets.Str?)
            then issued.(clients := SetCrossWorldSettings(issued.clients, world.value, targets, scopes, body.rate))
            else issued;
          Outcome(SetApproved(updated, code, newCode, user), Accepted)
  }

  function Deny(r: Relay, code: string): Outcome {
    if code !in r.requests then Outcome(r, Refused(404))
    else if r.requests[code].status != Pending then Outcome(r, Refused(400))
    else Outcome(SetStatus(r, code, Denied), Accepted)
  }

  /** The hourly cleanup of pending requests past their time. */
  function ExpireRequests(r: Relay, now: int): Outcome {
    Outcome(
      r.(requests := map code | code in r.requests ::
           if r.requests[code].status == Pending && r.requests[code].expiresAt < now
           then r.requests[code].(status := Expired) else r.requests[code]),
      Accepted)
  }

  // ---- Runs ----

  /** One request handled, with the environment's answers to it. */
  datatype Step =
    | DoGenerate(user: int, bound: string, newCode: string, now: int)
    | DoExchange(code: string, body: PairBody, picks: Picks, minted: string, now: int)
    | DoPatch(user: int, row: Row, edit: Edit)
    | DoDelete(user: int, row: Row)
    | DoOpen(newCode: string, open: RequestBody, now: int)
    | DoPoll(code: string, now: int)
    | DoApprove(user: int, code: string, approve: ApproveBody, byWorld: Option<Row>, newCode: string, now: int)
    | DoDeny(code: string)
    | DoExpire(now: int)

  function Apply(r: Relay, step: Step): Outcome {
    match step
    case DoGenerate(user, bound, newCode, now) => GenerateCode(r, user, bound, newCode, now)
    case DoExchange(code, body, picks, minted, now) => Exchange(r, code, body, picks, minted, now)
    case DoPatch(user, row, edit) => Patch(r, user, row, edit)
    case DoDelete(user, row) => Delete(r, user, row)
    case DoOpen(newCode, open, now) => OpenRequest(r, newCode, open, now)
    case DoPoll(code, now) => Poll(r, code, now)
    case DoApprove(user, code, approve, byWorld, newCode, now) => Approve(r, user, code, approve, byWorld, newCode, now)
    case DoDeny(code) => Deny(r, code)
    case DoExpire(now) => ExpireRequests(r, now)
  }

  /** The lookups answer with rows that are really there. */
  ghost predicate Truthful(r: Relay, step: Step) {
    match step
    case DoExchange(code, body, picks, _, _) => code in r.codes ==> Answers(r.clients, r.codes[code].user, body, picks)
    case DoApprove(user, code, _, byWorld, _, _) =>
      code in r.requests ==> AnswersWorld(r.clients, user, r.requests[code].worldId, byWorld)
    case _ => true
  }

  function Run(r: Relay, steps: seq<Step>): Relay
    decreases |steps|
  {
    if steps == [] then r else Run(Apply(r, steps[0]).relay, steps[1..])
  }

  ghost predicate TruthfulRun(r: Relay, steps: seq<Step>)
    decreases |steps|
  {
    steps != [] ==> Truthful(r, steps[0]) && TruthfulRun(Apply(r, steps[0]).relay, steps[1..])
  }
}

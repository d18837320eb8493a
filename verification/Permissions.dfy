/** Cross-world permission lists: no world is ever a target of itself, and every id a list names is
    a living world of the same account. */
module Permissions {
  import opened Wrappers
  import opened Text
  import opened Stores
  import opened Handlers

  function Targets(clients: Clients, row: Row): seq<string>
    requires row in clients
  {
    ReadList(clients[row].targets)
  }

  ghost predicate NoSelf(clients: Clients) {
    forall row | row in clients :: row.client !in Targets(clients, row)
  }

  /** Every id in a list without the wildcard names a world of the same user. */
  ghost predicate NamesLive(clients: Clients) {
    forall row | row in clients && "*" !in Targets(clients, row) ::
      forall t | t in Targets(clients, row) :: Row(row.user, t) in clients
  }

  /** The shape of a minted id. */
  predicate ProperId(client: string) {
    Clean(client) && client != "*"
  }

  ghost predicate ProperIds(r: Relay) {
    && (forall row | row in r.clients :: ProperId(row.client))
    && (forall code | code in r.codes :: IsAddBrowser(r.codes[code]) ==> ProperId(r.codes[code].bound.s))
  }

  /** No pairing code carries cross-world settings. */
  ghost predicate PlainCodes(r: Relay) {
    forall code | code in r.codes :: r.codes[code].targets.Null? && r.codes[code].scopes.Null?
  }

  ghost predicate SelfFree(r: Relay) {
    NoSelf(r.clients) && ProperIds(r)
  }

  ghost predicate ListsOk(r: Relay) {
    SelfFree(r) && NamesLive(r.clients) && PlainCodes(r)
  }

  /** Codes from the dashboard, exchanges, edits and deletions, with proper minted ids: every way
      to change a list except an approval. */
  ghost predicate ListStep(r: Relay, step: Step) {
    && !step.DoApprove?
    && Truthful(r, step)
    && (step.DoExchange? ==> ProperId(step.minted))
  }

  ghost predicate ListRun(r: Relay, steps: seq<Step>)
    decreases |steps|
  {
    steps != [] ==> ListStep(r, steps[0]) && ListRun(Apply(r, steps[0]).relay, steps[1..])
  }

  // ---- PATCH ----

  /** What a PATCH stores is what the caller asked for without the world itself. */
  lemma PatchStores(r: Relay, user: int, row: Row, edit: Edit)
    requires ProperIds(r)
    requires Patch(r, user, row, edit).response.Accepted?
    ensures var r' := Patch(r, user, row, edit).relay;
            && r'.clients.Keys == r.clients.Keys
            && r'.codes == r.codes
            && Targets(r'.clients, row)
               == (if edit.targets.Some? then Without(edit.targets.value, {row.client}) else Targets(r.clients, row))
            && (forall other | other in r.clients && other != row :: r'.clients[other] == r.clients[other])
  {
    if edit.targets.Some? {
      var wanted := Without(edit.targets.value, {row.client});
      forall t | t in wanted ensures Clean(t) {
        assert t == "*" || Row(user, t) in r.clients;
      }
      CsvRoundTrip(wanted);
    }
  }

  lemma PatchKeepsSelfFree(r: Relay, user: int, row: Row, edit: Edit)
    requires SelfFree(r)
    ensures SelfFree(Patch(r, user, row, edit).relay)
  {
    if Patch(r, user, row, edit).response.Accepted? {
      PatchStores(r, user, row, edit);
      var r' := Patch(r, user, row, edit).relay;
      forall other | other in r'.clients ensures other.client !in Targets(r'.clients, other) {
        if other == row && edit.targets.Some? {
          WithoutMember(edit.targets.value, {row.client}, row.client);
        } else {
          assert Targets(r'.clients, other) == Targets(r.clients, other);
        }
      }
    }
  }

  lemma PatchKeepsLists(r: Relay, user: int, row: Row, edit: Edit)
    requires ListsOk(r)
    ensures ListsOk(Patch(r, user, row, edit).relay)
  {
    PatchKeepsSelfFree(r, user, row, edit);
    if Patch(r, user, row, edit).response.Accepted? {
      PatchStores(r, user, row, edit);
      var r' := Patch(r, user, row, edit).relay;
      forall other | other in r'.clients && "*" !in Targets(r'.clients, other)
        ensures forall t | t in Targets(r'.clients, other) :: Row(other.user, t) in r'.clients
      {
        if other != row || edit.targets.None? {
          assert Targets(r'.clients, other) == Targets(r.clients, other);
        }
      }
    }
  }

  // ---- DELETE ----

  /** What revoking leaves of a sibling's list: everything but the deleted id, and a wildcard list
      whole. */
  lemma RevokedReads(kc: KnownClient, gone: string)
    ensures var before := ReadList(kc.targets);
            ReadList(Revoked(kc, gone).targets) == (if "*" in before then before else Without(before, {gone}))
    ensures Revoked(kc, gone) == kc.(targets := Revoked(kc, gone).targets)
  {
    var before := ReadList(kc.targets);
    if before != [] && "*" !in before {
      WithoutSameLength(before, {gone});
      var kept := Without(before, {gone});
      ReadListClean(kc.targets);
      forall v | v in kept ensures Clean(v) {
        WithoutMember(before, {gone}, v);
      }
      if kept != [] {
        CleanedIsClean(kept);
        assert Str(Join(kept, ',')) == CsvNullString(kept);
        CsvRoundTrip(kept);
      }
    }
  }

  /** After a DELETE the world and its tokens are gone, no list of the account without a wildcard
      names it, and nothing else about any other world has changed. */
  lemma DeleteRevokes(r: Relay, user: int, row: Row)
    requires Delete(r, user, row).response.Accepted?
    ensures var r' := Delete(r, user, row).relay;
            && r'.clients.Keys == r.clients.Keys - {row}
            && (forall token :: token in r'.tokens <==> token in r.tokens && token != Token(user, row.client))
            && (forall other | other in r'.clients ::
                  && r'.clients[other] == r.clients[other].(targets := r'.clients[other].targets)
                  && (other.user != user || "*" in Targets(r.clients, other)
                      ==> r'.clients[other] == r.clients[other])
                  && (other.user == user && "*" !in Targets(r.clients, other)
                      ==> Targets(r'.clients, other) == Without(Targets(r.clients, other), {row.client})))
  {
    var r' := Delete(r, user, row).relay;
    forall token ensures token in r'.tokens <==> token in r.tokens && token != Token(user, row.client) {
      DropTokensMember(r.tokens, Token(user, row.client), token);
    }
    forall other | other in r'.clients
      ensures r'.clients[other] == r.clients[other].(targets := r'.clients[other].targets)
      ensures ReadList(Revoked(r.clients[other], row.client).targets)
              == (var before := Targets(r.clients, other);
                  if "*" in before then before else Without(before, {row.client}))
    {
      RevokedReads(r.clients[other], row.client);
    }
  }

  lemma {:induction false} DropTokensMember(tokens: seq<Token>, token: Token, x: Token)
    ensures x in DropTokens(tokens, token) <==> x in tokens && x != token
  {
    if tokens != [] {
      DropTokensMember(tokens[1..], token, x);
      assert tokens == [tokens[0]] + tokens[1..];
    }
  }

  lemma DeleteKeepsSelfFree(r: Relay, user: int, row: Row)
    requires SelfFree(r)
    ensures SelfFree(Delete(r, user, row).relay)
  {
    if Delete(r, user, row).response.Accepted? {
      DeleteRevokes(r, user, row);
      var r' := Delete(r, user, row).relay;
      forall other | other in r'.clients ensures other.client !in Targets(r'.clients, other) {
        WithoutMember(Targets(r.clients, other), {row.client}, other.client);
      }
    }
  }

  lemma DeleteKeepsLists(r: Relay, user: int, row: Row)
    requires ListsOk(r)
    ensures ListsOk(Delete(r, user, row).relay)
  {
    DeleteKeepsSelfFree(r, user, row);
    if Delete(r, user, row).response.Accepted? {
      DeleteRevokes(r, user, row);
      var r' := Delete(r, user, row).relay;
      forall other | other in r'.clients && "*" !in Targets(r'.clients, other)
        ensures forall t | t in Targets(r'.clients, other) :: Row(other.user, t) in r'.clients
      {
        var before := Targets(r.clients, other);
        WithoutMember(before, {row.client}, "*");
        forall t | t in Targets(r'.clients, other) ensures Row(other.user, t) in r'.clients {
          WithoutMember(before, {row.client}, t);
        }
      }
    }
  }

  // ---- POST /auth/pair ----

  lemma ChosenIsProper(r: Relay, code: string, body: PairBody, picks: Picks, minted: string)
    requires ProperIds(r) && code in r.codes && ProperId(minted)
    requires Answers(r.clients, r.codes[code].user, body, picks)
    ensures ProperId(ChooseClientId(r.clients, r.codes[code], body, picks, minted))
  {
  }

  /** An exchange of a plain code adds at most one world, with an empty list. */
  lemma PlainExchangeTargets(r: Relay, code: PairingCode, body: PairBody, picks: Picks, minted: string)
    requires code.targets.Null? && code.scopes.Null?
    ensures var r' := Complete(r, code, body, picks, minted);
            && r'.codes == r.codes
            && r'.clients.Keys
               == r.clients.Keys + {Row(code.user, ChooseClientId(r.clients, code, body, picks, minted))}
            && (forall row | row in r'.clients ::
                  Targets(r'.clients, row) == if row in r.clients then Targets(r.clients, row) else [])
  {
  }

  lemma ExchangeKeepsLists(r: Relay, step: Step)
    requires ListsOk(r) && step.DoExchange? && ListStep(r, step)
    ensures ListsOk(Apply(r, step).relay)
  {
    if ReadCode(r, step.code, step.body, step.now).None? {
      var code := r.codes[step.code];
      var marked := MarkUsed(r, step.code);
      ChosenIsProper(r, step.code, step.body, step.picks, step.minted);
      PlainExchangeTargets(marked, code, step.body, step.picks, step.minted);
      var r' := Complete(marked, code, step.body, step.picks, step.minted);
      assert SameCodes(r.codes, r'.codes);
      SameListsOk(r, r', Row(code.user, ChooseClientId(r.clients, code, step.body, step.picks, step.minted)));
      assert Apply(r, step).relay == r';
    }
  }

  /** The codes are the same but for having been used. */
  ghost predicate SameCodes(codes: map<string, PairingCode>, codes': map<string, PairingCode>) {
    && codes'.Keys == codes.Keys
    && forall code | code in codes :: codes'[code].(used := false) == codes[code].(used := false)
  }

  lemma SameCodesStayProper(r: Relay, r': Relay)
    requires ProperIds(r) && SameCodes(r.codes, r'.codes)
    ensures forall code | code in r'.codes && IsAddBrowser(r'.codes[code]) :: ProperId(r'.codes[code].bound.s)
    ensures PlainCodes(r) ==> PlainCodes(r')
  {
    forall code | code in r'.codes
      ensures r'.codes[code].bound == r.codes[code].bound
      ensures r'.codes[code].targets == r.codes[code].targets && r'.codes[code].scopes == r.codes[code].scopes
    {
      assert r'.codes[code].(used := false) == r.codes[code].(used := false);
    }
  }

  /** Adding a world with an empty list keeps the invariant. */
  lemma SameListsOk(r: Relay, r': Relay, added: Row)
    requires ListsOk(r)
    requires r'.clients.Keys == r.clients.Keys + {added} && ProperId(added.client)
    requires forall row | row in r'.clients ::
               Targets(r'.clients, row) == if row in r.clients then Targets(r.clients, row) else []
    requires SameCodes(r.codes, r'.codes)
    ensures ListsOk(r')
  {
    SameCodesStayProper(r, r');
    forall row | row in r'.clients && "*" !in Targets(r'.clients, row), t | t in Targets(r'.clients, row)
      ensures Row(row.user, t) in r'.clients
    {
      assert row in r.clients;
    }
  }

  // ---- The theorem ----

  lemma StepKeepsLists(r: Relay, step: Step)
    requires ListsOk(r) && ListStep(r, step)
    ensures ListsOk(Apply(r, step).relay)
  {
    match step
    case DoExchange(_, _, _, _, _) => ExchangeKeepsLists(r, step);
    case DoPatch(user, row, edit) => PatchKeepsLists(r, user, row, edit);
    case DoDelete(user, row) => DeleteKeepsLists(r, user, row);
    case _ => OtherStepsKeepClients(r, step);
  }

  lemma OtherStepsKeepClients(r: Relay, step: Step)
    requires !step.DoExchange? && !step.DoPatch? && !step.DoDelete? && !step.DoApprove?
    ensures Apply(r, step).relay.clients == r.clients
  {
  }

  /** Over any run without approvals, no list names its own world and every list without a wildcard
      names only living worlds of the same account. */
  lemma {:induction false} ListsStayOk(r: Relay, steps: seq<Step>)
    requires ListsOk(r) && ListRun(r, steps)
    ensures ListsOk(Run(r, steps))
    decreases |steps|
  {
    if steps != [] {
      StepKeepsLists(r, steps[0]);
      ListsStayOk(Apply(r, steps[0]).relay, steps[1..]);
    }
  }

  // ---- Approvals ----

  /** The targets an approval offers for a world, as they will read back, name that world. */
  ghost predicate HidesSelf(targets: seq<string>, drop: set<string>, client: string) {
    exists t | t in targets && t !in drop :: client in Cleaned(Split(t, ','))
  }

  /** An upgrade-only approval keeps a world out of its own list if and only if no offered target
      that survives the stripping hides the world's id between commas or blanks. */
  lemma UpgradeNoSelfExact(
    r: Relay, user: int, code: string, body: ApproveBody, byWorld: Option<Row>, newCode: string, now: int)
    requires NoSelf(r.clients)
    requires code in r.requests && r.requests[code].upgradeOnly
    requires AnswersWorld(r.clients, user, r.requests[code].worldId, byWorld)
    requires Approve(r, user, code, body, byWorld, newCode, now).response.Accepted?
    ensures var world := RequestedWorld(r.clients, user, r.requests[code], byWorld);
            && world.Some?
            && (NoSelf(Approve(r, user, code, body, byWorld, newCode, now).relay.clients)
                <==> !HidesSelf(body.targets, SelfIds(r.requests[code], world), world.value.client))
  {
    var request := r.requests[code];
    var world := RequestedWorld(r.clients, user, request, byWorld).value;
    var drop := SelfIds(request, Some(world));
    var kept := ApprovedTargets(request, Some(world), body);
    var r' := Approve(r, user, code, body, byWorld, newCode, now).relay;
    JoinedReadsAsPieces(kept);
    PiecesMember(kept, world.client);
    assert Targets(r'.clients, world) == Pieces(kept);
    forall other | other in r'.clients && other != world
      ensures Targets(r'.clients, other) == Targets(r.clients, other)
    {
    }
    forall v ensures v in kept <==> v in body.targets && v !in drop {
      WithoutMember(body.targets, drop, v);
    }
  }

  /** Such a target: any other value, a comma, and the world's own id. */
  lemma HiddenSelfIsStored(user: int, client: string, kc: KnownClient, request: PairRequest, code: string)
    requires ProperId(client) && client !in ReadList(kc.targets)
    requires kc.worldId == Str(request.worldId) && request.client == "" && request.upgradeOnly
    requires request.status == Pending
    ensures var row := Row(user, client);
            var r := Relay(map[row := kc], map[], [], map[code := request]);
            var body := ApproveBody([], ["x," + client], 0);
            && NoSelf(r.clients)
            && Approve(r, user, code, body, Some(row), "", request.expiresAt).response.Accepted?
            && !NoSelf(Approve(r, user, code, body, Some(row), "", request.expiresAt).relay.clients)
  {
    var row := Row(user, client);
    var r := Relay(map[row := kc], map[], [], map[code := request]);
    var body := ApproveBody([], ["x," + client], 0);
    PieceAfterComma(client);
    assert HasWorld(r.clients, user, request.worldId, row);
    assert SelfIds(request, Some(row)) == {client};
    UpgradeNoSelfExact(r, user, code, body, Some(row), "", request.expiresAt);
    assert body.targets[0] == "x," + client && body.targets[0] !in SelfIds(request, Some(row));
    assert HidesSelf(body.targets, SelfIds(request, Some(row)), client);
  }

  /** In particular it does for targets free of commas and surrounding blanks. */
  lemma CleanTargetsHideNothing(targets: seq<string>, drop: set<string>, client: string)
    requires AllClean(targets) && client in drop
    ensures !HidesSelf(targets, drop, client)
  {
    forall t | t in targets && t !in drop ensures client !in Cleaned(Split(t, ',')) {
      SplitWhole(t, ',');
      TrimTrimmed(t);
      assert Cleaned([t]) == [t];
    }
  }

  /** Exchanging a code that carries targets keeps every world out of its own list if and only if
      the world it resolves to is not among those targets: the ids stripped at approval time need
      not include it. */
  lemma ExchangeNoSelfExact(r: Relay, step: Step)
    requires NoSelf(r.clients) && step.DoExchange?
    requires ReadCode(r, step.code, step.body, step.now).None?
    requires r.codes[step.code].targets.Str?
    ensures NoSelf(Apply(r, step).relay.clients)
            <==> ChooseClientId(r.clients, r.codes[step.code], step.body, step.picks, step.minted)
                 !in ReadList(r.codes[step.code].targets)
  {
    var code := r.codes[step.code];
    CarriedTargets(MarkUsed(r, step.code), code, step.body, step.picks, step.minted);
  }

  /** Every answer to every request to exchange this code leaves every world out of its own list. */
  ghost predicate ExchangesSafely(r: Relay, code: string, minted: string, now: int) {
    forall body, picks | ReadCode(r, code, body, now).None? && Answers(r.clients, r.codes[code].user, body, picks) ::
      NoSelf(Exchange(r, code, body, picks, minted, now).relay.clients)
  }

  /** No answer to any request to exchange this code chooses one of its targets. */
  ghost predicate ChoosesNoTarget(r: Relay, code: string, minted: string, now: int)
    requires code in r.codes
  {
    forall body, picks | ReadCode(r, code, body, now).None? && Answers(r.clients, r.codes[code].user, body, picks) ::
      ChooseClientId(r.clients, r.codes[code], body, picks, minted) !in ReadList(r.codes[code].targets)
  }

  lemma SafeIsChoosingNoTarget(r: Relay, code: string, minted: string, now: int)
    requires NoSelf(r.clients) && code in r.codes && r.codes[code].targets.Str?
    ensures ExchangesSafely(r, code, minted, now) <==> ChoosesNoTarget(r, code, minted, now)
  {
    forall body, picks | ReadCode(r, code, body, now).None? && Answers(r.clients, r.codes[code].user, body, picks)
      ensures NoSelf(Exchange(r, code, body, picks, minted, now).relay.clients)
              <==> ChooseClientId(r.clients, r.codes[code], body, picks, minted) !in ReadList(r.codes[code].targets)
    {
      ExchangeNoSelfExact(r, DoExchange(code, body, picks, minted, now));
    }
  }

  /** A code that can be exchanged at all. */
  predicate Readable(r: Relay, code: string, now: int) {
    code != "" && code in r.codes && !r.codes[code].used && now < r.codes[code].expiresAt
  }

  lemma BoundChoice(r: Relay, code: string, minted: string, now: int)
    requires Readable(r, code, now) && IsAddBrowser(r.codes[code])
    ensures ChoosesNoTarget(r, code, minted, now) <==> r.codes[code].bound.s !in ReadList(r.codes[code].targets)
  {
    var body := PairBody("w", "", "", "", "");
    var picks := SomeAnswers(r.clients, r.codes[code].user, body);
    assert ChooseClientId(r.clients, r.codes[code], body, picks, minted) == r.codes[code].bound.s;
  }

  lemma UnboundChoice(r: Relay, code: string, minted: string, now: int)
    requires Readable(r, code, now) && !IsAddBrowser(r.codes[code])
    requires minted !in ReadList(r.codes[code].targets)
    ensures ChoosesNoTarget(r, code, minted, now)
            <==> forall t | t in ReadList(r.codes[code].targets) :: Row(r.codes[code].user, t) !in r.clients
  {
    var record := r.codes[code];
    forall t | t in ReadList(record.targets) && Row(record.user, t) in r.clients
      ensures !ChoosesNoTarget(r, code, minted, now)
    {
      ReadListClean(record.targets);
      var body := PairBody("w", "", "", t, "");
      var picks := SomeAnswers(r.clients, record.user, body);
      assert ChooseClientId(r.clients, record, body, picks, minted) == t;
    }
  }

  /** A readable code that carries targets can be exchanged without a world ever naming itself, if and
      only if it is bound to a world that is not among them or, unbound, names no living world of its
      account: any world it does name can pair as itself. */
  lemma ExchangeSafeExact(r: Relay, code: string, minted: string, now: int)
    requires NoSelf(r.clients) && Readable(r, code, now)
    requires r.codes[code].targets.Str? && minted !in ReadList(r.codes[code].targets)
    ensures var record := r.codes[code];
            ExchangesSafely(r, code, minted, now)
            <==> if IsAddBrowser(record) then record.bound.s !in ReadList(record.targets)
                 else forall t | t in ReadList(record.targets) :: Row(record.user, t) !in r.clients
  {
    SafeIsChoosingNoTarget(r, code, minted, now);
    if IsAddBrowser(r.codes[code]) {
      BoundChoice(r, code, minted, now);
    } else {
      UnboundChoice(r, code, minted, now);
    }
  }

  lemma CarriedTargets(r: Relay, code: PairingCode, body: PairBody, picks: Picks, minted: string)
    requires code.targets.Str?
    ensures var r' := Complete(r, code, body, picks, minted);
            var row := Row(code.user, ChooseClientId(r.clients, code, body, picks, minted));
            && r'.clients.Keys == r.clients.Keys + {row}
            && Targets(r'.clients, row) == ReadList(code.targets)
            && (forall other | other in r.clients && other != row ::
                  Targets(r'.clients, other) == Targets(r.clients, other))
  {
  }

  // ---- Runs with approvals ----

  /** Approvals offer clean targets, and no exchange chooses one of the targets its code carries. */
  ghost predicate CarefulStep(r: Relay, step: Step) {
    && Truthful(r, step)
    && (step.DoExchange? ==>
          && ProperId(step.minted)
          && (step.code in r.codes && r.codes[step.code].targets.Str? ==>
                ChooseClientId(r.clients, r.codes[step.code], step.body, step.picks, step.minted)
                !in ReadList(r.codes[step.code].targets)))
    && (step.DoApprove? ==> AllClean(step.approve.targets))
  }

  ghost predicate CarefulRun(r: Relay, steps: seq<Step>)
    decreases |steps|
  {
    steps != [] ==> CarefulStep(r, steps[0]) && CarefulRun(Apply(r, steps[0]).relay, steps[1..])
  }

  /** Clean targets are stripped of the world itself for good. */
  lemma StrippedStaysStripped(targets: seq<string>, drop: set<string>, client: string)
    requires AllClean(targets) && client in drop
    ensures client !in ReadList(JoinedColumn(Without(targets, drop)))
  {
    var kept := Without(targets, drop);
    forall t | t in kept ensures Clean(t) {
      WithoutMember(targets, drop, t);
    }
    JoinedReadsAsPieces(kept);
    PiecesOfClean(kept);
    WithoutMember(targets, drop, client);
  }

  /** What an approval of either kind does to the lists. */
  lemma ApproveWrites(
    r: Relay, user: int, code: string, body: ApproveBody, byWorld: Option<Row>, newCode: string, now: int)
    requires Approve(r, user, code, body, byWorld, newCode, now).response.Accepted?
    ensures var world := RequestedWorld(r.clients, user, r.requests[code], byWorld);
            var targets := JoinedColumn(ApprovedTargets(r.requests[code], world, body));
            var r' := Approve(r, user, code, body, byWorld, newCode, now).relay;
            && r'.clients.Keys == r.clients.Keys
            && (forall row | row in r.clients ::
                  r'.clients[row].targets == r.clients[row].targets
                  || (world == Some(row) && r'.clients[row].targets == targets))
            && (forall c | c in r'.codes :: (c in r.codes && r'.codes[c] == r.codes[c]) || r'.codes[c].bound.Null?)
  {
  }

  /** Whether an accepted approval writes the requested world's settings. */
  predicate WritesLists(r: Relay, user: int, code: string, body: ApproveBody, byWorld: Option<Row>)
    requires code in r.requests
  {
    var request := r.requests[code];
    var world := RequestedWorld(r.clients, user, request, byWorld);
    world.Some? && (request.upgradeOnly || JoinedColumn(ApprovedTargets(request, world, body)).Str?
                    || JoinedColumn(body.scopes).Str?)
  }

  lemma ApproveStores(
    r: Relay, user: int, code: string, body: ApproveBody, byWorld: Option<Row>, newCode: string, now: int)
    requires code in r.requests && AnswersWorld(r.clients, user, r.requests[code].worldId, byWorld)
    requires Approve(r, user, code, body, byWorld, newCode, now).response.Accepted?
    requires WritesLists(r, user, code, body, byWorld)
    ensures var world := RequestedWorld(r.clients, user, r.requests[code], byWorld).value;
            var r' := Approve(r, user, code, body, byWorld, newCode, now).relay;
            && world in r.clients && world.user == user
            && r'.clients[world].targets
               == JoinedColumn(ApprovedTargets(r.requests[code], Some(world), body))
            && (forall other | other in r.clients && other != world ::
                  r'.clients[other].targets == r.clients[other].targets)
  {
  }

  /** An approval never checks that its targets exist: it keeps every list naming living worlds only,
      if and only if it writes no list or writes one whose comma-separated pieces are living worlds of
      the account, or include the wildcard. */
  lemma ApproveNamesLiveExact(
    r: Relay, user: int, code: string, body: ApproveBody, byWorld: Option<Row>, newCode: string, now: int)
    requires NamesLive(r.clients)
    requires code in r.requests && AnswersWorld(r.clients, user, r.requests[code].worldId, byWorld)
    requires Approve(r, user, code, body, byWorld, newCode, now).response.Accepted?
    ensures var world := RequestedWorld(r.clients, user, r.requests[code], byWorld);
            var pieces := Pieces(ApprovedTargets(r.requests[code], world, body));
            NamesLive(Approve(r, user, code, body, byWorld, newCode, now).relay.clients)
            <==> (WritesLists(r, user, code, body, byWorld) && "*" !in pieces ==>
                    forall t | t in pieces :: Row(user, t) in r.clients)
  {
    var world := RequestedWorld(r.clients, user, r.requests[code], byWorld);
    var kept := ApprovedTargets(r.requests[code], world, body);
    var r' := Approve(r, user, code, body, byWorld, newCode, now).relay;
    ApproveWrites(r, user, code, body, byWorld, newCode, now);
    JoinedReadsAsPieces(kept);
    if WritesLists(r, user, code, body, byWorld) {
      ApproveStores(r, user, code, body, byWorld, newCode, now);
      assert Targets(r'.clients, world.value) == Pieces(kept);
      forall other | other in r'.clients && other != world.value
        ensures Targets(r'.clients, other) == Targets(r.clients, other)
      {
      }
    } else {
      assert r'.clients == r.clients;
    }
  }

  lemma ApproveKeepsSelfFree(r: Relay, step: Step)
    requires SelfFree(r) && step.DoApprove? && CarefulStep(r, step)
    ensures SelfFree(Apply(r, step).relay)
  {
    if Apply(r, step).response.Accepted? {
      ApproveWrites(r, step.user, step.code, step.approve, step.byWorld, step.newCode, step.now);
      var request := r.requests[step.code];
      var world := RequestedWorld(r.clients, step.user, request, step.byWorld);
      if world.Some? {
        StrippedStaysStripped(step.approve.targets, SelfIds(request, world), world.value.client);
      }
    }
  }

  lemma ExchangeKeepsSelfFree(r: Relay, step: Step)
    requires SelfFree(r) && step.DoExchange? && CarefulStep(r, step)
    ensures SelfFree(Apply(r, step).relay)
  {
    if ReadCode(r, step.code, step.body, step.now).None? {
      var code := r.codes[step.code];
      var marked := MarkUsed(r, step.code);
      var r' := Complete(marked, code, step.body, step.picks, step.minted);
      var row := Row(code.user, ChooseClientId(r.clients, code, step.body, step.picks, step.minted));
      ChosenIsProper(r, step.code, step.body, step.picks, step.minted);
      CompleteWrites(marked, code, step.body, step.picks, step.minted);
      assert SameCodes(r.codes, r'.codes);
      SameCodesStayProper(r, r');
      assert Apply(r, step).relay == r';
      assert ReadList(Null) == [] && ReadList(Str("")) == [];
    }
  }

  lemma CompleteWrites(r: Relay, code: PairingCode, body: PairBody, picks: Picks, minted: string)
    ensures var row := Row(code.user, ChooseClientId(r.clients, code, body, picks, minted));
            var r' := Complete(r, code, body, picks, minted);
            && r'.codes == r.codes
            && r'.clients.Keys == r.clients.Keys + {row}
            && (forall other | other in r.clients && other != row :: r'.clients[other] == r.clients[other])
            && (r'.clients[row].targets == code.targets
                || r'.clients[row].targets == if row in r.clients then r.clients[row].targets else Str(""))
  {
  }

  lemma CarefulStepKeepsSelfFree(r: Relay, step: Step)
    requires SelfFree(r) && CarefulStep(r, step)
    ensures SelfFree(Apply(r, step).relay)
  {
    match step
    case DoExchange(_, _, _, _, _) => ExchangeKeepsSelfFree(r, step);
    case DoPatch(user, row, edit) => PatchKeepsSelfFree(r, user, row, edit);
    case DoDelete(user, row) => DeleteKeepsSelfFree(r, user, row);
    case DoApprove(_, _, _, _, _, _) => ApproveKeepsSelfFree(r, step);
    case _ => OtherStepsKeepClients(r, step);
  }

  /** Over any run of all handlers in which approvals offer clean targets and no exchange resolves to
      a target of its code, no world names itself. */
  lemma {:induction false} NoSelfOverCarefulRuns(r: Relay, steps: seq<Step>)
    requires SelfFree(r) && CarefulRun(r, steps)
    ensures SelfFree(Run(r, steps))
    decreases |steps|
  {
    if steps != [] {
      CarefulStepKeepsSelfFree(r, steps[0]);
      NoSelfOverCarefulRuns(Apply(r, steps[0]).relay, steps[1..]);
    }
  }

  /** Every approval is upgrade-only and offers clean targets. */
  ghost predicate UpgradeStep(r: Relay, step: Step) {
    && Truthful(r, step)
    && (step.DoExchange? ==> ProperId(step.minted))
    && (step.DoApprove? ==>
          AllClean(step.approve.targets) && (step.code in r.requests ==> r.requests[step.code].upgradeOnly))
  }

  ghost predicate UpgradeRun(r: Relay, steps: seq<Step>)
    decreases |steps|
  {
    steps != [] ==> UpgradeStep(r, steps[0]) && UpgradeRun(Apply(r, steps[0]).relay, steps[1..])
  }

  lemma UpgradesKeepCodesPlain(r: Relay, step: Step)
    requires PlainCodes(r) && UpgradeStep(r, step)
    ensures PlainCodes(Apply(r, step).relay)
  {
    var r' := Apply(r, step).relay;
    forall code | code in r'.codes ensures r'.codes[code].targets.Null? && r'.codes[code].scopes.Null? {
      if code in r.codes && r'.codes[code] != r.codes[code] {
        assert r'.codes[code] == r.codes[code].(used := true);
      }
    }
  }

  /** In particular over any run whose approvals are upgrade-only with clean targets, whatever the
      exchanges resolve to. */
  lemma {:induction false} NoSelfOverUpgrades(r: Relay, steps: seq<Step>)
    requires SelfFree(r) && PlainCodes(r) && UpgradeRun(r, steps)
    ensures SelfFree(Run(r, steps)) && PlainCodes(Run(r, steps))
    decreases |steps|
  {
    if steps != [] {
      CarefulStepKeepsSelfFree(r, steps[0]);
      UpgradesKeepCodesPlain(r, steps[0]);
      NoSelfOverUpgrades(Apply(r, steps[0]).relay, steps[1..]);
    }
  }

  // ---- An approval that ends in a world naming itself ----

  /** Two worlds of one account share the worldId "w" at different origins, and a device asks to
      pair "w". */
  function TwoServers(): Relay {
    Relay(
      map[Row(1, "fvtt_a") := KnownClient(Str("w"), Null, Null, Str("http://a"), Str(""), Str(""), 0),
          Row(1, "fvtt_b") := KnownClient(Str("w"), Null, Null, Str("http://b"), Str(""), Str(""), 0)],
      map[], [],
      map["REQUEST1" := PairRequest("", "w", Null, Null, false, Pending, Null, None, 600)])
  }

  /** The tables once "fvtt_b" is approved as a target of that request. */
  function TwoServersApproved(): Relay {
    var r := TwoServers();
    var a := Row(1, "fvtt_a");
    Relay(r.clients[a := r.clients[a].(targets := Str("fvtt_b"), scopes := Null)],
          map["CCCCCC" := PairingCode(1, Null, Str("fvtt_b"), Null, 0, 305, false)], [],
          map["REQUEST1" := PairRequest("", "w", Null, Null, false, Approved, Str("CCCCCC"), Some(1), 600)])
  }

  const CROSSED_APPROVAL := ApproveBody([], ["fvtt_b"], 0)
  const CROSSED_BODY := PairBody("w", "", "", "fvtt_b", "http://b")
  const CROSSED_PICKS := Picks(None, Some(Row(1, "fvtt_b")), Some(Row(1, "fvtt_a")))

  /** The worldId lookup at approval answers "fvtt_a", so "fvtt_b" may be approved as a target. */
  lemma CrossedApproval()
    ensures AnswersWorld(TwoServers().clients, 1, "w", Some(Row(1, "fvtt_a")))
    ensures Approve(TwoServers(), 1, "REQUEST1", CROSSED_APPROVAL, Some(Row(1, "fvtt_a")), "CCCCCC", 5)
            == Outcome(TwoServersApproved(), Accepted)
  {
    var a := Row(1, "fvtt_a");
    var request := TwoServers().requests["REQUEST1"];
    assert ApprovedTargets(request, Some(a), CROSSED_APPROVAL) == ["fvtt_b"];
    assert Join(["fvtt_b"], ',') == "fvtt_b";
    assert JoinedColumn(["fvtt_b"]) == Str("fvtt_b");
    assert JoinedColumn([]) == Null;
  }

  lemma CrossedAnswers()
    ensures Answers(TwoServersApproved().clients, 1, CROSSED_BODY, CROSSED_PICKS)
    ensures ChooseClientId(TwoServersApproved().clients, TwoServersApproved().codes["CCCCCC"],
                           CROSSED_BODY, CROSSED_PICKS, "fvtt_c") == "fvtt_b"
  {
    OriginItself();
  }

  lemma CrossedLists()
    ensures NoSelf(TwoServers().clients) && NoSelf(TwoServersApproved().clients)
    ensures ReadList(Str("fvtt_b")) == ["fvtt_b"]
  {
    CrossedReads();
    ListOfOne(TwoServersApproved(), Row(1, "fvtt_a"), Row(1, "fvtt_b"));
  }

  lemma CrossedReads()
    ensures ReadList(Str("fvtt_b")) == ["fvtt_b"]
  {
    assert Clean("fvtt_b");
    CsvRoundTrip(["fvtt_b"]);
    assert Trim("fvtt_b") == "fvtt_b" by {
      TrimTrimmed("fvtt_b");
    }
    assert CsvNullString(["fvtt_b"]) == Str("fvtt_b");
  }

  /** The device then pairs as "fvtt_b", which is left naming itself. */
  lemma ApprovalCanNameItself()
    ensures NoSelf(TwoServersApproved().clients)
    ensures !NoSelf(Apply(TwoServersApproved(),
                          DoExchange("CCCCCC", CROSSED_BODY, CROSSED_PICKS, "fvtt_c", 6)).relay.clients)
  {
    CrossedLists();
    CrossedAnswers();
    ExchangeNoSelfExact(TwoServersApproved(), DoExchange("CCCCCC", CROSSED_BODY, CROSSED_PICKS, "fvtt_c", 6));
  }

  lemma OriginItself()
    ensures Trim("http://b") == "http://b"
  {
    assert Trimmed("http://b");
    TrimTrimmed("http://b");
  }

  lemma ListOfOne(r: Relay, a: Row, b: Row)
    requires r.clients.Keys == {a, b} && a.client == "fvtt_a"
    requires Targets(r.clients, a) == ["fvtt_b"] && Targets(r.clients, b) == []
    ensures NoSelf(r.clients)
  {
  }
}

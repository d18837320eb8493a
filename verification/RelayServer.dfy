/** The pairing, permission and device-flow handlers as they run: step by step over the server's
    tables, with their loops and their in-place filters, each proved against its function in
    Handlers. */
module RelayServer {
  import opened Wrappers
  import opened Text
  import opened Stores
  import opened Handlers

  /** The `kept := list[:0]` idiom: survivors are appended over the array being read, and the
      result is its first `n` elements. */
  method FilterInPlace(list: array<string>, drop: set<string>) returns (n: nat)
    modifies list
    ensures n <= list.Length
    ensures list[..n] == Without(old(list[..]), drop)
  {
    n := 0;
    for i := 0 to list.Length
      invariant n <= i
      invariant list[i..] == old(list[..])[i..]
      invariant list[..n] == Without(old(list[..])[..i], drop)
    {
      var t := list[i];
      assert t == old(list[..])[i];
      assert old(list[..])[..i + 1] == old(list[..])[..i] + [t];
      WithoutConcat(old(list[..])[..i], [t], drop);
      assert Without([t], drop) == if t in drop then [] else [t];
      if t !in drop {
        list[n] := t;
        n := n + 1;
        assert list[..n] == list[..n - 1] + [t];
      }
      assert list[i + 1..] == old(list[..])[i + 1..];
    }
    assert old(list[..])[..list.Length] == old(list[..]);
  }

  /** The same idiom applied to a decoded list. */
  method Stripped(values: seq<string>, drop: set<string>) returns (kept: seq<string>)
    ensures kept == Without(values, drop)
  {
    var list := new string[|values|](i requires 0 <= i < |values| => values[i]);
    assert list[..] == values;
    var n := FilterInPlace(list, drop);
    kept := list[..n];
  }

  /** What the approval page shows of a world: the world and its current settings. */
  datatype Shown = Shown(client: string, targets: seq<string>, scopes: seq<string>, rate: int)

  function ShownFor(clients: Clients, request: PairRequest, world: Option<Row>): Shown
    requires world.Some? ==> world.value in clients
  {
    if world.None? then Shown(request.client, [], [], 0)
    else
      var kc := clients[world.value];
      var resolved := if world.value.client == "" then request.client else world.value.client;
      Shown(resolved, if resolved == "" then ReadList(kc.targets) else Without(ReadList(kc.targets), {resolved}),
            ReadList(kc.scopes), kc.rate)
  }

  predicate ByClient(row: Row, request: PairRequest) {
    request.client != "" && row.client == request.client
  }

  predicate ByWorld(clients: Clients, row: Row, request: PairRequest)
    requires row in clients
  {
    clients[row].worldId.Value() == request.worldId
  }

  /** The world that the capturing loop has settled on after these rows. */
  function Settled(worlds: seq<Row>, clients: Clients, request: PairRequest): (found: Option<Row>)
    requires forall w | w in worlds :: w in clients
    ensures found.Some? ==> found.value in worlds
  {
    if worlds == [] then None
    else
      var before, row := Settled(worlds[..|worlds| - 1], clients, request), worlds[|worlds| - 1];
      if ByClient(row, request) || (before.None? && ByWorld(clients, row, request)) then Some(row) else before
  }

  /** A clientId match wins wherever it stands. */
  lemma {:induction false} SettledByClient(worlds: seq<Row>, clients: Clients, request: PairRequest, w: Row)
    requires forall w | w in worlds :: w in clients
    requires forall i, j | 0 <= i < j < |worlds| :: worlds[i].client != worlds[j].client
    requires w in worlds && ByClient(w, request)
    ensures Settled(worlds, clients, request) == Some(w)
  {
    var n := |worlds| - 1;
    if worlds[n] != w {
      assert worlds == worlds[..n] + [worlds[n]];
      SettledByClient(worlds[..n], clients, request, w);
      var i :| 0 <= i < n && worlds[i] == w;
      assert !ByClient(worlds[n], request);
    }
  }

  /** Else the first worldId match; else nothing is captured. */
  lemma {:induction false} SettledByWorld(worlds: seq<Row>, clients: Clients, request: PairRequest)
    requires forall w | w in worlds :: w in clients && !ByClient(w, request)
    ensures match Settled(worlds, clients, request)
            case None => forall w | w in worlds :: !ByWorld(clients, w, request)
            case Some(row) => exists i :: FirstByWorld(worlds, clients, request, row, i)
  {
    if worlds != [] {
      var n := |worlds| - 1;
      var front := worlds[..n];
      assert worlds == front + [worlds[n]];
      SettledByWorld(front, clients, request);
      match Settled(front, clients, request) {
        case None =>
          if ByWorld(clients, worlds[n], request) {
            assert Settled(worlds, clients, request) == Some(worlds[n]);
            assert forall j | 0 <= j < n :: worlds[j] == front[j] && worlds[j] in front;
            assert FirstByWorld(worlds, clients, request, worlds[n], n);
          }
        case Some(row) =>
          assert Settled(worlds, clients, request) == Some(row) by {
            assert worlds[n] in worlds;
          }
          var i :| FirstByWorld(front, clients, request, row, i);
          assert forall j | 0 <= j < n :: worlds[j] == front[j];
          assert FirstByWorld(worlds, clients, request, row, i);
      }
    }
  }

  /** `row` is the first world, at place `i`, with the request's worldId. */
  ghost predicate FirstByWorld(worlds: seq<Row>, clients: Clients, request: PairRequest, row: Row, i: int)
    requires forall w | w in worlds :: w in clients
  {
    && 0 <= i < |worlds| && worlds[i] == row && ByWorld(clients, row, request)
    && forall j | 0 <= j < i :: !ByWorld(clients, worlds[j], request)
  }

  /** Together: the clientId match wherever it stands, else the first worldId match, else none. */
  lemma SettledIsRight(worlds: seq<Row>, clients: Clients, request: PairRequest)
    requires forall w | w in worlds :: w in clients
    requires forall i, j | 0 <= i < j < |worlds| :: worlds[i].client != worlds[j].client
    ensures forall w | w in worlds && ByClient(w, request) :: Settled(worlds, clients, request) == Some(w)
    ensures (forall w | w in worlds :: !ByClient(w, request)) ==>
              match Settled(worlds, clients, request)
              case None => forall w | w in worlds :: !ByWorld(clients, w, request)
              case Some(row) => exists i :: FirstByWorld(worlds, clients, request, row, i)
  {
    forall w | w in worlds && ByClient(w, request) ensures Settled(worlds, clients, request) == Some(w) {
      SettledByClient(worlds, clients, request, w);
    }
    if forall w | w in worlds :: !ByClient(w, request) {
      SettledByWorld(worlds, clients, request);
    }
  }

  /** The approval page: which world a request is about, and its settings with the world itself
      stripped from its targets. */
  method CaptureSettings(worlds: seq<Row>, clients: Clients, request: PairRequest)
    returns (resolved: string, targets: seq<string>, scopes: seq<string>, rate: int)
    requires forall w | w in worlds :: w in clients
    ensures Shown(resolved, targets, scopes, rate) == ShownFor(clients, request, Settled(worlds, clients, request))
    ensures resolved != "" ==> resolved !in targets
  {
    resolved, targets, scopes, rate := "", [], [], 0;
    var byClient, byWorld := false, false;
    for i := 0 to |worlds|
      invariant byClient || byWorld <==> Settled(worlds[..i], clients, request).Some?
      invariant Captured(clients, Settled(worlds[..i], clients, request), resolved, targets, scopes, rate)
    {
      assert worlds[..i + 1][..i] == worlds[..i];
      var row := worlds[i];
      var kc := clients[row];
      if request.client != "" && row.client == request.client {
        targets, scopes, rate := ReadList(kc.targets), ReadList(kc.scopes), kc.rate;
        resolved := row.client;
        byClient := true;
      } else if !byClient && !byWorld && kc.worldId.Value() == request.worldId {
        targets, scopes, rate := ReadList(kc.targets), ReadList(kc.scopes), kc.rate;
        resolved := row.client;
        byWorld := true;
      }
    }
    assert worlds[..|worlds|] == worlds;
    if resolved == "" {
      resolved := request.client;
    }
    targets := StrippedOf(targets, resolved);
  }

  /** The loop's variables hold the settings of the world settled on. */
  predicate Captured(
    clients: Clients, world: Option<Row>, resolved: string, targets: seq<string>, scopes: seq<string>, rate: int)
    requires world.Some? ==> world.value in clients
  {
    Shown(resolved, targets, scopes, rate) ==
      match world
      case None => Shown("", [], [], 0)
      case Some(row) =>
        Shown(row.client, ReadList(clients[row].targets), ReadList(clients[row].scopes), clients[row].rate)
  }

  /** A world cannot target itself. */
  method StrippedOf(targets: seq<string>, resolved: string) returns (kept: seq<string>)
    ensures kept == if resolved == "" then targets else Without(targets, {resolved})
    ensures resolved != "" ==> resolved !in kept
  {
    kept := targets;
    if resolved != "" && |targets| > 0 {
      kept := Stripped(targets, {resolved});
    }
    WithoutMember(targets, {resolved}, resolved);
  }

  class Server {
    var clients: Clients
    var codes: map<string, PairingCode>
    var tokens: seq<Token>
    var requests: map<string, PairRequest>

    function Tables(): Relay
      reads this
    {
      Relay(clients, codes, tokens, requests)
    }

    constructor ()
      ensures Tables() == EMPTY_RELAY
    {
      clients, codes, tokens, requests := map[], map[], [], map[];
    }

    // ---- Lookups: LIMIT 1 without an order returns any matching row ----

    method FindByServerFingerprint(user: int, fingerprint: string) returns (found: Option<Row>)
      ensures AnswersFingerprint(clients, user, fingerprint, found)
    {
      found := None;
      if row :| row in clients && HasFingerprint(clients, user, fingerprint, row) {
        found := Some(row);
      }
    }

    method FindByWorldID(user: int, worldId: string) returns (found: Option<Row>)
      ensures AnswersWorld(clients, user, worldId, found)
    {
      found := None;
      if row :| row in clients && HasWorld(clients, user, worldId, row) {
        found := Some(row);
      }
    }

    method FindByWorldIDAndPublicUrl(user: int, worldId: string, origin: string) returns (found: Option<Row>)
      ensures AnswersWorldAndOrigin(clients, user, worldId, origin, found)
    {
      found := None;
      if row :| row in clients && HasWorldAndOrigin(clients, user, worldId, origin, row) {
        found := Some(row);
      }
    }

    // ---- POST /auth/pair ----

    /** The lookups in priority order; each later one is consulted only while no id is found. */
    method ResolveClientId(code: PairingCode, body: PairBody, minted: string) returns (client: string)
      ensures exists picks ::
                && Answers(clients, code.user, body, picks)
                && client == ChooseClientId(clients, code, body, picks, minted)
    {
      ghost var picks := SomeAnswers(clients, code.user, body);
      client := "";
      if code.bound.Value() != "" {
        client := code.bound.s;
      } else if body.existingClientId != "" {
        var row := Row(code.user, body.existingClientId);
        if row in clients && OriginConsistent(clients[row], body.origin) {
          client := row.client;
        }
      }
      if client == "" && body.fingerprint != "" {
        var found := FindByServerFingerprint(code.user, body.fingerprint);
        picks := picks.(byFingerprint := found);
        if found.Some? && OriginConsistent(clients[found.value], body.origin) {
          client := found.value.client;
        }
      }
      if client == "" && body.worldId != "" {
        var found := None;
        if body.origin != "" {
          found := FindByWorldIDAndPublicUrl(code.user, body.worldId, body.origin);
          picks := picks.(byOrigin := found);
        }
        if found.None? {
          found := FindByWorldID(code.user, body.worldId);
          picks := picks.(byWorld := found);
          if found.Some? && !OriginConsistent(clients[found.value], body.origin) {
            found := None;
          }
        }
        if found.Some? {
          client := found.value.client;
        }
      }
      if client == "" {
        client := minted;
      }
      assert Answers(clients, code.user, body, picks);
      assert client == ChooseClientId(clients, code, body, picks, minted);
    }

    method Pair(code: string, body: PairBody, minted: string, now: int) returns (response: Response)
      modifies this
      ensures match ReadCode(old(Tables()), code, body, now)
              case Some(http) => response == Refused(http) && Tables() == old(Tables())
              case None =>
                exists picks ::
                  && Answers(old(clients), old(codes)[code].user, body, picks)
                  && Outcome(Tables(), response) == Exchange(old(Tables()), code, body, picks, minted, now)
    {
      if code == "" {
        return Refused(400);
      }
      if code !in codes || codes[code].expiresAt <= now {
        return Refused(404);
      }
      var record := codes[code];
      if record.used {
        return Refused(410);
      }
      if record.bound.Value() == "" && body.worldId == "" {
        return Refused(400);
      }
      codes := codes[code := record.(used := true)];
      var client := ResolveClientId(record, body, minted);
      ghost var picks :| Answers(clients, record.user, body, picks)
                         && client == ChooseClientId(clients, record, body, picks, minted);
      tokens := tokens + [Token(record.user, client)];
      var row := Row(record.user, client);
      var info := WorldInfo(Null, Null, Null, Null);
      if record.bound.Value() == "" {
        info := info.(worldId := Str(body.worldId), worldTitle := NullIfEmpty(body.worldTitle));
      }
      if body.fingerprint != "" {
        info := info.(fingerprint := Str(body.fingerprint));
      }
      if body.origin != "" {
        info := info.(publicUrl := Str(body.origin));
      }
      clients := Upsert(clients, row, info);
      if record.targets.Str? || record.scopes.Str? {
        clients := SetCrossWorldSettings(clients, row, record.targets, record.scopes, record.rate);
      }
      assert info == Metadata(record, body);
      response := Paired(record.user, client);
      assert Outcome(Tables(), response) == Exchange(old(Tables()), code, body, picks, minted, now);
    }

    method NewPairingCode(user: int, bound: string, newCode: string, now: int) returns (response: Response)
      modifies this
      ensures Outcome(Tables(), response) == GenerateCode(old(Tables()), user, bound, newCode, now)
    {
      var boundColumn := Null;
      if bound != "" {
        if Row(user, bound) !in clients {
          return Refused(404);
        }
        boundColumn := Str(bound);
      }
      if newCode in codes {
        return Refused(500);
      }
      codes := codes[newCode := PairingCode(user, boundColumn, Null, Null, 0, now + DASHBOARD_CODE_SECONDS, false)];
      response := Accepted;
    }

    // ---- PATCH /auth/known-clients/:id ----

    method PatchKnownClient(user: int, row: Row, edit: Edit) returns (response: Response)
      modifies this
      ensures Outcome(Tables(), response) == Patch(old(Tables()), user, row, edit)
    {
      if row !in clients || row.user != user {
        return Refused(404);
      }
      var known := clients[row];
      var wanted: seq<string> := [];
      if edit.targets.Some? {
        wanted := Others(edit.targets.value, row.client);
      }
      for i := 0 to |wanted|
        invariant TargetsKnown(clients, user, wanted[..i])
      {
        if wanted[i] != "*" && Row(user, wanted[i]) !in clients {
          assert wanted[i] in wanted;
          return Refused(400);
        }
      }
      assert wanted[..|wanted|] == wanted;
      if edit.scopes.Some? {
        var scopes := edit.scopes.value;
        for i := 0 to |scopes|
          invariant AllScopesKnown(scopes[..i])
        {
          if scopes[i] !in ALL_SCOPES {
            assert scopes[i] in scopes;
            return Refused(400);
          }
        }
        assert scopes[..|scopes|] == scopes;
      }
      var targetsColumn, scopesColumn, rate := known.targets, known.scopes, known.rate;
      if edit.targets.Some? {
        targetsColumn := CsvNullString(wanted);
      }
      if edit.scopes.Some? {
        scopesColumn := CsvNullString(edit.scopes.value);
      }
      if edit.rate.Some? {
        rate := edit.rate.value;
      }
      clients := SetCrossWorldSettings(clients, row, targetsColumn, scopesColumn, rate);
      response := Accepted;
    }

    // ---- DELETE /auth/known-clients/:id ----

    method DeleteKnownClient(user: int, row: Row) returns (response: Response)
      modifies this
      ensures Outcome(Tables(), response) == Delete(old(Tables()), user, row)
    {
      if row !in clients || row.user != user {
        return Refused(404);
      }
      tokens := DropTokens(tokens, Token(user, row.client));
      clients := clients - {row};
      RevokeFromSiblings(user, row.client);
      response := Accepted;
    }

    /** The cleanup loop: the account's worlds in whatever order the store lists them. */
    method RevokeFromSiblings(user: int, gone: string)
      modifies this`clients
      ensures clients == Siblings(old(clients), user, gone)
    {
      var before := clients;
      var todo := set row | row in clients && row.user == user;
      while todo != {}
        invariant todo <= before.Keys
        invariant clients.Keys == before.Keys
        invariant forall row | row in before ::
                    clients[row] == if row.user == user && row !in todo then Revoked(before[row], gone) else before[row]
        invariant forall row | row in todo :: row.user == user
        decreases |todo|
      {
        var sibling :| sibling in todo;
        todo := todo - {sibling};
        var kc := clients[sibling];
        var targets := ReadList(kc.targets);
        if |targets| > 0 && "*" !in targets {
          var kept := Stripped(targets, {gone});
          if |kept| != |targets| {
            var column := Null;
            if |kept| > 0 {
              column := Str(Join(kept, ','));
            }
            clients := SetCrossWorldSettings(clients, sibling, column, kc.scopes, kc.rate);
          }
        }
      }
    }

    // ---- /auth/pair-request ----

    method OpenPairRequest(newCode: string, body: RequestBody, now: int) returns (response: Response)
      modifies this
      ensures Outcome(Tables(), response) == OpenRequest(old(Tables()), newCode, body, now)
    {
      if body.worldId == "" {
        return Refused(400);
      }
      if !AllScopesKnown(body.scopes) {
        return Refused(400);
      }
      var targets := Stripped(body.targets, {"*"});
      if newCode in requests {
        return Refused(500);
      }
      var request := PairRequest(body.client, body.worldId, Null, Null, body.upgradeOnly, Pending, Null, None,
                                 now + REQUEST_SECONDS);
      if |body.scopes| > 0 {
        request := request.(wantedScopes := Str(Join(body.scopes, ',')));
      }
      if |targets| > 0 {
        request := request.(wantedTargets := Str(Join(targets, ',')));
      }
      requests := requests[newCode := request];
      response := Accepted;
    }

    method PollPairRequest(code: string, now: int) returns (response: Response)
      modifies this
      ensures Outcome(Tables(), response) == Poll(old(Tables()), code, now)
    {
      if code !in requests {
        return Refused(404);
      }
      var request := requests[code];
      if request.expiresAt < now && request.status == Pending {
        return Refused(410);
      }
      match request.status {
        case Approved =>
          requests := requests[code := request.(status := Exchanged)];
          if request.upgradeOnly || request.pairingCode.Null? {
            response := Polled(Approved, Null);
          } else {
            response := Polled(Approved, request.pairingCode);
          }
        case Expired =>
          response := Refused(410);
        case status =>
          response := Polled(status, Null);
      }
    }

    method ApprovePairRequest(user: int, code: string, body: ApproveBody, newCode: string, now: int)
      returns (response: Response)
      modifies this
      ensures exists byWorld ::
                && (code in old(requests) ==> AnswersWorld(old(clients), user, old(requests)[code].worldId, byWorld))
                && Outcome(Tables(), response) == Approve(old(Tables()), user, code, body, byWorld, newCode, now)
    {
      ghost var byWorld: Option<Row> := None;
      if code !in requests {
        response := Refused(404);
        assert Outcome(Tables(), response) == Approve(old(Tables()), user, code, body, byWorld, newCode, now);
        return;
      }
      var request := requests[code];
      ghost var offers := SomeAnswers(clients, user, PairBody(request.worldId, "", "", "", ""));
      byWorld := offers.byWorld;
      if request.status != Pending {
        response := Refused(400);
        assert Outcome(Tables(), response) == Approve(old(Tables()), user, code, body, byWorld, newCode, now);
        return;
      }
      if request.expiresAt < now {
        response := Refused(410);
        assert Outcome(Tables(), response) == Approve(old(Tables()), user, code, body, byWorld, newCode, now);
        return;
      }
      var existing := None;
      if request.client != "" && Row(user, request.client) in clients {
        existing := Some(Row(user, request.client));
      }
      if existing.None? {
        existing := FindByWorldID(user, request.worldId);
        byWorld := existing;
      }
      assert existing == RequestedWorld(clients, user, request, byWorld);
      var selfIds: set<string> := {};
      if request.client != "" {
        selfIds := selfIds + {request.client};
      }
      if existing.Some? {
        selfIds := selfIds + {existing.value.client};
      }
      assert selfIds == SelfIds(request, existing);
      var kept := Stripped(body.targets, selfIds);
      var targets, scopes := JoinedColumn(kept), JoinedColumn(body.scopes);
      if request.upgradeOnly {
        if existing.None? {
          response := Refused(400);
        } else {
          clients := SetCrossWorldSettings(clients, existing.value, targets, scopes, body.rate);
          requests := requests[code := request.(status := Approved, pairingCode := Str(""), approver := Some(user))];
          response := Accepted;
        }
      } else if newCode in codes {
        response := Refused(500);
      } else {
        var pairing := PairingCode(user, Null, targets, scopes, body.rate, now + REQUEST_CODE_SECONDS, false);
        codes := codes[newCode := pairing];
        if existing.Some? && (scopes.Str? || targets.Str?) {
          clients := SetCrossWorldSettings(clients, existing.value, targets, scopes, body.rate);
        }
        requests := requests[code := request.(status := Approved, pairingCode := Str(newCode), approver := Some(user))];
        response := Accepted;
      }
      assert Outcome(Tables(), response) == Approve(old(Tables()), user, code, body, byWorld, newCode, now);
    }

    method DenyPairRequest(code: string) returns (response: Response)
      modifies this
      ensures Outcome(Tables(), response) == Deny(old(Tables()), code)
    {
      if code !in requests {
        return Refused(404);
      }
      if requests[code].status != Pending {
        return Refused(400);
      }
      requests := requests[code := requests[code].(status := Denied)];
      response := Accepted;
    }
  }

  /** PATCH builds a fresh list rather than filtering in place. */
  method Others(values: seq<string>, self: string) returns (cleaned: seq<string>)
    ensures cleaned == Without(values, {self})
  {
    cleaned := [];
    for i := 0 to |values|
      invariant cleaned == Without(values[..i], {self})
    {
      assert values[..i + 1] == values[..i] + [values[i]];
      WithoutConcat(values[..i], [values[i]], {self});
      assert Without([values[i]], {self}) == if values[i] == self then [] else [values[i]];
      if values[i] != self {
        cleaned := cleaned + [values[i]];
      }
    }
    assert values[..|values|] == values;
  }
}

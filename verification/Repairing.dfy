/** Re-pairing: a world that pairs again from the same origin keeps its clientId, and two worlds
    that only share a worldId do not collapse onto one. */
module Repairing {
  import opened Text
  import opened Stores
  import opened Handlers
  import opened OriginSeparation

  /** A world issued to an origin without surrounding blanks stays compatible with it, over any run
      that leaves its row in place. */
  lemma IssuedStaysHome(r: Relay, steps: seq<Step>, i: nat)
    requires GrantedRun(System(r, []), steps)
    requires var s := Runs(System(r, []), steps);
             i < |s.issued| && Trimmed(s.issued[i].origin) && s.issued[i].row in s.relay.clients
    ensures var s := Runs(System(r, []), steps);
            && OriginConsistent(s.relay.clients[s.issued[i].row], s.issued[i].origin)
            && (s.issued[i].origin != "" ==>
                  s.relay.clients[s.issued[i].row].publicUrl == Str(s.issued[i].origin))
  {
    RunKeepsRecorded(System(r, []), steps);
    var origin := Runs(System(r, []), steps).issued[i].origin;
    TrimTrimmed(origin);
  }

  /** An exchange in a granted run, by a code that is not bound to a world. */
  ghost predicate Pairs(s: System, step: Step) {
    && step.DoExchange?
    && Granted(s, step, true)
    && ReadCode(s.relay, step.code, step.body, step.now).None?
    && !IsAddBrowser(s.relay.codes[step.code])
  }

  /** World `i` of the history is alive, belongs to the pairing account, and was issued to the very
      origin that now pairs. */
  ghost predicate ComesHome(s: System, i: nat, step: Step)
    requires Pairs(s, step)
  {
    && i < |s.issued|
    && s.issued[i].row in s.relay.clients
    && s.issued[i].row.user == s.relay.codes[step.code].user
    && s.issued[i].row.client != ""
    && s.issued[i].origin == step.body.origin && Trimmed(step.body.origin)
  }

  /** The module sends back the id it was given: it gets that id again, over any run in between
      that leaves its row in place, whatever the fingerprint and worldId lookups would offer. */
  lemma RepairKeepsId(r: Relay, steps: seq<Step>, i: nat, step: Step)
    requires GrantedRun(System(r, []), steps)
    requires var s := Runs(System(r, []), steps);
             && Pairs(s, step) && ComesHome(s, i, step)
             && step.body.existingClientId == s.issued[i].row.client
    ensures var s := Runs(System(r, []), steps);
            Apply(s.relay, step).response == Paired(s.issued[i].row.user, s.issued[i].row.client)
  {
    IssuedStaysHome(r, steps, i);
  }

  /** The module lost its id but kept its fingerprint, which no other world of the account has: over
      any run, it gets its id again, even when worldId and origin point at another world. */
  lemma RepairByFingerprintOverRuns(r: Relay, steps: seq<Step>, i: nat, step: Step)
    requires GrantedRun(System(r, []), steps)
    requires var s := Runs(System(r, []), steps);
             && Pairs(s, step) && ComesHome(s, i, step)
             && step.body.existingClientId == "" && step.body.fingerprint != ""
             && s.relay.clients[s.issued[i].row].fingerprint == Str(step.body.fingerprint)
             && forall row | HasFingerprint(s.relay.clients, s.issued[i].row.user, step.body.fingerprint, row) ::
                  row == s.issued[i].row
    ensures var s := Runs(System(r, []), steps);
            Apply(s.relay, step).response == Paired(s.issued[i].row.user, s.issued[i].row.client)
  {
    var s := Runs(System(r, []), steps);
    IssuedStaysHome(r, steps, i);
    RepairByFingerprint(s.relay.clients, s.relay.codes[step.code], step.body, step.picks, step.minted, s.issued[i].row);
  }

  /** The module kept neither, but no other world shares its worldId and origin: over any run, it gets
      its id again, however many worlds at other origins share the worldId. */
  lemma RepairByWorldOverRuns(r: Relay, steps: seq<Step>, i: nat, step: Step)
    requires GrantedRun(System(r, []), steps)
    requires var s := Runs(System(r, []), steps);
             && Pairs(s, step) && ComesHome(s, i, step)
             && step.body.existingClientId == "" && step.body.fingerprint == "" && step.body.origin != ""
             && s.relay.clients[s.issued[i].row].worldId == Str(step.body.worldId)
             && (forall row | row in s.relay.clients :: row.client != "")
             && forall row | HasWorldAndOrigin(s.relay.clients, s.issued[i].row.user, step.body.worldId,
                                               step.body.origin, row) ::
                  row == s.issued[i].row
    ensures var s := Runs(System(r, []), steps);
            Apply(s.relay, step).response == Paired(s.issued[i].row.user, s.issued[i].row.client)
  {
    var s := Runs(System(r, []), steps);
    IssuedStaysHome(r, steps, i);
    var row := s.issued[i].row;
    assert HasWorldAndOrigin(s.relay.clients, row.user, step.body.worldId, step.body.origin, row);
    RepairByWorldAndOrigin(s.relay.clients, s.relay.codes[step.code], step.body, step.picks, step.minted);
  }

  /** A server at a new origin never inherits an id: over any run in which every world of the account
      with this worldId was paired from some other known origin, pairing for the first time mints a
      new one. */
  lemma NewOriginGetsNewWorld(r: Relay, steps: seq<Step>, step: Step)
    requires GrantedRun(System(r, []), steps)
    requires var s := Runs(System(r, []), steps);
             && Pairs(s, step)
             && step.body.existingClientId == "" && step.body.fingerprint == "" && step.body.origin != ""
             && forall row | HasWorld(s.relay.clients, s.relay.codes[step.code].user, step.body.worldId, row) ::
                  exists i :: PairedElsewhere(s, i, row, step.body.origin)
    ensures var s := Runs(System(r, []), steps);
            Apply(s.relay, step).response == Paired(s.relay.codes[step.code].user, step.minted)
  {
    var s := Runs(System(r, []), steps);
    var user := s.relay.codes[step.code].user;
    forall row | row in s.relay.clients && row.user == user && s.relay.clients[row].worldId == Str(step.body.worldId)
      ensures Trimmed(s.relay.clients[row].publicUrl.Value())
      ensures s.relay.clients[row].publicUrl.Value() !in {"", step.body.origin}
    {
      assert HasWorld(s.relay.clients, user, step.body.worldId, row);
      var i :| PairedElsewhere(s, i, row, step.body.origin);
      IssuedStaysHome(r, steps, i);
    }
    SharedWorldIdStaysApart(s.relay.clients, s.relay.codes[step.code], step.body, step.picks, step.minted);
  }

  ghost predicate PairedElsewhere(s: System, i: int, row: Row, origin: string) {
    && 0 <= i < |s.issued| && s.issued[i].row == row
    && Trimmed(s.issued[i].origin) && s.issued[i].origin !in {"", origin}
  }

  /** The module lost its id but kept its fingerprint, which only one of the account's worlds has:
      that world's id comes back, even when worldId and origin point at another world. */
  lemma RepairByFingerprint(clients: Clients, code: PairingCode, body: PairBody, picks: Picks, minted: string, row: Row)
    requires Answers(clients, code.user, body, picks)
    requires !IsAddBrowser(code) && body.existingClientId == "" && body.fingerprint != ""
    requires HasFingerprint(clients, code.user, body.fingerprint, row) && row.client != ""
    requires forall other | HasFingerprint(clients, code.user, body.fingerprint, other) :: other == row
    requires OriginConsistent(clients[row], body.origin)
    ensures ChooseClientId(clients, code, body, picks, minted) == row.client
  {
    assert picks.byFingerprint.Some? && HasFingerprint(clients, code.user, body.fingerprint, picks.byFingerprint.value);
  }

  /** Neither id nor fingerprint: among worlds that share the worldId, the one at this origin is
      chosen over every one at another origin. */
  lemma RepairByWorldAndOrigin(clients: Clients, code: PairingCode, body: PairBody, picks: Picks, minted: string)
    requires Answers(clients, code.user, body, picks)
    requires !IsAddBrowser(code) && body.existingClientId == "" && body.fingerprint == ""
    requires body.worldId != "" && body.origin != ""
    requires exists row | row in clients :: HasWorldAndOrigin(clients, code.user, body.worldId, body.origin, row)
    requires forall row | row in clients :: row.client != ""
    ensures var chosen := Row(code.user, ChooseClientId(clients, code, body, picks, minted));
            HasWorldAndOrigin(clients, code.user, body.worldId, body.origin, chosen)
  {
    var row :| row in clients && HasWorldAndOrigin(clients, code.user, body.worldId, body.origin, row);
    assert picks.byOrigin.Some?;
    assert HasWorldAndOrigin(clients, code.user, body.worldId, body.origin, picks.byOrigin.value);
  }

  /** A world is reused only for a reason: it is the one the code is bound to, the one the module
      names, one with the fingerprint or one with the worldId. Otherwise the id is new. */
  lemma ReuseHasAReason(clients: Clients, code: PairingCode, body: PairBody, picks: Picks, minted: string)
    requires Answers(clients, code.user, body, picks)
    ensures var chosen := Row(code.user, ChooseClientId(clients, code, body, picks, minted));
            || (IsAddBrowser(code) && chosen.client == code.bound.s)
            || (chosen in clients && OriginConsistent(clients[chosen], body.origin)
                && chosen.client == body.existingClientId)
            || (chosen in clients && OriginConsistent(clients[chosen], body.origin)
                && HasFingerprint(clients, code.user, body.fingerprint, chosen))
            || (HasWorld(clients, code.user, body.worldId, chosen)
                && (OriginConsistent(clients[chosen], body.origin) || clients[chosen].publicUrl == Str(body.origin)))
            || chosen.client == minted
  {
  }

  /** Two servers that share a worldId at different known origins, pairing for the first time, get
      two worlds: the second does not inherit the first one's id. */
  lemma SharedWorldIdStaysApart(clients: Clients, code: PairingCode, body: PairBody, picks: Picks, minted: string)
    requires Answers(clients, code.user, body, picks)
    requires !IsAddBrowser(code) && body.existingClientId == "" && body.origin != ""
    requires forall row | row in clients && row.user == code.user && clients[row].worldId == Str(body.worldId) ::
               Trimmed(clients[row].publicUrl.Value()) && clients[row].publicUrl.Value() !in {"", body.origin}
    requires forall row | row in clients && row.user == code.user ::
               body.fingerprint == "" || clients[row].fingerprint != Str(body.fingerprint)
    ensures ChooseClientId(clients, code, body, picks, minted) == minted
  {
    if picks.byWorld.Some? {
      TrimTrimmed(clients[picks.byWorld.value].publicUrl.s);
    }
  }
}

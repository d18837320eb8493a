/** The data fixes at the end of every start: three account fixes and a purge that a marker row lets
    run once, and two API-key fixes that run every time. */
module StartupRepairs {
  import opened Wrappers

  datatype Id = Id(value: int)

  datatype Account = Account(apiKeyHash: string, rotationRequired: bool, emailVerified: bool)

  datatype ApiKey = ApiKey(key: string, keyHash: string, scopes: Option<string>, scopedClientIds: Option<string>)

  datatype Marker = ForceRotation | PurgeUnknownWorlds | VerifyEmails | UserKeyHashes

  /** `worlds` maps a world's row to its world id, if it has one. */
  datatype Data = Data(
    accounts: map<Id, Account>, apiKeys: map<Id, ApiKey>, worlds: map<Id, Option<string>>, markers: set<Marker>)

  /** SHA-256, of which only this matters: a digest is not empty. */
  ghost predicate IsDigest(hash: string -> string) {
    forall s :: hash(s) != ""
  }

  function Rotated(accounts: map<Id, Account>): map<Id, Account> {
    map id | id in accounts :: accounts[id].(rotationRequired := true)
  }

  function Verified(accounts: map<Id, Account>): map<Id, Account> {
    map id | id in accounts :: accounts[id].(emailVerified := true)
  }

  /** An account without a hash gets one and must rotate; `minted` are the hashes of the keys drawn. */
  function WithHash(account: Account, minted: string): Account {
    if account.apiKeyHash == "" then account.(apiKeyHash := minted, rotationRequired := true) else account
  }

  function WithHashes(accounts: map<Id, Account>, minted: Id -> string): map<Id, Account> {
    map id | id in accounts :: WithHash(accounts[id], minted(id))
  }

  function Hashed(key: ApiKey, hash: string -> string): ApiKey {
    if key.keyHash == "" && key.key != "" then key.(keyHash := hash(key.key)) else key
  }

  /** Scopes and scoped client ids were stored in each other's column. */
  function ScopesFixed(key: ApiKey): ApiKey {
    if key.scopes.None? then
      var recovered := if key.scopedClientIds.Some? then key.scopedClientIds.value else "";
      key.(scopes := Some(recovered), scopedClientIds := None)
    else key
  }

  function AllHashed(keys: map<Id, ApiKey>, hash: string -> string): map<Id, ApiKey> {
    map id | id in keys :: Hashed(keys[id], hash)
  }

  function AllScopesFixed(keys: map<Id, ApiKey>): map<Id, ApiKey> {
    map id | id in keys :: ScopesFixed(keys[id])
  }

  function KnownWorlds(worlds: map<Id, Option<string>>): map<Id, Option<string>> {
    map id | id in worlds && worlds[id].Some? :: worlds[id]
  }

  function Once<T>(done: bool, before: T, after: T): T {
    if done then before else after
  }

  /** The data after one start. */
  function Repaired(d: Data, hash: string -> string, minted: Id -> string): Data {
    var rotated := Once(ForceRotation in d.markers, d.accounts, Rotated(d.accounts));
    var verified := Once(VerifyEmails in d.markers, rotated, Verified(rotated));
    var hashed := Once(UserKeyHashes in d.markers, verified, WithHashes(verified, minted));
    Data(hashed,
         AllScopesFixed(AllHashed(d.apiKeys, hash)),
         Once(PurgeUnknownWorlds in d.markers, d.worlds, KnownWorlds(d.worlds)),
         d.markers + {ForceRotation, PurgeUnknownWorlds, VerifyEmails, UserKeyHashes})
  }

  class Database {
    var accounts: map<Id, Account>
    var apiKeys: map<Id, ApiKey>
    var worlds: map<Id, Option<string>>
    var markers: set<Marker>

    function Contents(): Data
      reads this
    {
      Data(accounts, apiKeys, worlds, markers)
    }

    constructor (d: Data)
      ensures Contents() == d
    {
      accounts, apiKeys, worlds, markers := d.accounts, d.apiKeys, d.worlds, d.markers;
    }

    method Repair(hash: string -> string, minted: Id -> string)
      modifies this
      ensures Contents() == Repaired(old(Contents()), hash, minted)
    {
      ForceRotationIfNeeded();
      BackfillAPIKeyHashes(hash);
      apiKeys := AllScopesFixed(apiKeys);
      PurgeUnknownWorldRows();
      BackfillEmailVerified();
      BackfillUserAPIKeyHashes(minted);
    }

    method ForceRotationIfNeeded()
      modifies this`accounts, this`markers
      ensures accounts == Once(ForceRotation in old(markers), old(accounts), Rotated(old(accounts)))
      ensures markers == old(markers) + {ForceRotation}
    {
      if ForceRotation in markers {
        return;
      }
      accounts := Rotated(accounts);
      markers := markers + {ForceRotation};
    }

    /** The rows without a hash are collected first, then updated one by one. */
    method BackfillAPIKeyHashes(hash: string -> string)
      modifies this`apiKeys
      ensures apiKeys == AllHashed(old(apiKeys), hash)
    {
      ghost var before := apiKeys;
      var todo := set id | id in apiKeys && apiKeys[id].keyHash == "" && apiKeys[id].key != "";
      while todo != {}
        invariant apiKeys.Keys == before.Keys && todo <= before.Keys
        invariant forall id | id in todo ::
                    apiKeys[id] == before[id] && before[id].keyHash == "" && before[id].key != ""
        invariant forall id | id in before && id !in todo :: apiKeys[id] == Hashed(before[id], hash)
        decreases todo
      {
        var id :| id in todo;
        apiKeys := apiKeys[id := apiKeys[id].(keyHash := hash(apiKeys[id].key))];
        todo := todo - {id};
      }
    }

    method PurgeUnknownWorldRows()
      modifies this`worlds, this`markers
      ensures worlds == Once(PurgeUnknownWorlds in old(markers), old(worlds), KnownWorlds(old(worlds)))
      ensures markers == old(markers) + {PurgeUnknownWorlds}
    {
      if PurgeUnknownWorlds in markers {
        return;
      }
      worlds := KnownWorlds(worlds);
      markers := markers + {PurgeUnknownWorlds};
    }

    method BackfillEmailVerified()
      modifies this`accounts, this`markers
      ensures accounts == Once(VerifyEmails in old(markers), old(accounts), Verified(old(accounts)))
      ensures markers == old(markers) + {VerifyEmails}
    {
      if VerifyEmails in markers {
        return;
      }
      accounts := Verified(accounts);
      markers := markers + {VerifyEmails};
    }

    method BackfillUserAPIKeyHashes(minted: Id -> string)
      modifies this`accounts, this`markers
      ensures accounts == Once(UserKeyHashes in old(markers), old(accounts), WithHashes(old(accounts), minted))
      ensures markers == old(markers) + {UserKeyHashes}
    {
      if UserKeyHashes in markers {
        return;
      }
      ghost var before := accounts;
      var todo := set id | id in accounts && accounts[id].apiKeyHash == "";
      while todo != {}
        invariant accounts.Keys == before.Keys && todo <= before.Keys && markers == old(markers)
        invariant forall id | id in todo :: accounts[id] == before[id] && before[id].apiKeyHash == ""
        invariant forall id | id in before && id !in todo :: accounts[id] == WithHash(before[id], minted(id))
        decreases todo
      {
        var id :| id in todo;
        accounts := accounts[id := accounts[id].(apiKeyHash := minted(id), rotationRequired := true)];
        todo := todo - {id};
      }
      markers := markers + {UserKeyHashes};
    }
  }

  // ---- Restarts leave later data alone ----

  /** What happens between starts: rows of any content appear, change and go. */
  datatype Event =
    | Restart(minted: Id -> string)
    | PutAccount(id: Id, account: Account)
    | DropAccount(id: Id)
    | PutWorld(id: Id, worldId: Option<string>)
    | DropWorld(id: Id)
    | PutApiKey(id: Id, apiKey: ApiKey)
    | DropApiKey(id: Id)

  function After(d: Data, event: Event, hash: string -> string): Data {
    match event
    case Restart(minted) => Repaired(d, hash, minted)
    case PutAccount(id, account) => d.(accounts := d.accounts[id := account])
    case DropAccount(id) => d.(accounts := d.accounts - {id})
    case PutWorld(id, worldId) => d.(worlds := d.worlds[id := worldId])
    case DropWorld(id) => d.(worlds := d.worlds - {id})
    case PutApiKey(id, apiKey) => d.(apiKeys := d.apiKeys[id := apiKey])
    case DropApiKey(id) => d.(apiKeys := d.apiKeys - {id})
  }

  function Life(d: Data, events: seq<Event>, hash: string -> string): Data
    decreases |events|
  {
    if events == [] then d else Life(After(d, events[0], hash), events[1..], hash)
  }

  /** The same history with no restarts in it. */
  function WithoutRestarts(events: seq<Event>): seq<Event> {
    if events == [] then []
    else (if events[0].Restart? then [] else [events[0]]) + WithoutRestarts(events[1..])
  }

  predicate AllDone(d: Data) {
    {ForceRotation, PurgeUnknownWorlds, VerifyEmails, UserKeyHashes} <= d.markers
  }

  /** An API key that the fixes have nothing to do to, and one is so after being fixed. */
  predicate Sound(key: ApiKey) {
    key.scopes.Some? && (key.keyHash != "" || key.key == "")
  }

  /** What remains comparable when one history restarts and the other does not. */
  ghost predicate SameButKeys(d: Data, e: Data, hash: string -> string) {
    && AllDone(d) && AllDone(e)
    && d.accounts == e.accounts && d.worlds == e.worlds && d.apiKeys.Keys == e.apiKeys.Keys
    && forall id | id in d.apiKeys ::
         d.apiKeys[id] == e.apiKeys[id] || d.apiKeys[id] == ScopesFixed(Hashed(e.apiKeys[id], hash))
  }

  lemma FixingTwiceIsOnce(key: ApiKey, hash: string -> string)
    requires IsDigest(hash)
    ensures var fixed := ScopesFixed(Hashed(key, hash)); Sound(fixed) && ScopesFixed(Hashed(fixed, hash)) == fixed
    ensures Sound(key) ==> ScopesFixed(Hashed(key, hash)) == key
  {
    assert hash(key.key) != "";
  }

  lemma RestartStaysTheSame(d: Data, e: Data, hash: string -> string, minted: Id -> string)
    requires IsDigest(hash) && SameButKeys(d, e, hash)
    ensures SameButKeys(Repaired(d, hash, minted), e, hash)
  {
    forall id | id in d.apiKeys
      ensures Repaired(d, hash, minted).apiKeys[id] == ScopesFixed(Hashed(e.apiKeys[id], hash))
    {
      FixingTwiceIsOnce(e.apiKeys[id], hash);
    }
  }

  lemma EventStaysTheSame(d: Data, e: Data, hash: string -> string, event: Event)
    requires SameButKeys(d, e, hash) && !event.Restart?
    ensures SameButKeys(After(d, event, hash), After(e, event, hash), hash)
  {
  }

  /** Once the fixes have run, restarts are invisible: accounts and worlds are what they would be had
      the server never restarted, and an API key at most fixed, the once it needs it. */
  lemma {:induction false} RestartsAreInvisible(d: Data, e: Data, events: seq<Event>, hash: string -> string)
    requires IsDigest(hash) && SameButKeys(d, e, hash)
    ensures SameButKeys(Life(d, events, hash), Life(e, WithoutRestarts(events), hash), hash)
    decreases |events|
  {
    if events != [] {
      var event, rest := events[0], events[1..];
      var d' := After(d, event, hash);
      if event.Restart? {
        RestartStaysTheSame(d, e, hash, event.minted);
        RestartsAreInvisible(d', e, rest, hash);
        assert WithoutRestarts(events) == WithoutRestarts(rest);
      } else {
        EventStaysTheSame(d, e, hash, event);
        RestartsAreInvisible(d', After(e, event, hash), rest, hash);
        assert WithoutRestarts(events)[1..] == WithoutRestarts(rest);
      }
    }
  }

  /** From the first start on, whatever the data was before it. */
  lemma LaterStartsTouchNothing(d: Data, first: Id -> string, events: seq<Event>, hash: string -> string)
    requires IsDigest(hash)
    ensures var started := Repaired(d, hash, first);
            && Life(started, events, hash).accounts == Life(started, WithoutRestarts(events), hash).accounts
            && Life(started, events, hash).worlds == Life(started, WithoutRestarts(events), hash).worlds
  {
    RestartsAreInvisible(Repaired(d, hash, first), Repaired(d, hash, first), events, hash);
  }

  /** What the first start does to an account, and to a key. */
  lemma FirstStartRepairs(d: Data, hash: string -> string, minted: Id -> string)
    requires d.markers == {} && IsDigest(hash) && forall id :: minted(id) != ""
    ensures var r := Repaired(d, hash, minted);
            && r.accounts.Keys == d.accounts.Keys && r.apiKeys.Keys == d.apiKeys.Keys
            && (forall id | id in r.accounts ::
                  && r.accounts[id].rotationRequired && r.accounts[id].emailVerified
                  && r.accounts[id].apiKeyHash
                     == (if d.accounts[id].apiKeyHash != "" then d.accounts[id].apiKeyHash else minted(id)))
            && (forall id | id in r.apiKeys :: Sound(r.apiKeys[id]))
            && (forall id :: id in r.worlds <==> id in d.worlds && d.worlds[id].Some?)
  {
    forall id | id in d.apiKeys ensures Sound(ScopesFixed(Hashed(d.apiKeys[id], hash))) {
      FixingTwiceIsOnce(d.apiKeys[id], hash);
    }
  }
}

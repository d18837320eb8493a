/** The relay's tables, the store queries the pairing handlers use, and the comma-separated lists
    kept in nullable columns. */
module Stores {
  import opened Wrappers
  import opened Text

  /** `sql.NullString`. */
  datatype NullString = Null | Str(s: string) {
    /** The `.String` field, which is empty when the column is NULL. */
    function Value(): string {
      if Str? then s else ""
    }
  }

  /** The key of a KnownClients row: `UNIQUE("userId", "clientId")`. */
  datatype Row = Row(user: int, client: string)

  datatype KnownClient = KnownClient(
    worldId: NullString, worldTitle: NullString, fingerprint: NullString, publicUrl: NullString,
    targets: NullString, scopes: NullString, rate: int)

  /** The metadata columns an upsert carries. */
  datatype WorldInfo = WorldInfo(
    worldId: NullString, worldTitle: NullString, fingerprint: NullString, publicUrl: NullString)

  datatype PairingCode = PairingCode(
    user: int, bound: NullString, targets: NullString, scopes: NullString, rate: int, expiresAt: int, used: bool)

  datatype Token = Token(user: int, client: string)

  datatype Status = Pending | Approved | Denied | Exchanged | Expired

  datatype PairRequest = PairRequest(
    client: string, worldId: string, wantedScopes: NullString, wantedTargets: NullString,
    upgradeOnly: bool, status: Status, pairingCode: NullString, approver: Option<int>, expiresAt: int)

  type Clients = map<Row, KnownClient>

  datatype Relay = Relay(
    clients: Clients, codes: map<string, PairingCode>, tokens: seq<Token>, requests: map<string, PairRequest>)

  const EMPTY_RELAY := Relay(map[], map[], [], map[])

  /** `COALESCE(NULLIF(excluded.col, ''), col)`: an empty incoming value keeps the stored one. */
  function Preserve(incoming: NullString, stored: NullString): NullString {
    if incoming.Value() == "" then stored else incoming
  }

  /** KnownClientStore.Upsert: a new row starts with the column defaults, an existing row keeps its
      cross-world settings. */
  function Upsert(clients: Clients, row: Row, info: WorldInfo): Clients {
    if row in clients then
      var kc := clients[row];
      clients[row := kc.(worldId := Preserve(info.worldId, kc.worldId),
                         worldTitle := Preserve(info.worldTitle, kc.worldTitle),
                         fingerprint := Preserve(info.fingerprint, kc.fingerprint),
                         publicUrl := Preserve(info.publicUrl, kc.publicUrl))]
    else
      clients[row := KnownClient(info.worldId, info.worldTitle, info.fingerprint, info.publicUrl, Str(""), Str(""), 0)]
  }

  /** KnownClientStore.SetCrossWorldSettings: an UPDATE, so a missing row is left missing. */
  function SetCrossWorldSettings(clients: Clients, row: Row, targets: NullString, scopes: NullString, rate: int)
    : Clients
  {
    if row in clients then clients[row := clients[row].(targets := targets, scopes := scopes, rate := rate)]
    else clients
  }

  // ---- Lookups that end in LIMIT 1: any matching row may be the answer ----

  predicate HasFingerprint(clients: Clients, user: int, fingerprint: string, row: Row) {
    row in clients && row.user == user && clients[row].fingerprint == Str(fingerprint)
  }

  predicate HasWorld(clients: Clients, user: int, worldId: string, row: Row) {
    row in clients && row.user == user && clients[row].worldId == Str(worldId)
  }

  predicate HasWorldAndOrigin(clients: Clients, user: int, worldId: string, origin: string, row: Row) {
    HasWorld(clients, user, worldId, row) && clients[row].publicUrl == Str(origin)
  }

  ghost predicate AnswersFingerprint(clients: Clients, user: int, fingerprint: string, answer: Option<Row>) {
    match answer
    case Some(row) => HasFingerprint(clients, user, fingerprint, row)
    case None => forall row | row in clients :: !HasFingerprint(clients, user, fingerprint, row)
  }

  ghost predicate AnswersWorld(clients: Clients, user: int, worldId: string, answer: Option<Row>) {
    match answer
    case Some(row) => HasWorld(clients, user, worldId, row)
    case None => forall row | row in clients :: !HasWorld(clients, user, worldId, row)
  }

  ghost predicate AnswersWorldAndOrigin(
    clients: Clients, user: int, worldId: string, origin: string, answer: Option<Row>)
  {
    match answer
    case Some(row) => HasWorldAndOrigin(clients, user, worldId, origin, row)
    case None => forall row | row in clients :: !HasWorldAndOrigin(clients, user, worldId, origin, row)
  }

  // ---- Comma-separated lists ----

  /** The trimmed non-empty strings of a list, in order. */
  function Cleaned(values: seq<string>): seq<string> {
    if values == [] then []
    else (if Trim(values[0]) == "" then [] else [Trim(values[0])]) + Cleaned(values[1..])
  }

  /** GetAllowedTargets and GetRemoteScopes: how a stored list is read back. */
  function ReadList(column: NullString): seq<string> {
    if column.Value() == "" then [] else Cleaned(Split(column.s, ','))
  }

  /** ParseScopes: how the approval page reads a stored list; it trims the whole text first. */
  function ParseScopes(csv: string): seq<string> {
    var text := Trim(csv);
    if text == "" then [] else Cleaned(Split(text, ','))
  }

  /** csvNullString: how PATCH stores a list. */
  function CsvNullString(values: seq<string>): NullString {
    if Cleaned(values) == [] then Null else Str(Join(Cleaned(values), ','))
  }

  /** ScopesString wrapped as the approval handler wraps it: NULL only for the empty text. */
  function JoinedColumn(values: seq<string>): NullString {
    if Join(values, ',') == "" then Null else Str(Join(values, ','))
  }

  /** A value that survives being stored in a comma-separated column. */
  predicate Clean(value: string) {
    value != "" && Trimmed(value) && ',' !in value
  }

  predicate AllClean(values: seq<string>) {
    forall v | v in values :: Clean(v)
  }

  lemma {:induction false} CleanedIsClean(values: seq<string>)
    requires AllClean(values)
    ensures Cleaned(values) == values
  {
    if values != [] {
      assert values[0] in values && Clean(values[0]);
      TrimTrimmed(values[0]);
      assert forall v | v in values[1..] :: v in values;
      CleanedIsClean(values[1..]);
      assert values == [values[0]] + values[1..];
    }
  }

  lemma {:induction false} CleanedConcat(a: seq<string>, b: seq<string>)
    ensures Cleaned(a + b) == Cleaned(a) + Cleaned(b)
  {
    if a == [] {
      assert a + b == b;
    } else {
      assert (a + b)[0] == a[0] && (a + b)[1..] == a[1..] + b;
      CleanedConcat(a[1..], b);
    }
  }

  /** Trimming the whole text first makes no difference: both readers see the same list. */
  lemma ReadersAgree(column: NullString)
    ensures ParseScopes(column.Value()) == ReadList(column)
  {
    var text := column.Value();
    CleanedTrimLeft(text);
    CleanedTrimRight(TrimLeft(text));
    if Trim(text) == "" || text == "" {
      assert Trim("") == "" && Split("", ',') == [""] && Cleaned([""]) == [];
    }
  }

  lemma {:induction false} CleanedTrimLeft(text: string)
    ensures Cleaned(Split(TrimLeft(text), ',')) == Cleaned(Split(text, ','))
  {
    if text != "" && IsSpace(text[0]) {
      var rest := Split(text[1..], ',');
      CleanedTrimLeft(text[1..]);
      assert ([text[0]] + rest[0])[1..] == rest[0];
      assert Trim([text[0]] + rest[0]) == Trim(rest[0]);
      assert rest == [rest[0]] + rest[1..];
    }
  }

  lemma {:induction false} CleanedTrimRight(text: string)
    ensures Cleaned(Split(TrimRight(text), ',')) == Cleaned(Split(text, ','))
  {
    if text != "" && IsSpace(text[|text| - 1]) {
      var n := |text| - 1;
      CleanedTrimRight(text[..n]);
      assert text == text[..n] + [text[n]];
      SplitSnoc(text[..n], text[n], ',');
      CleanedLonger(Split(text[..n], ','), text[n]);
    }
  }

  lemma CleanedLonger(parts: seq<string>, blank: char)
    requires parts != [] && IsSpace(blank)
    ensures Cleaned(Longer(parts, blank)) == Cleaned(parts)
  {
    var front, last := parts[..|parts| - 1], parts[|parts| - 1];
    assert parts == front + [last];
    CleanedConcat(front, [last]);
    CleanedConcat(front, [last + [blank]]);
    CleanedOne(last, blank);
  }

  lemma CleanedOne(value: string, blank: char)
    requires IsSpace(blank)
    ensures Cleaned([value + [blank]]) == Cleaned([value])
  {
    var longer := value + [blank];
    assert longer[..|longer| - 1] == value;
    TrimDropsLastBlank(longer);
    assert [value][1..] == [] && [longer][1..] == [];
  }

  /** PATCH then read: a list of clean values comes back unchanged. */
  lemma CsvRoundTrip(values: seq<string>)
    requires AllClean(values)
    ensures ReadList(CsvNullString(values)) == values
  {
    CleanedIsClean(values);
    if values != [] {
      assert values[0] in values && Clean(values[0]);
      JoinNonEmpty(values);
      SplitJoin(values, ',');
    }
  }

  lemma JoinNonEmpty(values: seq<string>)
    requires values != [] && values[0] != ""
    ensures Join(values, ',') != ""
  {
  }

  /** What a list of raw values reads back as once joined: the pieces of each value, in order. */
  function Pieces(values: seq<string>): seq<string> {
    if values == [] then [] else Cleaned(Split(values[0], ',')) + Pieces(values[1..])
  }

  /** Approve then read: values that hold commas come apart. */
  lemma {:induction false} JoinedReadsAsPieces(values: seq<string>)
    ensures ReadList(JoinedColumn(values)) == Pieces(values)
  {
    var text := Join(values, ',');
    if text == "" {
      BlankJoin(values);
    } else {
      SplitJoinPieces(values);
    }
  }

  lemma {:induction false} SplitJoinPieces(values: seq<string>)
    requires values != []
    ensures Cleaned(Split(Join(values, ','), ',')) == Pieces(values)
  {
    if |values| == 1 {
      assert Pieces(values[1..]) == [];
    } else {
      SplitConcat(values[0], Join(values[1..], ','), ',');
      CleanedConcat(Split(values[0], ','), Split(Join(values[1..], ','), ','));
      SplitJoinPieces(values[1..]);
    }
  }

  lemma BlankJoin(values: seq<string>)
    requires Join(values, ',') == ""
    ensures Pieces(values) == []
  {
    if values != [] {
      assert |values| == 1;
      assert values[0] == "";
      assert Split("", ',') == [""];
      assert Trim("") == "";
      assert Cleaned([""]) == [];
    }
  }

  /** A value behind a comma comes apart from what stands before it. */
  lemma PieceAfterComma(value: string)
    requires Clean(value)
    ensures value in Cleaned(Split("x," + value, ',')) && "x," + value != value
  {
    var whole := "x," + value;
    assert whole == "x" + [','] + value && whole[1] == ',';
    SplitConcat("x", value, ',');
    SplitWhole("x", ',');
    SplitWhole(value, ',');
    CleanedConcat(["x"], [value]);
    TrimTrimmed(value);
    assert Cleaned([value]) == [value];
  }

  /** Clean values are their own pieces. */
  lemma {:induction false} PiecesOfClean(values: seq<string>)
    requires AllClean(values)
    ensures Pieces(values) == values
  {
    if values != [] {
      assert values[0] in values && Clean(values[0]);
      SplitWhole(values[0], ',');
      TrimTrimmed(values[0]);
      assert Cleaned([values[0]]) == [values[0]];
      assert forall v | v in values[1..] :: v in values;
      PiecesOfClean(values[1..]);
      assert values == [values[0]] + values[1..];
    }
  }

  /** What a list of raw values holds once stored and read back, value by value. */
  lemma {:induction false} PiecesMember(values: seq<string>, x: string)
    ensures x in Pieces(values) <==> exists v | v in values :: x in Cleaned(Split(v, ','))
  {
    if values != [] {
      PiecesMember(values[1..], x);
      assert forall v | v in values :: v == values[0] || v in values[1..];
      assert forall v | v in values[1..] :: v in values;
      if x in Cleaned(Split(values[0], ',')) {
        assert values[0] in values;
      }
    }
  }

  /** Every string a stored list is read back as is clean. */
  lemma ReadListClean(column: NullString)
    ensures AllClean(ReadList(column))
  {
    if column.Value() != "" {
      SplitParts(column.s, ',');
      CleanedParts(Split(column.s, ','));
    }
  }

  lemma {:induction false} CleanedParts(values: seq<string>)
    requires forall v | v in values :: ',' !in v
    ensures AllClean(Cleaned(values))
  {
    if values != [] {
      assert values[0] in values;
      TrimIsTrimmed(values[0]);
      if ',' in Trim(values[0]) {
        TrimWithin(values[0], ',');
      }
      assert forall v | v in values[1..] :: v in values;
      CleanedParts(values[1..]);
    }
  }

  // ---- Order-preserving removal ----

  /** The values not in `drop`, in order. */
  function Without(values: seq<string>, drop: set<string>): (kept: seq<string>)
    ensures |kept| <= |values|
  {
    if values == [] then []
    else (if values[0] in drop then [] else [values[0]]) + Without(values[1..], drop)
  }

  lemma {:induction false} WithoutConcat(a: seq<string>, b: seq<string>, drop: set<string>)
    ensures Without(a + b, drop) == Without(a, drop) + Without(b, drop)
  {
    if a == [] {
      assert a + b == b;
    } else {
      assert (a + b)[0] == a[0] && (a + b)[1..] == a[1..] + b;
      WithoutConcat(a[1..], b, drop);
    }
  }

  lemma {:induction false} WithoutMember(values: seq<string>, drop: set<string>, x: string)
    ensures x in Without(values, drop) <==> x in values && x !in drop
  {
    if values != [] {
      WithoutMember(values[1..], drop, x);
      assert values == [values[0]] + values[1..];
    }
  }

  /** Nothing was removed exactly when the length did not change. */
  lemma {:induction false} WithoutSameLength(values: seq<string>, drop: set<string>)
    ensures |Without(values, drop)| == |values| <==> forall v | v in values :: v !in drop
    ensures |Without(values, drop)| == |values| ==> Without(values, drop) == values
  {
    if values != [] {
      WithoutSameLength(values[1..], drop);
      assert values == [values[0]] + values[1..];
      if values[0] in drop {
        assert values[0] in values;
      } else if |Without(values, drop)| != |values| {
        var v :| v in values[1..] && v in drop;
        assert v in values;
      }
    }
  }
}

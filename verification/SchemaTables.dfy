/** The PostgreSQL migrations of the relay's own tables: the statement lists that every start replays,
    and exactly which databases a second start still changes. */
module SchemaTables {
  import opened SchemaMigration

  /** The words of a column name, however it is spelled. */
  datatype Stem =
    | Scopes | ScopedClientIds | KeyHash | FoundryUrl | FoundryUsername | EncryptedFoundryPassword
    | PasswordIv | PasswordAuthTag | CredentialId | ScopedUserIds | UserId | ScopedClientId | ScopedUserId
    | DailyLimit | RequestsToday | LastRequestDate | MonthlyLimit | RequestsThisMonth | LastResetDate
    | ExpiresAt | CreatedAt | UpdatedAt | TokenHash | AllowedTargetClients | RemoteScopes
    | RemoteRequestsPerHour | Source | ClientId | LastUsedAt | AllowedIps | TokenName | IpAddress | UserAgent
    | WorldId | WorldTitle | SystemId | FoundryVersion | MetadataMatch | FlagReason | World
    | EncryptedAdminPassword | AdminPasswordIv | AdminPasswordAuthTag | AutoStartOnRemoteRequest
    | ServerFingerprint | PublicUrl | SystemTitle | SystemVersion | CustomName | LastSeenAt | IsOnline
    | MaxHeadlessSessions | EmailVerified | VerificationTokenHash | VerificationTokenExpiresAt | Role
    | Disabled | ApiKeyRotationRequired | ApiKeyHash | ApiKey | StripeCustomerId | SubscriptionStatus
    | SubscriptionId | SubscriptionEndsAt | SourceClientId | SourceTokenId | TargetClientId | ErrorMessage
    | SourceIp | RequestedRemoteScopes | RequestedTargetClients | UpgradeOnly | PairingCode | AppName
    | AppDescription | AppUrl | RequestedScopes | RequestedClientIds | CallbackUrl | SuggestedDailyLimit
    | SuggestedMonthlyLimit | SuggestedExpiry | ApprovedKeyId | ApprovedById | ExchangeCode
    | NotifyOnDisconnect | NotifyOnMetadataMismatch | NotifyOnSettingsChange | NotifyOnExecuteJs
    | NotifyOnMacroExecute | NotifyOnNewClientConnect | NotificationDebounceWindowSecs
    | RemoteRequestBatchWindowSecs | LogCrossWorldRequests | NotifyOnCrossWorldRequests | NotifyOnConnect
    | DiscordWebhookUrl | NotifyEmail

  /** `daily_limit` is Snake(DailyLimit), `dailyLimit` is Camel(DailyLimit). */
  datatype Column = Snake(stem: Stem) | Camel(stem: Stem)

  function ToCamel(stem: Stem): Rename<Column> {
    Rename(Snake(stem), Camel(stem))
  }

  function Camels(stems: seq<Stem>): seq<Rename<Column>> {
    seq(|stems|, i requires 0 <= i < |stems| => ToCamel(stems[i]))
  }

  // ---- The lists, table by table ----

  /** The tables that some statement alters. */
  datatype TableName =
    | ApiKeys | PasswordResetTokens | ConnectionTokens | PairingCodes | ConnectionLogs | Credentials
    | KnownClients | Users | Sessions | RemoteRequestLogs | PairRequests | KeyRequests | NotificationSettings

  const TABLES: seq<TableName> :=
    [ApiKeys, PasswordResetTokens, ConnectionTokens, PairingCodes, ConnectionLogs, Credentials,
     KnownClients, Users, Sessions, RemoteRequestLogs, PairRequests, KeyRequests, NotificationSettings]

  const API_KEYS_RENAMES: seq<Rename<Column>> :=
    [ToCamel(UserId), ToCamel(ScopedClientId), ToCamel(ScopedUserId), ToCamel(DailyLimit),
     ToCamel(RequestsToday), ToCamel(LastRequestDate), Rename(Camel(DailyLimit), Camel(MonthlyLimit)),
     Rename(Camel(RequestsToday), Camel(RequestsThisMonth)),
     Rename(Camel(LastRequestDate), Camel(LastResetDate)), ToCamel(MonthlyLimit), ToCamel(RequestsThisMonth),
     ToCamel(LastResetDate), ToCamel(ExpiresAt), ToCamel(CreatedAt), ToCamel(UpdatedAt)]

  const API_KEYS_ALTERS: seq<Alter<Column>> :=
    [Add(Camel(Scopes)), Add(Camel(ScopedClientIds)), Add(Camel(KeyHash)), Drop(Camel(FoundryUrl)),
     Drop(Camel(FoundryUsername)), Drop(Camel(EncryptedFoundryPassword)), Drop(Camel(PasswordIv)),
     Drop(Camel(PasswordAuthTag)), Drop(Camel(CredentialId)), Add(Camel(ScopedUserIds))]

  const PASSWORD_RESET_TOKENS_STEMS: seq<Stem> :=
    [UserId, TokenHash, ExpiresAt, CreatedAt, UpdatedAt]

  const CONNECTION_TOKENS_STEMS: seq<Stem> :=
    [UserId, TokenHash, AllowedIps, AllowedTargetClients, RemoteScopes, LastUsedAt, CreatedAt, UpdatedAt]

  const CONNECTION_TOKENS_ALTERS: seq<Alter<Column>> :=
    [Add(Camel(AllowedTargetClients)), Add(Camel(RemoteScopes)), Add(Camel(RemoteRequestsPerHour)),
     Add(Camel(Source)), Add(Camel(ClientId)), Add(Camel(LastUsedAt)), Drop(Snake(AllowedTargetClients)),
     Drop(Snake(RemoteScopes)), Drop(Snake(RemoteRequestsPerHour)), Drop(Snake(LastUsedAt))]

  const PAIRING_CODES_STEMS: seq<Stem> :=
    [UserId, ClientId, AllowedTargetClients, RemoteScopes, ExpiresAt, CreatedAt]

  const PAIRING_CODES_ALTERS: seq<Alter<Column>> :=
    [Add(Camel(ClientId)), Add(Camel(AllowedTargetClients)), Add(Camel(RemoteScopes)),
     Add(Camel(RemoteRequestsPerHour)), Drop(Snake(ClientId)), Drop(Snake(AllowedTargetClients)),
     Drop(Snake(RemoteScopes))]

  const CONNECTION_LOGS_STEMS: seq<Stem> :=
    [UserId, ClientId, IpAddress, UserAgent, WorldId, WorldTitle, SystemId, FoundryVersion, MetadataMatch,
     FlagReason, CreatedAt]

  const CONNECTION_LOGS_ALTERS: seq<Alter<Column>> :=
    [Add(Camel(TokenName)), Drop(Snake(TokenName))]

  const CREDENTIALS_STEMS: seq<Stem> :=
    [UserId, FoundryUrl, FoundryUsername, EncryptedFoundryPassword, PasswordIv, PasswordAuthTag,
     EncryptedAdminPassword, AdminPasswordIv, AdminPasswordAuthTag, CreatedAt, UpdatedAt]

  const CREDENTIALS_ALTERS: seq<Alter<Column>> :=
    [Add(Camel(World))]

  const KNOWN_CLIENTS_STEMS: seq<Stem> :=
    [UserId, ClientId, WorldId, WorldTitle, SystemId, SystemTitle, SystemVersion, FoundryVersion, CustomName,
     LastSeenAt, IsOnline, AutoStartOnRemoteRequest, CredentialId, CreatedAt, UpdatedAt]

  const KNOWN_CLIENTS_ALTERS: seq<Alter<Column>> :=
    [Add(Camel(AutoStartOnRemoteRequest)), Add(Camel(CredentialId)), Add(Camel(AllowedTargetClients)),
     Add(Camel(RemoteScopes)), Add(Camel(RemoteRequestsPerHour)), Add(Camel(ServerFingerprint)),
     Add(Camel(PublicUrl)), Drop(Snake(AutoStartOnRemoteRequest)), Drop(Snake(CredentialId)),
     Drop(Snake(AllowedTargetClients)), Drop(Snake(RemoteScopes)), Drop(Snake(RemoteRequestsPerHour))]

  const USERS_STEMS: seq<Stem> :=
    [ApiKeyHash, RequestsThisMonth, RequestsToday, LastRequestDate, StripeCustomerId, SubscriptionStatus,
     SubscriptionId, SubscriptionEndsAt, MaxHeadlessSessions, CreatedAt, UpdatedAt]

  const USERS_ALTERS: seq<Alter<Column>> :=
    [Add(Camel(MaxHeadlessSessions)), Add(Camel(EmailVerified)), Add(Camel(VerificationTokenHash)),
     Add(Camel(VerificationTokenExpiresAt)), Add(Camel(Role)), Add(Camel(Disabled)),
     Add(Camel(ApiKeyRotationRequired)), Add(Camel(ApiKeyHash)), Drop(Camel(ApiKey)), Drop(Snake(ApiKey)),
     Drop(Snake(ApiKeyHash)), Drop(Snake(MaxHeadlessSessions))]

  const SESSIONS_STEMS: seq<Stem> :=
    [UserId, TokenHash, UserAgent, IpAddress, ExpiresAt, LastUsedAt, CreatedAt]

  const REMOTE_REQUEST_LOGS_STEMS: seq<Stem> :=
    [UserId, SourceClientId, SourceTokenId, TargetClientId, ErrorMessage, SourceIp, CreatedAt]

  const PAIR_REQUESTS_STEMS: seq<Stem> :=
    [ClientId, WorldId, WorldTitle, SystemId, SystemTitle, SystemVersion, FoundryVersion,
     RequestedRemoteScopes, RequestedTargetClients, UpgradeOnly, PairingCode, UserId, ExpiresAt, CreatedAt]

  const PAIR_REQUESTS_ALTERS: seq<Alter<Column>> :=
    [Add(Camel(ClientId))]

  const KEY_REQUESTS_RENAMES: seq<Rename<Column>> :=
    [ToCamel(AppName), ToCamel(AppDescription), ToCamel(AppUrl), ToCamel(RequestedScopes),
     ToCamel(RequestedClientIds), ToCamel(CallbackUrl), ToCamel(SuggestedDailyLimit),
     Rename(Camel(SuggestedDailyLimit), Camel(SuggestedMonthlyLimit)), ToCamel(SuggestedMonthlyLimit),
     ToCamel(SuggestedExpiry), ToCamel(ApprovedKeyId), ToCamel(ApprovedById), ToCamel(ExchangeCode),
     ToCamel(ExpiresAt), ToCamel(CreatedAt), ToCamel(UpdatedAt)]

  const NOTIFICATION_SETTINGS_STEMS: seq<Stem> :=
    [UserId, NotifyOnConnect, DiscordWebhookUrl, NotifyEmail, CreatedAt, UpdatedAt]

  const NOTIFICATION_SETTINGS_ALTERS: seq<Alter<Column>> :=
    [Add(Camel(NotifyOnDisconnect)), Add(Camel(NotifyOnMetadataMismatch)), Add(Camel(NotifyOnSettingsChange)),
     Add(Camel(NotifyOnExecuteJs)), Add(Camel(NotifyOnMacroExecute)), Add(Camel(NotifyOnNewClientConnect)),
     Add(Camel(NotificationDebounceWindowSecs)), Add(Camel(RemoteRequestBatchWindowSecs)),
     Add(Camel(LogCrossWorldRequests)), Add(Camel(NotifyOnCrossWorldRequests))]

  function AltersOf(table: TableName): seq<Alter<Column>> {
    match table
    case ApiKeys => API_KEYS_ALTERS
    case ConnectionTokens => CONNECTION_TOKENS_ALTERS
    case PairingCodes => PAIRING_CODES_ALTERS
    case ConnectionLogs => CONNECTION_LOGS_ALTERS
    case Credentials => CREDENTIALS_ALTERS
    case KnownClients => KNOWN_CLIENTS_ALTERS
    case Users => USERS_ALTERS
    case PairRequests => PAIR_REQUESTS_ALTERS
    case NotificationSettings => NOTIFICATION_SETTINGS_ALTERS
    case _ => []
  }

  /** The names that a table without chains respells. */
  function StemsOf(table: TableName): seq<Stem> {
    match table
    case PasswordResetTokens => PASSWORD_RESET_TOKENS_STEMS
    case ConnectionTokens => CONNECTION_TOKENS_STEMS
    case PairingCodes => PAIRING_CODES_STEMS
    case ConnectionLogs => CONNECTION_LOGS_STEMS
    case Credentials => CREDENTIALS_STEMS
    case KnownClients => KNOWN_CLIENTS_STEMS
    case Users => USERS_STEMS
    case Sessions => SESSIONS_STEMS
    case RemoteRequestLogs => REMOTE_REQUEST_LOGS_STEMS
    case PairRequests => PAIR_REQUESTS_STEMS
    case NotificationSettings => NOTIFICATION_SETTINGS_STEMS
    case _ => []
  }

  function RenamesOf(table: TableName): seq<Rename<Column>> {
    match table
    case ApiKeys => API_KEYS_RENAMES
    case KeyRequests => KEY_REQUESTS_RENAMES
    case _ => Camels(StemsOf(table))
  }

  // ---- Tables without chains ----

  ghost predicate Distinct(stems: seq<Stem>) {
    forall i, j | 0 <= i < j < |stems| :: stems[i] != stems[j]
  }

  /** Spellings may be added in the new form and dropped in the old one. */
  predicate CamelAlter(alter: Alter<Column>, stems: seq<Stem>) {
    if alter.Add? then alter.column.Camel? else alter.column.Snake? || alter.column.stem !in stems
  }

  predicate ApartFrom(added: Alter<Column>, dropped: Alter<Column>) {
    added.Add? && dropped.Drop? ==> added.column != dropped.column
  }

  ghost predicate CamelAlters(alters: seq<Alter<Column>>, stems: seq<Stem>) {
    && (forall i | 0 <= i < |alters| :: CamelAlter(alters[i], stems))
    && (forall i, j | 0 <= i < |alters| && 0 <= j < |alters| :: ApartFrom(alters[i], alters[j]))
  }

  lemma CamelsAreOrderly(alters: seq<Alter<Column>>, stems: seq<Stem>)
    requires Distinct(stems) && CamelAlters(alters, stems)
    ensures OrderlyRenames(Camels(stems)) && OrderlyAlters(alters, Camels(stems))
    ensures Unchained(Camels(stems))
  {
  }

  /** What holds of places `i` and `j` of a table's lists. */
  predicate PairOk(stems: seq<Stem>, alters: seq<Alter<Column>>, i: nat, j: nat) {
    && (i < j < |stems| ==> stems[i] != stems[j])
    && (i < |alters| && j < |alters| ==> CamelAlter(alters[i], stems) && ApartFrom(alters[i], alters[j]))
  }

  lemma PasswordResetTokensPair(i: nat, j: nat)
    ensures PairOk(PASSWORD_RESET_TOKENS_STEMS, [], i, j)
  {
  }

  lemma ConnectionTokensPair(i: nat, j: nat)
    ensures PairOk(CONNECTION_TOKENS_STEMS, CONNECTION_TOKENS_ALTERS, i, j)
  {
  }

  lemma PairingCodesPair(i: nat, j: nat)
    ensures PairOk(PAIRING_CODES_STEMS, PAIRING_CODES_ALTERS, i, j)
  {
  }

  lemma ConnectionLogsPair(i: nat, j: nat)
    ensures PairOk(CONNECTION_LOGS_STEMS, CONNECTION_LOGS_ALTERS, i, j)
  {
  }

  lemma CredentialsPair(i: nat, j: nat)
    ensures PairOk(CREDENTIALS_STEMS, CREDENTIALS_ALTERS, i, j)
  {
  }

  lemma KnownClientsPair(i: nat, j: nat)
    ensures PairOk(KNOWN_CLIENTS_STEMS, KNOWN_CLIENTS_ALTERS, i, j)
  {
  }

  lemma UsersPair(i: nat, j: nat)
    ensures PairOk(USERS_STEMS, USERS_ALTERS, i, j)
  {
  }

  lemma SessionsPair(i: nat, j: nat)
    ensures PairOk(SESSIONS_STEMS, [], i, j)
  {
  }

  lemma RemoteRequestLogsPair(i: nat, j: nat)
    ensures PairOk(REMOTE_REQUEST_LOGS_STEMS, [], i, j)
  {
  }

  lemma PairRequestsPair(i: nat, j: nat)
    ensures PairOk(PAIR_REQUESTS_STEMS, PAIR_REQUESTS_ALTERS, i, j)
  {
  }

  lemma NotificationSettingsPair(i: nat, j: nat)
    ensures PairOk(NOTIFICATION_SETTINGS_STEMS, NOTIFICATION_SETTINGS_ALTERS, i, j)
  {
  }

  lemma TablePair(table: TableName, i: nat, j: nat)
    requires table != ApiKeys && table != KeyRequests
    ensures PairOk(StemsOf(table), AltersOf(table), i, j)
  {
    match table
    case PasswordResetTokens => PasswordResetTokensPair(i, j);
    case ConnectionTokens => ConnectionTokensPair(i, j);
    case PairingCodes => PairingCodesPair(i, j);
    case ConnectionLogs => ConnectionLogsPair(i, j);
    case Credentials => CredentialsPair(i, j);
    case KnownClients => KnownClientsPair(i, j);
    case Users => UsersPair(i, j);
    case Sessions => SessionsPair(i, j);
    case RemoteRequestLogs => RemoteRequestLogsPair(i, j);
    case PairRequests => PairRequestsPair(i, j);
    case NotificationSettings => NotificationSettingsPair(i, j);
  }

  lemma TableIsPlain(table: TableName)
    requires table != ApiKeys && table != KeyRequests
    ensures Distinct(StemsOf(table)) && CamelAlters(AltersOf(table), StemsOf(table))
  {
    forall i: nat, j: nat ensures PairOk(StemsOf(table), AltersOf(table), i, j) {
      TablePair(table, i, j);
    }
    PlainByPairs(StemsOf(table), AltersOf(table));
  }

  lemma PlainByPairs(stems: seq<Stem>, alters: seq<Alter<Column>>)
    requires forall i: nat, j: nat :: PairOk(stems, alters, i, j)
    ensures Distinct(stems) && CamelAlters(alters, stems)
  {
    forall i: nat, j: nat | i < j < |stems| ensures stems[i] != stems[j] {
      assert PairOk(stems, alters, i, j);
    }
    forall i: nat, j: nat | i < |alters| && j < |alters|
      ensures CamelAlter(alters[i], stems) && ApartFrom(alters[i], alters[j])
    {
      assert PairOk(stems, alters, i, j);
    }
  }

  // ---- Tables with chains ----

  /** The chained entries are lo..hi, each with the entry `gap` places on; their names are final. */
  lemma OrderlyByChains(renames: seq<Rename<Column>>, lo: nat, hi: nat, gap: nat)
    requires hi < lo + gap && hi + gap < |renames|
    requires forall i, j | 0 <= i < |renames| && 0 <= j < |renames| ::
               Chained(renames[i], renames[j]) <==> lo <= i <= hi && j == i + gap
    requires forall i, j | 0 <= i < j < |renames| :: renames[i].former != renames[j].former
    requires forall i, k | lo <= i <= hi && 0 <= k < |renames| && k != i :: renames[k].renamed != renames[i].renamed
    requires forall i, k | lo + gap <= i <= hi + gap && 0 <= k < i :: renames[k].renamed != renames[i].renamed
    ensures OrderlyRenames(renames)
  {
  }

  lemma ApiKeysChains(i: nat, j: nat)
    requires i < |API_KEYS_RENAMES| && j < |API_KEYS_RENAMES|
    ensures Chained(API_KEYS_RENAMES[i], API_KEYS_RENAMES[j]) <==> 3 <= i <= 5 && j == i + 3
    ensures i < j ==> API_KEYS_RENAMES[i].former != API_KEYS_RENAMES[j].former
  {
  }

  lemma ApiKeysTargets(i: nat, k: nat)
    requires k < |API_KEYS_RENAMES|
    ensures 3 <= i <= 5 && k != i ==> API_KEYS_RENAMES[k].renamed != API_KEYS_RENAMES[i].renamed
    ensures 6 <= i <= 8 && k < i ==> API_KEYS_RENAMES[k].renamed != API_KEYS_RENAMES[i].renamed
  {
  }

  lemma ApiKeysAlters(i: nat, j: nat, k: nat)
    requires i < |API_KEYS_ALTERS| && j < |API_KEYS_ALTERS| && k < |API_KEYS_RENAMES|
    ensures var a, b, r := API_KEYS_ALTERS[i], API_KEYS_ALTERS[j], API_KEYS_RENAMES[k];
            && (a.Add? && b.Drop? ==> a.column != b.column)
            && a.column != (if a.Add? then r.former else r.renamed)
  {
  }

  lemma ApiKeysRenamesAreOrderly()
    ensures OrderlyRenames(API_KEYS_RENAMES)
  {
    var renames := API_KEYS_RENAMES;
    forall i: nat, j: nat | i < |renames| && j < |renames|
      ensures Chained(renames[i], renames[j]) <==> 3 <= i <= 5 && j == i + 3
      ensures i < j ==> renames[i].former != renames[j].former
    {
      ApiKeysChains(i, j);
    }
    forall i: nat, k: nat | i < |renames| && k < |renames|
      ensures 3 <= i <= 5 && k != i ==> renames[k].renamed != renames[i].renamed
      ensures 6 <= i <= 8 && k < i ==> renames[k].renamed != renames[i].renamed
    {
      ApiKeysTargets(i, k);
    }
    OrderlyByChains(renames, 3, 5, 3);
  }

  lemma ApiKeysAreOrderly()
    ensures OrderlyRenames(API_KEYS_RENAMES) && OrderlyAlters(API_KEYS_ALTERS, API_KEYS_RENAMES)
  {
    ApiKeysRenamesAreOrderly();
    forall i: nat, j: nat, k: nat | i < |API_KEYS_ALTERS| && j < |API_KEYS_ALTERS| && k < |API_KEYS_RENAMES|
      ensures API_KEYS_ALTERS[i].Add? && API_KEYS_ALTERS[j].Drop? ==>
                API_KEYS_ALTERS[i].column != API_KEYS_ALTERS[j].column
      ensures API_KEYS_ALTERS[i].column
              != if API_KEYS_ALTERS[i].Add? then API_KEYS_RENAMES[k].former else API_KEYS_RENAMES[k].renamed
    {
      ApiKeysAlters(i, j, k);
    }
  }

  lemma KeyRequestsChains(i: nat, j: nat)
    requires i < |KEY_REQUESTS_RENAMES| && j < |KEY_REQUESTS_RENAMES|
    ensures Chained(KEY_REQUESTS_RENAMES[i], KEY_REQUESTS_RENAMES[j]) <==> 6 <= i <= 6 && j == i + 1
    ensures i < j ==> KEY_REQUESTS_RENAMES[i].former != KEY_REQUESTS_RENAMES[j].former
  {
  }

  lemma KeyRequestsTargets(i: nat, k: nat)
    requires k < |KEY_REQUESTS_RENAMES|
    ensures 6 <= i <= 6 && k != i ==> KEY_REQUESTS_RENAMES[k].renamed != KEY_REQUESTS_RENAMES[i].renamed
    ensures 7 <= i <= 7 && k < i ==> KEY_REQUESTS_RENAMES[k].renamed != KEY_REQUESTS_RENAMES[i].renamed
  {
  }

  lemma KeyRequestsRenamesAreOrderly()
    ensures OrderlyRenames(KEY_REQUESTS_RENAMES)
  {
    var renames := KEY_REQUESTS_RENAMES;
    forall i: nat, j: nat | i < |renames| && j < |renames|
      ensures Chained(renames[i], renames[j]) <==> 6 <= i <= 6 && j == i + 1
      ensures i < j ==> renames[i].former != renames[j].former
    {
      KeyRequestsChains(i, j);
    }
    forall i: nat, k: nat | i < |renames| && k < |renames|
      ensures 6 <= i <= 6 && k != i ==> renames[k].renamed != renames[i].renamed
      ensures 7 <= i <= 7 && k < i ==> renames[k].renamed != renames[i].renamed
    {
      KeyRequestsTargets(i, k);
    }
    OrderlyByChains(renames, 6, 6, 1);
  }

  lemma KeyRequestsAreOrderly()
    ensures OrderlyRenames(KEY_REQUESTS_RENAMES) && OrderlyAlters([], KEY_REQUESTS_RENAMES)
  {
    KeyRequestsRenamesAreOrderly();
  }

  /** Both old spellings of a renamed limit are live, and its new name is free. */
  predicate BothOld(columns: set<Column>, former: Stem, current: Stem) {
    Snake(former) in columns && Camel(former) in columns && Camel(current) !in columns
  }

  lemma ApiKeysStalled(columns: set<Column>)
    ensures HasStalledChain(columns, API_KEYS_RENAMES) <==>
              || BothOld(columns, DailyLimit, MonthlyLimit)
              || BothOld(columns, RequestsToday, RequestsThisMonth)
              || BothOld(columns, LastRequestDate, LastResetDate)
  {
    var renames := API_KEYS_RENAMES;
    forall i: nat, j: nat | i < |renames| && j < |renames| && Stalled(columns, renames[i], renames[j])
      ensures 3 <= i <= 5 && j == i + 3
    {
      ApiKeysChains(i, j);
    }
    assert BothOld(columns, DailyLimit, MonthlyLimit) == Stalled(columns, renames[3], renames[6]);
    assert BothOld(columns, RequestsToday, RequestsThisMonth) == Stalled(columns, renames[4], renames[7]);
    assert BothOld(columns, LastRequestDate, LastResetDate) == Stalled(columns, renames[5], renames[8]);
  }

  lemma KeyRequestsStalled(columns: set<Column>)
    ensures HasStalledChain(columns, KEY_REQUESTS_RENAMES) <==>
              BothOld(columns, SuggestedDailyLimit, SuggestedMonthlyLimit)
  {
    var renames := KEY_REQUESTS_RENAMES;
    forall i: nat, j: nat | i < |renames| && j < |renames| && Stalled(columns, renames[i], renames[j])
      ensures i == 6 && j == 7
    {
      KeyRequestsChains(i, j);
    }
    assert BothOld(columns, SuggestedDailyLimit, SuggestedMonthlyLimit) == Stalled(columns, renames[6], renames[7]);
  }

  ghost predicate IsLimit(stem: Stem) {
    stem in {DailyLimit, RequestsToday, LastRequestDate, MonthlyLimit, RequestsThisMonth, LastResetDate}
  }

  lemma AltersSpareLimits(columns: set<Column>, c: Column)
    requires IsLimit(c.stem)
    ensures c in Altered(columns, API_KEYS_ALTERS) <==> c in columns
  {
    ApiKeysAreOrderly();
    AlteredMeans(columns, API_KEYS_ALTERS, c);
    forall i | 0 <= i < |API_KEYS_ALTERS| ensures API_KEYS_ALTERS[i].column != c {
      LimitIsNotAltered(i);
    }
  }

  lemma LimitIsNotAltered(i: nat)
    requires i < |API_KEYS_ALTERS|
    ensures !IsLimit(API_KEYS_ALTERS[i].column.stem)
  {
  }

  /** For the ApiKeys table: a second start changes nothing unless one of the three renamed limits has
      both its old spellings and not its new name. */
  lemma ApiKeysReplayExact(columns: set<Column>)
    ensures var once := Start(columns, API_KEYS_ALTERS, API_KEYS_RENAMES);
            Start(once, API_KEYS_ALTERS, API_KEYS_RENAMES) == once <==>
              && !BothOld(columns, DailyLimit, MonthlyLimit)
              && !BothOld(columns, RequestsToday, RequestsThisMonth)
              && !BothOld(columns, LastRequestDate, LastResetDate)
  {
    ApiKeysAreOrderly();
    SecondStartExact(columns, API_KEYS_ALTERS, API_KEYS_RENAMES);
    ApiKeysStalled(Altered(columns, API_KEYS_ALTERS));
    forall c: Column | IsLimit(c.stem) ensures c in Altered(columns, API_KEYS_ALTERS) <==> c in columns {
      AltersSpareLimits(columns, c);
    }
  }

  /** For the KeyRequests table, whose suggested limit was renamed the same way. */
  lemma KeyRequestsReplayExact(columns: set<Column>)
    ensures var once := Start(columns, [], KEY_REQUESTS_RENAMES);
            Start(once, [], KEY_REQUESTS_RENAMES) == once <==>
              !BothOld(columns, SuggestedDailyLimit, SuggestedMonthlyLimit)
  {
    KeyRequestsAreOrderly();
    SecondStartExact(columns, [], KEY_REQUESTS_RENAMES);
    KeyRequestsStalled(columns);
  }

  // ---- Every table ----

  /** The statements of each table are as the replay theorems ask, and only two tables have chains. */
  lemma TablesAreOrderly(table: TableName)
    ensures OrderlyRenames(RenamesOf(table)) && OrderlyAlters(AltersOf(table), RenamesOf(table))
    ensures table != ApiKeys && table != KeyRequests ==> Unchained(RenamesOf(table))
  {
    match table
    case ApiKeys => ApiKeysAreOrderly();
    case KeyRequests => KeyRequestsAreOrderly();
    case _ => PlainTableIsOrderly(table);
  }

  lemma PlainTableIsOrderly(table: TableName)
    requires table != ApiKeys && table != KeyRequests
    ensures OrderlyRenames(RenamesOf(table)) && OrderlyAlters(AltersOf(table), RenamesOf(table))
    ensures Unchained(RenamesOf(table))
  {
    TableIsPlain(table);
    CamelsAreOrderly(AltersOf(table), StemsOf(table));
  }

  /** Whether the second start of a table changes nothing. */
  predicate Replays(table: TableName, columns: set<Column>) {
    match table
    case ApiKeys =>
      && !BothOld(columns, DailyLimit, MonthlyLimit)
      && !BothOld(columns, RequestsToday, RequestsThisMonth)
      && !BothOld(columns, LastRequestDate, LastResetDate)
    case KeyRequests => !BothOld(columns, SuggestedDailyLimit, SuggestedMonthlyLimit)
    case _ => true
  }

  lemma TableReplayExact(table: TableName, columns: set<Column>)
    ensures var once := Start(columns, AltersOf(table), RenamesOf(table));
            Start(once, AltersOf(table), RenamesOf(table)) == once <==> Replays(table, columns)
  {
    match table
    case ApiKeys => ApiKeysReplayExact(columns);
    case KeyRequests => KeyRequestsReplayExact(columns);
    case _ => PlainTableReplays(table, columns);
  }

  lemma PlainTableReplays(table: TableName, columns: set<Column>)
    requires table != ApiKeys && table != KeyRequests
    ensures var once := Start(columns, AltersOf(table), RenamesOf(table));
            Start(once, AltersOf(table), RenamesOf(table)) == once && Replays(table, columns)
  {
    PlainTableIsOrderly(table);
    UnchainedReplays(columns, AltersOf(table), RenamesOf(table));
  }

  // ---- The database ----

  type Schema = map<TableName, set<Column>>

  /** A statement names one table, and fails, to be skipped, when there is no such table. */
  datatype On<S> = On(table: TableName, statement: S)

  function AlterOn(schema: Schema, s: On<Alter<Column>>): Schema {
    if s.table in schema then schema[s.table := AlterOne(schema[s.table], s.statement)] else schema
  }

  function RenameOn(schema: Schema, s: On<Rename<Column>>): Schema {
    if s.table in schema then schema[s.table := RenameOne(schema[s.table], s.statement)] else schema
  }

  function AlteredAll(schema: Schema, alters: seq<On<Alter<Column>>>): Schema {
    if alters == [] then schema else AlterOn(AlteredAll(schema, alters[..|alters| - 1]), alters[|alters| - 1])
  }

  function RenamedAll(schema: Schema, renames: seq<On<Rename<Column>>>): Schema {
    if renames == [] then schema else RenameOn(RenamedAll(schema, renames[..|renames| - 1]), renames[|renames| - 1])
  }

  function StartAll(schema: Schema, alters: seq<On<Alter<Column>>>, renames: seq<On<Rename<Column>>>): Schema {
    RenamedAll(AlteredAll(schema, alters), renames)
  }

  class Database {
    var schema: Schema

    constructor (schema: Schema)
      ensures this.schema == schema
    {
      this.schema := schema;
    }

    /** The two loops of a start: every statement is executed, and its error ignored. */
    method Migrate(alters: seq<On<Alter<Column>>>, renames: seq<On<Rename<Column>>>)
      modifies this
      ensures schema == StartAll(old(schema), alters, renames)
    {
      for i := 0 to |alters|
        invariant schema == AlteredAll(old(schema), alters[..i])
      {
        assert alters[..i + 1][..i] == alters[..i];
        var table := alters[i].table;
        if table in schema {
          match alters[i].statement
          case Add(c) => schema := schema[table := schema[table] + {c}];
          case Drop(c) => schema := schema[table := schema[table] - {c}];
        }
      }
      assert alters[..|alters|] == alters;
      for i := 0 to |renames|
        invariant schema == RenamedAll(AlteredAll(old(schema), alters), renames[..i])
      {
        assert renames[..i + 1][..i] == renames[..i];
        var table, r := renames[i].table, renames[i].statement;
        if table in schema && r.former in schema[table] && r.renamed !in schema[table] {
          schema := schema[table := schema[table] - {r.former} + {r.renamed}];
        }
      }
      assert renames[..|renames|] == renames;
    }
  }

  /** The statements of one table, in order. */
  function For<S>(statements: seq<On<S>>, table: TableName): seq<S> {
    if statements == [] then []
    else
      var n := |statements| - 1;
      For(statements[..n], table) + if statements[n].table == table then [statements[n].statement] else []
  }

  lemma ForSnoc<S>(statements: seq<On<S>>, table: TableName)
    requires statements != []
    ensures var n := |statements| - 1;
            var mine := For(statements, table);
            if statements[n].table == table then
              mine != [] && mine[|mine| - 1] == statements[n].statement
              && mine[..|mine| - 1] == For(statements[..n], table)
            else mine == For(statements[..n], table)
  {
  }

  lemma AlterOnMeans(schema: Schema, s: On<Alter<Column>>, t: TableName)
    ensures AlterOn(schema, s).Keys == schema.Keys
    ensures t in schema ==>
              AlterOn(schema, s)[t] == if s.table == t then AlterOne(schema[t], s.statement) else schema[t]
  {
  }

  lemma RenameOnMeans(schema: Schema, s: On<Rename<Column>>, t: TableName)
    ensures RenameOn(schema, s).Keys == schema.Keys
    ensures t in schema ==>
              RenameOn(schema, s)[t] == if s.table == t then RenameOne(schema[t], s.statement) else schema[t]
  {
  }

  /** Tables do not disturb each other: each one sees its own statements only. */
  lemma {:induction false} AlteredAllMeans(schema: Schema, alters: seq<On<Alter<Column>>>, t: TableName)
    ensures AlteredAll(schema, alters).Keys == schema.Keys
    ensures t in schema ==> AlteredAll(schema, alters)[t] == Altered(schema[t], For(alters, t))
  {
    if alters != [] {
      var n := |alters| - 1;
      AlteredAllMeans(schema, alters[..n], t);
      AlterOnMeans(AlteredAll(schema, alters[..n]), alters[n], t);
      ForSnoc(alters, t);
    }
  }

  lemma {:induction false} RenamedAllMeans(schema: Schema, renames: seq<On<Rename<Column>>>, t: TableName)
    ensures RenamedAll(schema, renames).Keys == schema.Keys
    ensures t in schema ==> RenamedAll(schema, renames)[t] == Renamed(schema[t], For(renames, t))
  {
    if renames != [] {
      var n := |renames| - 1;
      RenamedAllMeans(schema, renames[..n], t);
      RenameOnMeans(RenamedAll(schema, renames[..n]), renames[n], t);
      ForSnoc(renames, t);
    }
  }

  /** The statements of every table are the shipped ones, however the tables are interleaved. */
  ghost predicate Shipped(alters: seq<On<Alter<Column>>>, renames: seq<On<Rename<Column>>>) {
    forall t: TableName :: For(alters, t) == AltersOf(t) && For(renames, t) == RenamesOf(t)
  }

  lemma StartAllMeans(schema: Schema, alters: seq<On<Alter<Column>>>, renames: seq<On<Rename<Column>>>)
    requires Shipped(alters, renames)
    ensures StartAll(schema, alters, renames).Keys == schema.Keys
    ensures forall t | t in schema ::
              StartAll(schema, alters, renames)[t] == Start(schema[t], AltersOf(t), RenamesOf(t))
  {
    forall t: TableName
      ensures StartAll(schema, alters, renames).Keys == schema.Keys
      ensures t in schema ==>
                StartAll(schema, alters, renames)[t] == Start(schema[t], AltersOf(t), RenamesOf(t))
    {
      AlteredAllMeans(schema, alters, t);
      RenamedAllMeans(AlteredAll(schema, alters), renames, t);
    }
  }

  /** Replayability of the whole database: a second start leaves every table as the first left it
      exactly when no limit of ApiKeys and not the one of KeyRequests was left half renamed. */
  lemma DatabaseReplayExact(schema: Schema, alters: seq<On<Alter<Column>>>, renames: seq<On<Rename<Column>>>)
    requires Shipped(alters, renames)
    ensures var once := StartAll(schema, alters, renames);
            StartAll(once, alters, renames) == once <==> forall t | t in schema :: Replays(t, schema[t])
  {
    var once := StartAll(schema, alters, renames);
    var twice := StartAll(once, alters, renames);
    StartAllMeans(schema, alters, renames);
    StartAllMeans(once, alters, renames);
    forall t | t in schema ensures twice[t] == once[t] <==> Replays(t, schema[t]) {
      TableReplayExact(t, schema[t]);
    }
  }

  /** And from the third start on, no database ever changes. */
  lemma DatabaseSettles(schema: Schema, alters: seq<On<Alter<Column>>>, renames: seq<On<Rename<Column>>>)
    requires Shipped(alters, renames)
    ensures var twice := StartAll(StartAll(schema, alters, renames), alters, renames);
            StartAll(twice, alters, renames) == twice
  {
    var once := StartAll(schema, alters, renames);
    var twice := StartAll(once, alters, renames);
    StartAllMeans(schema, alters, renames);
    StartAllMeans(once, alters, renames);
    StartAllMeans(twice, alters, renames);
    forall t | t in schema ensures Start(twice[t], AltersOf(t), RenamesOf(t)) == twice[t] {
      TablesAreOrderly(t);
      ThirdStartRests(schema[t], AltersOf(t), RenamesOf(t));
    }
  }

  // ---- One interleaving: table after table, as the renames are listed ----

  function Tagged<S>(table: TableName, statements: seq<S>): seq<On<S>> {
    seq(|statements|, i requires 0 <= i < |statements| => On(table, statements[i]))
  }

  function Grouped<S>(tables: seq<TableName>, of: TableName -> seq<S>): seq<On<S>> {
    if tables == [] then [] else Tagged(tables[0], of(tables[0])) + Grouped(tables[1..], of)
  }

  lemma {:induction false} ForTagged<S>(table: TableName, statements: seq<S>, t: TableName)
    ensures For(Tagged(table, statements), t) == if t == table then statements else []
  {
    if statements != [] {
      var n := |statements| - 1;
      ForTagged(table, statements[..n], t);
      assert Tagged(table, statements)[..n] == Tagged(table, statements[..n]);
      assert statements == statements[..n] + [statements[n]];
    }
  }

  lemma {:induction false} ForConcat<S>(a: seq<On<S>>, b: seq<On<S>>, t: TableName)
    ensures For(a + b, t) == For(a, t) + For(b, t)
  {
    if b == [] {
      assert a + b == a;
    } else {
      var n := |b| - 1;
      assert (a + b)[..|a| + n] == a + b[..n];
      ForConcat(a, b[..n], t);
    }
  }

  lemma {:induction false} ForGrouped<S>(tables: seq<TableName>, of: TableName -> seq<S>, t: TableName)
    requires forall i, j | 0 <= i < j < |tables| :: tables[i] != tables[j]
    ensures For(Grouped(tables, of), t) == if t in tables then of(t) else []
  {
    if tables != [] {
      var head, rest := Tagged(tables[0], of(tables[0])), Grouped(tables[1..], of);
      ForTagged(tables[0], of(tables[0]), t);
      ForConcat(head, rest, t);
      ForGrouped(tables[1..], of, t);
      HeadOnce(tables, t);
      assert Grouped(tables, of) == head + rest;
    }
  }

  lemma HeadOnce(tables: seq<TableName>, t: TableName)
    requires tables != [] && forall i, j | 0 <= i < j < |tables| :: tables[i] != tables[j]
    ensures t in tables <==> t == tables[0] || t in tables[1..]
    ensures t == tables[0] ==> t !in tables[1..]
  {
    assert tables == [tables[0]] + tables[1..];
  }

  lemma GroupedIsShipped()
    ensures Shipped(Grouped(TABLES, AltersOf), Grouped(TABLES, RenamesOf))
  {
    forall t: TableName ensures For(Grouped(TABLES, AltersOf), t) == AltersOf(t)
                                && For(Grouped(TABLES, RenamesOf), t) == RenamesOf(t)
    {
      EveryTableIsListed(t);
      ForGrouped(TABLES, AltersOf, t);
      ForGrouped(TABLES, RenamesOf, t);
    }
  }

  lemma EveryTableIsListed(t: TableName)
    ensures t in TABLES
    ensures forall i, j | 0 <= i < j < |TABLES| :: TABLES[i] != TABLES[j]
  {
    match t
    case ApiKeys => assert TABLES[0] == t;
    case PasswordResetTokens => assert TABLES[1] == t;
    case ConnectionTokens => assert TABLES[2] == t;
    case PairingCodes => assert TABLES[3] == t;
    case ConnectionLogs => assert TABLES[4] == t;
    case Credentials => assert TABLES[5] == t;
    case KnownClients => assert TABLES[6] == t;
    case Users => assert TABLES[7] == t;
    case Sessions => assert TABLES[8] == t;
    case RemoteRequestLogs => assert TABLES[9] == t;
    case PairRequests => assert TABLES[10] == t;
    case KeyRequests => assert TABLES[11] == t;
    case NotificationSettings => assert TABLES[12] == t;
  }
}

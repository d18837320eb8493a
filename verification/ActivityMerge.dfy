/** The activity page: three logs, one fetched newest first by time and two by id, each cut off,
    merged, sorted by time and sliced. */
module ActivityMerge {

  datatype ConnectionLog = ConnectionLog(id: int, client: string, world: string, createdAt: int)
  datatype RemoteRequestLog = RemoteRequestLog(id: int, source: string, target: string, action: string, createdAt: int)
  datatype ModuleEventLog = ModuleEventLog(id: int, client: string, eventType: string, createdAt: int)

  datatype Activity = Activity(id: int, kind: string, client: string, target: string, action: string, createdAt: int)

  /** The rows that match the filters, in the order they are fetched in. */
  datatype Logs = Logs(
    connections: seq<ConnectionLog>, requests: seq<RemoteRequestLog>, modules: seq<ModuleEventLog>)

  function FromConnection(c: ConnectionLog): Activity {
    Activity(c.id, "connection", c.client, "", "", c.createdAt)
  }

  function FromRequest(r: RemoteRequestLog): Activity {
    Activity(r.id, "remote_request", r.source, r.target, r.action, r.createdAt)
  }

  function FromModule(m: ModuleEventLog): Activity {
    Activity(m.id, "module_event", m.client, "", m.eventType, m.createdAt)
  }

  function Min(a: nat, b: nat): nat {
    if a < b then a else b
  }

  /** The LIMIT of FindFiltered: the offset it is given plus the limit, which defaults to 50. */
  function FetchCount(offset: nat, limit: nat): nat {
    offset + if limit == 0 then 50 else limit
  }

  function Fetched<T>(rows: seq<T>, n: nat): seq<T> {
    rows[..Min(n, |rows|)]
  }

  function Selected(kind: string, wanted: string): bool {
    wanted == "" || wanted == kind
  }

  function ConnectionEvents(rows: seq<ConnectionLog>): (events: seq<Activity>)
    ensures |events| == |rows|
  {
    seq(|rows|, i requires 0 <= i < |rows| => FromConnection(rows[i]))
  }

  function RequestEvents(rows: seq<RemoteRequestLog>): (events: seq<Activity>)
    ensures |events| == |rows|
  {
    seq(|rows|, i requires 0 <= i < |rows| => FromRequest(rows[i]))
  }

  function ModuleEvents(rows: seq<ModuleEventLog>): (events: seq<Activity>)
    ensures |events| == |rows|
  {
    seq(|rows|, i requires 0 <= i < |rows| => FromModule(rows[i]))
  }

  /** Everything fetched, source after source. The fetch is asked for offset 0 whatever the page. */
  function Gathered(logs: Logs, wanted: string, limit: nat): seq<Activity> {
    var n := FetchCount(0, limit);
    (if Selected("connection", wanted) then ConnectionEvents(Fetched(logs.connections, n)) else [])
    + (if Selected("remote_request", wanted) then RequestEvents(Fetched(logs.requests, n)) else [])
    + (if Selected("module_event", wanted) then ModuleEvents(Fetched(logs.modules, n)) else [])
  }

  function Total(logs: Logs, wanted: string): nat {
    (if Selected("connection", wanted) then |logs.connections| else 0)
    + (if Selected("remote_request", wanted) then |logs.requests| else 0)
    + (if Selected("module_event", wanted) then |logs.modules| else 0)
  }

  function Slice<T>(all: seq<T>, offset: nat, limit: nat): seq<T> {
    if offset >= |all| then [] else all[offset..Min(offset + limit, |all|)]
  }

  ghost predicate NewestFirst(all: seq<Activity>) {
    forall i, j | 0 <= i <= j < |all| :: all[i].createdAt >= all[j].createdAt
  }

  // ---- The handler ----

  /** `sort.Slice` by descending time: some ordering of the same events, ties in any order. */
  method SortByTime(all: seq<Activity>) returns (sorted: seq<Activity>)
    ensures NewestFirst(sorted)
    ensures multiset(sorted) == multiset(all)
  {
    sorted := [];
    for i := 0 to |all|
      invariant NewestFirst(sorted)
      invariant multiset(sorted) == multiset(all[..i])
    {
      assert all[..i + 1] == all[..i] + [all[i]];
      sorted := InsertByTime(sorted, all[i]);
    }
    assert all[..|all|] == all;
  }

  method InsertByTime(sorted: seq<Activity>, event: Activity) returns (longer: seq<Activity>)
    requires NewestFirst(sorted)
    ensures NewestFirst(longer)
    ensures multiset(longer) == multiset(sorted) + multiset{event}
  {
    var k := 0;
    while k < |sorted| && sorted[k].createdAt >= event.createdAt
      invariant k <= |sorted|
      invariant forall j | 0 <= j < k :: sorted[j].createdAt >= event.createdAt
    {
      k := k + 1;
    }
    longer := sorted[..k] + [event] + sorted[k..];
    InsertKeepsBag(sorted, event, k);
  }

  lemma InsertKeepsBag(sorted: seq<Activity>, event: Activity, k: nat)
    requires k <= |sorted|
    ensures multiset(sorted[..k] + [event] + sorted[k..]) == multiset(sorted) + multiset{event}
  {
    assert sorted == sorted[..k] + sorted[k..];
  }

  method AppendConnections(all: seq<Activity>, rows: seq<ConnectionLog>) returns (longer: seq<Activity>)
    ensures longer == all + ConnectionEvents(rows)
  {
    longer := all;
    for i := 0 to |rows|
      invariant longer == all + ConnectionEvents(rows)[..i]
    {
      longer := longer + [FromConnection(rows[i])];
    }
  }

  method AppendRequests(all: seq<Activity>, rows: seq<RemoteRequestLog>) returns (longer: seq<Activity>)
    ensures longer == all + RequestEvents(rows)
  {
    longer := all;
    for i := 0 to |rows|
      invariant longer == all + RequestEvents(rows)[..i]
    {
      longer := longer + [FromRequest(rows[i])];
    }
  }

  method AppendModules(all: seq<Activity>, rows: seq<ModuleEventLog>) returns (longer: seq<Activity>)
    ensures longer == all + ModuleEvents(rows)
  {
    longer := all;
    for i := 0 to |rows|
      invariant longer == all + ModuleEvents(rows)[..i]
    {
      longer := longer + [FromModule(rows[i])];
    }
  }

  method MergeActivityLogs(logs: Logs, wanted: string, limit: nat, offset: nat)
    returns (page: seq<Activity>, total: nat, ghost sorted: seq<Activity>)
    ensures NewestFirst(sorted) && multiset(sorted) == multiset(Gathered(logs, wanted, limit))
    ensures page == Slice(sorted, offset, limit)
    ensures total == Total(logs, wanted)
  {
    var all: seq<Activity> := [];
    var n := FetchCount(0, limit);
    total := 0;
    if Selected("connection", wanted) {
      total := total + |logs.connections|;
      all := AppendConnections(all, Fetched(logs.connections, n));
    }
    if Selected("remote_request", wanted) {
      total := total + |logs.requests|;
      all := AppendRequests(all, Fetched(logs.requests, n));
    }
    if Selected("module_event", wanted) {
      total := total + |logs.modules|;
      all := AppendModules(all, Fetched(logs.modules, n));
    }
    assert all == Gathered(logs, wanted, limit);
    var ordered := SortByTime(all);
    sorted := ordered;
    if offset >= |ordered| {
      return [], total, sorted;
    }
    var end := offset + limit;
    if end > |ordered| {
      end := |ordered|;
    }
    page := ordered[offset..end];
  }

  // ---- Times only ----

  ghost predicate Descending(s: seq<int>) {
    forall i, j | 0 <= i <= j < |s| :: s[i] >= s[j]
  }

  /** How many values are at least `x`. */
  function AtLeast(s: seq<int>, x: int): nat {
    if s == [] then 0 else (if s[0] >= x then 1 else 0) + AtLeast(s[1..], x)
  }

  lemma {:induction false} AtLeastConcat(a: seq<int>, b: seq<int>, x: int)
    ensures AtLeast(a + b, x) == AtLeast(a, x) + AtLeast(b, x)
  {
    if a == [] {
      assert a + b == b;
    } else {
      assert (a + b)[0] == a[0] && (a + b)[1..] == a[1..] + b;
      AtLeastConcat(a[1..], b, x);
    }
  }

  lemma {:induction false} AtLeastPermutes(a: seq<int>, b: seq<int>, x: int)
    requires multiset(a) == multiset(b)
    ensures AtLeast(a, x) == AtLeast(b, x)
  {
    if a == [] {
      assert |b| == |multiset(b)| == 0;
    } else {
      assert a == [a[0]] + a[1..];
      assert a[0] in multiset(a);
      var i :| 0 <= i < |b| && b[i] == a[0];
      TakeOut(b, i, x);
      AtLeastPermutes(a[1..], b[..i] + b[i + 1..], x);
    }
  }

  lemma TakeOut(b: seq<int>, i: nat, x: int)
    requires i < |b|
    ensures multiset(b[..i] + b[i + 1..]) == multiset(b) - multiset{b[i]}
    ensures AtLeast(b, x) == AtLeast(b[..i] + b[i + 1..], x) + if b[i] >= x then 1 else 0
  {
    assert b == b[..i] + ([b[i]] + b[i + 1..]);
    AtLeastConcat(b[..i], [b[i]] + b[i + 1..], x);
    AtLeastConcat([b[i]], b[i + 1..], x);
    AtLeastConcat(b[..i], b[i + 1..], x);
    assert AtLeast([b[i]], x) == if b[i] >= x then 1 else 0;
  }

  /** In a descending list, position j holds at least `x` exactly when more than j values do. */
  lemma {:induction false} RankIsCount(s: seq<int>, j: nat, x: int)
    requires Descending(s)
    ensures AtLeast(s, x) > j <==> j < |s| && s[j] >= x
    decreases |s|
  {
    if s != [] {
      assert Descending(s[1..]);
      if j > 0 {
        RankIsCount(s[1..], j - 1, x);
      } else if s[0] < x {
        NoneAtLeast(s, x);
      }
    }
  }

  lemma {:induction false} NoneAtLeast(s: seq<int>, x: int)
    requires forall v | v in s :: v < x
    ensures AtLeast(s, x) == 0
  {
    if s != [] {
      assert s[0] in s;
      assert forall v | v in s[1..] :: v in s;
      NoneAtLeast(s[1..], x);
    }
  }

  /** Cutting off a descending source after `n` of its values loses nothing above the cut: if a
      dropped value is at least `x`, then `n` kept ones are. */
  lemma CutKeepsTop(rows: seq<int>, n: nat, x: int)
    requires n <= |rows| && (Descending(rows) || n == |rows|)
    ensures AtLeast(rows, x) == AtLeast(rows[..n], x) + AtLeast(rows[n..], x)
    ensures AtLeast(rows[n..], x) > 0 ==> AtLeast(rows[..n], x) >= n
  {
    assert rows == rows[..n] + rows[n..];
    AtLeastConcat(rows[..n], rows[n..], x);
    if AtLeast(rows[n..], x) > 0 && n > 0 {
      RankIsCount(rows[n..], 0, x);
      assert rows[..n][n - 1] >= rows[n..][0];
      RankIsCount(rows[..n], n - 1, x);
    }
  }

  /** The times of three sources, in the order their rows are fetched in. */
  datatype Sources = Sources(a: seq<int>, b: seq<int>, c: seq<int>)

  ghost predicate AllDescending(s: Sources) {
    Descending(s.a) && Descending(s.b) && Descending(s.c)
  }

  function Everything(s: Sources): seq<int> {
    s.a + s.b + s.c
  }

  /** The first na, nb and nc rows of the sources. */
  function Cut(s: Sources, na: nat, nb: nat, nc: nat): Sources {
    Sources(Fetched(s.a, na), Fetched(s.b, nb), Fetched(s.c, nc))
  }

  /** `merged` is the newest-first list of all rows. */
  ghost predicate Merges(s: Sources, merged: seq<int>) {
    Descending(merged) && multiset(merged) == multiset(Everything(s))
  }

  lemma CountsOf(s: Sources, merged: seq<int>, x: int)
    requires Merges(s, merged)
    ensures AtLeast(merged, x) == AtLeast(s.a, x) + AtLeast(s.b, x) + AtLeast(s.c, x)
    ensures |merged| == |s.a| + |s.b| + |s.c|
  {
    assert |multiset(merged)| == |merged| && |multiset(Everything(s))| == |Everything(s)|;
    AtLeastPermutes(merged, Everything(s), x);
    AtLeastConcat(s.a + s.b, s.c, x);
    AtLeastConcat(s.a, s.b, x);
  }

  /** The first `n` rows of a source are all of it, or its newest k. */
  ghost predicate HasTop(rows: seq<int>, n: nat, k: nat) {
    n >= |rows| || (Descending(rows) && n >= k)
  }

  ghost predicate AllHaveTop(s: Sources, k: nat, na: nat, nb: nat, nc: nat) {
    HasTop(s.a, na, k) && HasTop(s.b, nb, k) && HasTop(s.c, nc, k)
  }

  /** If every source contributes all its rows or at least its newest k, the merge of the cut sources
      agrees with the full merge on its first k positions. */
  lemma TopKAgrees(s: Sources, k: nat, na: nat, nb: nat, nc: nat, cut: seq<int>, full: seq<int>, j: nat)
    requires AllHaveTop(s, k, na, nb, nc)
    requires Merges(Cut(s, na, nb, nc), cut) && Merges(s, full)
    requires j < k
    ensures j < |cut| <==> j < |full|
    ensures j < |cut| ==> cut[j] == full[j]
  {
    var t := Cut(s, na, nb, nc);
    forall x ensures AtLeast(cut, x) > j <==> AtLeast(full, x) > j {
      CountsOf(t, cut, x);
      CountsOf(s, full, x);
      CutKeepsTop(s.a, |t.a|, x);
      CutKeepsTop(s.b, |t.b|, x);
      CutKeepsTop(s.c, |t.c|, x);
    }
    if j < |full| {
      RankIsCount(full, j, full[j]);
      RankIsCount(cut, j, full[j]);
      RankIsCount(cut, j, cut[j]);
      RankIsCount(full, j, cut[j]);
    }
    if j < |cut| {
      RankIsCount(cut, j, cut[j]);
      RankIsCount(full, j, cut[j]);
    }
  }

  /** The top-k theorem: with the newest offset+limit rows of each source in hand, the page holds
      exactly the times at positions [offset, offset+limit) of the fully merged list, whatever order
      the sort gives ties. */
  lemma PageOfTopK(s: Sources, offset: nat, limit: nat, na: nat, nb: nat, nc: nat, cut: seq<int>, full: seq<int>)
    requires AllHaveTop(s, offset + limit, na, nb, nc)
    requires Merges(Cut(s, na, nb, nc), cut) && Merges(s, full)
    ensures Slice(cut, offset, limit) == Slice(full, offset, limit)
  {
    forall j: nat | j < offset + limit ensures AgreeAt(cut, full, j) {
      TopKAgrees(s, offset + limit, na, nb, nc, cut, full, j);
    }
    SameSlices(cut, full, offset, limit);
  }

  ghost predicate AgreeAt(cut: seq<int>, full: seq<int>, j: nat) {
    (j < |cut| <==> j < |full|) && (j < |cut| && j < |full| ==> cut[j] == full[j])
  }

  lemma SameSlices(cut: seq<int>, full: seq<int>, offset: nat, limit: nat)
    requires forall j: nat | j < offset + limit :: AgreeAt(cut, full, j)
    ensures Slice(cut, offset, limit) == Slice(full, offset, limit)
  {
    var k := offset + limit;
    assert |cut| < k ==> AgreeAt(cut, full, |cut|);
    assert |full| < k ==> AgreeAt(cut, full, |full|);
    assert Min(k, |cut|) == Min(k, |full|);
    forall j: nat | j < Min(k, |cut|) ensures cut[j] == full[j] {
      assert AgreeAt(cut, full, j);
    }
    assert cut[..Min(k, |cut|)] == full[..Min(k, |full|)];
    SliceOfTake(cut, offset, limit);
    SliceOfTake(full, offset, limit);
  }

  lemma SliceOfTake(s: seq<int>, offset: nat, limit: nat)
    ensures Slice(s, offset, limit) ==
            var top := s[..Min(offset + limit, |s|)]; if offset >= |top| then [] else top[offset..]
  {
  }

  // ---- What the handler really fetches ----

  /** The page is right for these sources: each source is cut at `limit`, not at offset + limit. */
  ghost predicate PageIsRight(s: Sources, offset: nat, limit: nat) {
    forall cut, full | Merges(Cut(s, limit, limit, limit), cut) && Merges(s, full) ::
      Slice(cut, offset, limit) == Slice(full, offset, limit)
  }

  /** Sources as they are fetched: only the first is known to be listed newest first. */
  ghost predicate Listed(s: Sources, na: nat, nb: nat, nc: nat) {
    Descending(s.a) && |s.a| == na && |s.b| == nb && |s.c| == nc
  }

  /** Sources that are all listed newest first. */
  ghost predicate Sized(s: Sources, na: nat, nb: nat, nc: nat) {
    AllDescending(s) && |s.a| == na && |s.b| == nb && |s.c| == nc
  }

  /** The page starts past the last row, or the sources listed by id are not cut and it is the first
      page or the one listed by time is not cut either. */
  predicate Safe(na: nat, nb: nat, nc: nat, offset: nat, limit: nat) {
    offset >= na + nb + nc || (nb <= limit && nc <= limit && (offset == 0 || na <= limit))
  }

  /** It is the first page, or starts past the last row, or no source is cut. */
  predicate SafeInOrder(na: nat, nb: nat, nc: nat, offset: nat, limit: nat) {
    offset == 0 || offset >= na + nb + nc || (na <= limit && nb <= limit && nc <= limit)
  }

  /** With na, nb and nc matching rows, the page is right whatever the rows' times if and only if it
      is safe: an overlong source listed by id can lose its newest row to the cut, even on the first
      page. */
  lemma PageExact(na: nat, nb: nat, nc: nat, offset: nat, limit: nat)
    requires limit >= 1
    ensures (forall s | Listed(s, na, nb, nc) :: PageIsRight(s, offset, limit)) <==> Safe(na, nb, nc, offset, limit)
  {
    if Safe(na, nb, nc, offset, limit) {
      forall s | Listed(s, na, nb, nc) ensures PageIsRight(s, offset, limit) {
        PageSufficient(s, offset, limit);
      }
    } else {
      PageNecessary(na, nb, nc, offset, limit);
    }
  }

  /** If all three sources are listed newest first, the first page is always right. */
  lemma PageExactInOrder(na: nat, nb: nat, nc: nat, offset: nat, limit: nat)
    requires limit >= 1
    ensures (forall s | Sized(s, na, nb, nc) :: PageIsRight(s, offset, limit))
            <==> SafeInOrder(na, nb, nc, offset, limit)
  {
    if SafeInOrder(na, nb, nc, offset, limit) {
      forall s | Sized(s, na, nb, nc) ensures PageIsRight(s, offset, limit) {
        PageSufficient(s, offset, limit);
      }
    } else {
      PageNecessaryInOrder(na, nb, nc, offset, limit);
    }
  }

  /** What either condition asks of sources. */
  ghost predicate Sound(s: Sources, offset: nat, limit: nat) {
    || (Descending(s.a) && Safe(|s.a|, |s.b|, |s.c|, offset, limit))
    || (AllDescending(s) && SafeInOrder(|s.a|, |s.b|, |s.c|, offset, limit))
  }

  lemma PageSufficient(s: Sources, offset: nat, limit: nat)
    requires limit >= 1 && Sound(s, offset, limit)
    ensures PageIsRight(s, offset, limit)
  {
    forall cut, full | Merges(Cut(s, limit, limit, limit), cut) && Merges(s, full)
      ensures Slice(cut, offset, limit) == Slice(full, offset, limit)
    {
      CountsOf(Cut(s, limit, limit, limit), cut, 0);
      CountsOf(s, full, 0);
      if offset < |s.a| + |s.b| + |s.c| {
        PageOfTopK(s, offset, limit, limit, limit, limit, cut, full);
      }
    }
  }

  /** top, top-1, ..., top-n+1. */
  function Down(top: int, n: nat): seq<int> {
    seq(n, i => top - i)
  }

  /** The overlong source x holds the newest rows, the other two the rest: once x is cut, every
      later position shows an older row than it should. */
  lemma CutFallsBehind(x: seq<int>, y: seq<int>, z: seq<int>, limit: nat, p: nat)
    requires var n := |x| + |y| + |z|; x + y + z == Down(n, n)
    requires |x| > limit && limit <= p
    ensures var cut := Fetched(x, limit) + Fetched(y, limit) + Fetched(z, limit);
            p < |cut| ==> cut[p] < |x| + |y| + |z| - p
  {
    var n := |x| + |y| + |z|;
    var full := x + y + z;
    var fx, fy, fz := Fetched(x, limit), Fetched(y, limit), Fetched(z, limit);
    var cut := fx + fy + fz;
    if p < |cut| {
      if p < limit + |fy| {
        assert cut[p] == y[p - limit] == full[|x| + (p - limit)];
      } else {
        assert cut[p] == z[p - limit - |fy|] == full[|x| + |y| + (p - limit - |fy|)];
      }
    }
  }

  /** Where position p of the cut list stood in the whole one. */
  function Origin(nx: nat, ny: nat, limit: nat, p: nat): nat {
    var fx, fy := Min(limit, nx), Min(limit, ny);
    if p < fx then p else if p < fx + fy then nx + (p - fx) else nx + ny + (p - fx - fy)
  }

  lemma CutComesFrom(x: seq<int>, y: seq<int>, z: seq<int>, limit: nat, p: nat)
    requires var n := |x| + |y| + |z|; x + y + z == Down(n, n)
    requires p < |Fetched(x, limit) + Fetched(y, limit) + Fetched(z, limit)|
    ensures (Fetched(x, limit) + Fetched(y, limit) + Fetched(z, limit))[p]
            == |x| + |y| + |z| - Origin(|x|, |y|, limit, p)
  {
    var full := x + y + z;
    var fx, fy, fz := Fetched(x, limit), Fetched(y, limit), Fetched(z, limit);
    var o := Origin(|x|, |y|, limit, p);
    if p < |fx| {
      assert (fx + fy + fz)[p] == x[p] == full[o];
    } else if p < |fx| + |fy| {
      assert (fx + fy + fz)[p] == y[p - |fx|] == full[o];
    } else {
      assert (fx + fy + fz)[p] == z[p - |fx| - |fy|] == full[o];
    }
  }

  /** The cut of a countdown is descending. */
  lemma CutDescends(x: seq<int>, y: seq<int>, z: seq<int>, limit: nat)
    requires var n := |x| + |y| + |z|; x + y + z == Down(n, n)
    ensures Descending(Fetched(x, limit) + Fetched(y, limit) + Fetched(z, limit))
  {
    var cut := Fetched(x, limit) + Fetched(y, limit) + Fetched(z, limit);
    forall i, j | 0 <= i <= j < |cut| ensures cut[i] >= cut[j] {
      CutComesFrom(x, y, z, limit, i);
      CutComesFrom(x, y, z, limit, j);
    }
  }

  lemma PartsDescend(x: seq<int>, y: seq<int>, z: seq<int>)
    requires Descending(x + y + z)
    ensures Descending(x) && Descending(y) && Descending(z)
  {
    var full := x + y + z;
    assert forall i | 0 <= i < |x| :: x[i] == full[i];
    assert forall i | 0 <= i < |y| :: y[i] == full[|x| + i];
    assert forall i | 0 <= i < |z| :: z[i] == full[|x| + |y| + i];
  }

  lemma SlicesDiffer(cut: seq<int>, full: seq<int>, offset: nat, limit: nat, p: nat)
    requires offset <= p < offset + limit && p < |full|
    requires p < |cut| ==> cut[p] != full[p]
    ensures Slice(cut, offset, limit) != Slice(full, offset, limit)
  {
    assert Slice(full, offset, limit)[p - offset] == full[p];
    if |Slice(cut, offset, limit)| > p - offset {
      assert Slice(cut, offset, limit)[p - offset] == cut[p];
    }
  }

  /** So the page is wrong, whichever source is the overlong one. */
  lemma OverlongSpoilsPage(s: Sources, x: seq<int>, y: seq<int>, z: seq<int>, offset: nat, limit: nat)
    requires var n := |x| + |y| + |z|; x + y + z == Down(n, n) && 0 < offset < n
    requires limit >= 1 && |x| > limit
    requires s == Sources(x, y, z) || s == Sources(y, x, z) || s == Sources(y, z, x)
    ensures AllDescending(s) && !PageIsRight(s, offset, limit)
  {
    var n := |x| + |y| + |z|;
    var full := Down(n, n);
    var fx, fy, fz := Fetched(x, limit), Fetched(y, limit), Fetched(z, limit);
    var cut := fx + fy + fz;
    var p := if offset < limit then limit else offset;
    CutDescends(x, y, z, limit);
    PartsDescend(x, y, z);
    CutFallsBehind(x, y, z, limit, p);
    SlicesDiffer(cut, full, offset, limit, p);
    MergesAs(s, x, y, z, full);
    MergesAs(Cut(s, limit, limit, limit), fx, fy, fz, cut);
    WrongPage(s, offset, limit, cut, full);
  }

  lemma MergesAs(s: Sources, x: seq<int>, y: seq<int>, z: seq<int>, merged: seq<int>)
    requires merged == x + y + z && Descending(merged)
    requires s == Sources(x, y, z) || s == Sources(y, x, z) || s == Sources(y, z, x)
    ensures Merges(s, merged)
  {
    SameBag(s, x, y, z);
  }

  lemma WrongPage(s: Sources, offset: nat, limit: nat, cut: seq<int>, full: seq<int>)
    requires Merges(Cut(s, limit, limit, limit), cut) && Merges(s, full)
    requires Slice(cut, offset, limit) != Slice(full, offset, limit)
    ensures !PageIsRight(s, offset, limit)
  {
  }

  lemma SameBag(s: Sources, x: seq<int>, y: seq<int>, z: seq<int>)
    requires s == Sources(x, y, z) || s == Sources(y, x, z) || s == Sources(y, z, x)
    ensures multiset(Everything(s)) == multiset(x + y + z)
  {
    assert multiset(x + y + z) == multiset(x) + multiset(y) + multiset(z);
    assert multiset(Everything(s)) == multiset(s.a) + multiset(s.b) + multiset(s.c);
  }

  /** Three stretches of one countdown. */
  lemma Stretches(n1: nat, n2: nat, n3: nat)
    ensures var n := n1 + n2 + n3; Down(n, n1) + Down(n - n1, n2) + Down(n3, n3) == Down(n, n)
  {
  }

  lemma PageNecessaryInOrder(na: nat, nb: nat, nc: nat, offset: nat, limit: nat)
    requires limit >= 1 && !SafeInOrder(na, nb, nc, offset, limit)
    ensures exists s :: Sized(s, na, nb, nc) && !PageIsRight(s, offset, limit)
  {
    var n := na + nb + nc;
    if na > limit {
      var s := Sources(Down(n, na), Down(n - na, nb), Down(nc, nc));
      Stretches(na, nb, nc);
      OverlongSpoilsPage(s, s.a, s.b, s.c, offset, limit);
      assert Sized(s, na, nb, nc);
    } else if nb > limit {
      var s := Sources(Down(n - nb, na), Down(n, nb), Down(nc, nc));
      Stretches(nb, na, nc);
      OverlongSpoilsPage(s, s.b, s.a, s.c, offset, limit);
      assert Sized(s, na, nb, nc);
    } else {
      var s := Sources(Down(n - nc, na), Down(nb, nb), Down(n, nc));
      Stretches(nc, na, nb);
      OverlongSpoilsPage(s, s.c, s.a, s.b, offset, limit);
      assert Sized(s, na, nb, nc);
    }
  }

  /** The cut has fewer rows than the whole from every time on, up to the newest. */
  ghost predicate LosesNewest(s: Sources, cut: seq<int>) {
    forall x | x <= |Everything(s)| :: AtLeast(cut, x) < AtLeast(Everything(s), x)
  }

  /** A dropped row that is the newest of all shifts every later position of the page. */
  lemma LostNewestSpoilsPage(s: Sources, cut: seq<int>, offset: nat, limit: nat)
    requires var n := |Everything(s)|;
             limit >= 1 && offset < n && multiset(Everything(s)) == multiset(Down(n, n))
    requires Merges(Cut(s, limit, limit, limit), cut)
    requires LosesNewest(s, cut)
    ensures !PageIsRight(s, offset, limit)
  {
    var n := |Everything(s)|;
    var full := Down(n, n);
    var x := full[offset];
    AtLeastPermutes(Everything(s), full, x);
    RankIsCount(full, offset, x);
    RankIsCount(full, offset + 1, x);
    RankIsCount(cut, offset, x);
    SlicesDiffer(cut, full, offset, limit, offset);
    WrongPage(s, offset, limit, cut, full);
  }

  /** Cutting a source never adds rows. */
  lemma CutNeverAdds(rows: seq<int>, limit: nat, x: int)
    ensures AtLeast(Fetched(rows, limit), x) <= AtLeast(rows, x)
  {
    var m := Min(limit, |rows|);
    assert rows == rows[..m] + rows[m..];
    AtLeastConcat(rows[..m], rows[m..], x);
  }

  /** Cutting one whose last row is the newest loses that row. */
  lemma CutLosesLast(rows: seq<int>, limit: nat, x: int)
    requires |rows| > limit && x <= rows[|rows| - 1]
    ensures AtLeast(Fetched(rows, limit), x) < AtLeast(rows, x)
  {
    var k := |rows| - 1;
    assert rows == rows[..k] + [rows[k]];
    AtLeastConcat(rows[..k], [rows[k]], x);
    assert Fetched(rows, limit) == Fetched(rows[..k], limit);
    CutNeverAdds(rows[..k], limit, x);
  }

  /** The cut merge of sources, whatever order they are listed in. */
  lemma CutCounts(s: Sources, cut: seq<int>, limit: nat, x: int)
    requires Merges(Cut(s, limit, limit, limit), cut)
    ensures AtLeast(cut, x) == AtLeast(Fetched(s.a, limit), x) + AtLeast(Fetched(s.b, limit), x)
                               + AtLeast(Fetched(s.c, limit), x)
    ensures AtLeast(Everything(s), x) == AtLeast(s.a, x) + AtLeast(s.b, x) + AtLeast(s.c, x)
  {
    CountsOf(Cut(s, limit, limit, limit), cut, x);
    AtLeastConcat(s.a + s.b, s.c, x);
    AtLeastConcat(s.a, s.b, x);
  }

  /** A countdown with its newest row listed last. */
  function NewestLast(top: int, n: nat): seq<int>
    requires n >= 1
  {
    Down(top - 1, n - 1) + [top]
  }

  lemma NewestLastBag(top: int, n: nat)
    requires n >= 1
    ensures multiset(NewestLast(top, n)) == multiset(Down(top, n))
  {
    assert Down(top, n) == [top] + Down(top - 1, n - 1);
  }

  /** The overlong source listed by id holds the newest rows, the newest of them last. */
  function Misnumbered(na: nat, nb: nat, nc: nat, limit: nat): Sources
    requires nb > limit || nc > limit
  {
    var n := na + nb + nc;
    if nb > limit then Sources(Down(n - nb, na), NewestLast(n, nb), Down(nc, nc))
    else Sources(Down(n - nc, na), Down(nb, nb), NewestLast(n, nc))
  }

  lemma BagOfThree(x: seq<int>, y: seq<int>, z: seq<int>)
    ensures multiset(x + y + z) == multiset(x) + multiset(y) + multiset(z)
  {
  }

  /** Three stretches of a countdown, the first one's rows reordered and all listed in any order. */
  lemma BagOfCountdown(n: nat, first: seq<int>, reordered: seq<int>, y: seq<int>, z: seq<int>)
    requires first + y + z == Down(n, n) && multiset(reordered) == multiset(first)
    ensures multiset(y + reordered + z) == multiset(Down(n, n))
    ensures multiset(y + z + reordered) == multiset(Down(n, n))
  {
    BagOfThree(first, y, z);
    BagOfThree(y, reordered, z);
    BagOfThree(y, z, reordered);
  }

  lemma MisnumberedListed(na: nat, nb: nat, nc: nat, limit: nat)
    requires nb > limit || nc > limit
    ensures Listed(Misnumbered(na, nb, nc, limit), na, nb, nc)
    ensures |Everything(Misnumbered(na, nb, nc, limit))| == na + nb + nc
  {
  }

  lemma MisnumberedBag(na: nat, nb: nat, nc: nat, limit: nat)
    requires nb > limit || nc > limit
    ensures var n := na + nb + nc;
            multiset(Everything(Misnumbered(na, nb, nc, limit))) == multiset(Down(n, n))
  {
    var n, s := na + nb + nc, Misnumbered(na, nb, nc, limit);
    if nb > limit {
      MisnumberedBagOf(n, nb, na, nc, s.b, s.a, s.c);
    } else {
      MisnumberedBagOf(n, nc, na, nb, s.c, s.a, s.b);
    }
  }

  lemma MisnumberedBagOf(n: nat, m: nat, ny: nat, nz: nat, x: seq<int>, y: seq<int>, z: seq<int>)
    requires n == m + ny + nz && m >= 1
    requires x == NewestLast(n, m) && y == Down(n - m, ny) && z == Down(nz, nz)
    ensures multiset(y + x + z) == multiset(Down(n, n)) && multiset(y + z + x) == multiset(Down(n, n))
  {
    NewestLastBag(n, m);
    Stretches(m, ny, nz);
    BagOfCountdown(n, Down(n, m), x, y, z);
  }

  /** Any times can be sorted newest first. */
  lemma SomeMerge(all: seq<int>) returns (merged: seq<int>)
    ensures Descending(merged) && multiset(merged) == multiset(all)
  {
    var events := ConnectionEvents(ConnectionsAt(all));
    var sorted := SomeSorting(events);
    RowsAt(all);
    TimesPermute(sorted, events);
    merged := Times(sorted);
  }

  /** The newest row is the last of the source that loses it. */
  lemma MisnumberedLoses(na: nat, nb: nat, nc: nat, limit: nat, cut: seq<int>)
    requires nb > limit || nc > limit
    requires Merges(Cut(Misnumbered(na, nb, nc, limit), limit, limit, limit), cut)
    ensures LosesNewest(Misnumbered(na, nb, nc, limit), cut)
  {
    var s := Misnumbered(na, nb, nc, limit);
    MisnumberedListed(na, nb, nc, limit);
    forall x | x <= |Everything(s)| ensures AtLeast(cut, x) < AtLeast(Everything(s), x) {
      OverlongLoses(s, limit, cut, x);
    }
  }

  lemma OverlongLoses(s: Sources, limit: nat, cut: seq<int>, x: int)
    requires Merges(Cut(s, limit, limit, limit), cut)
    requires (|s.b| > limit && x <= s.b[|s.b| - 1]) || (|s.c| > limit && x <= s.c[|s.c| - 1])
    ensures AtLeast(cut, x) < AtLeast(Everything(s), x)
  {
    CutCounts(s, cut, limit, x);
    SomeLoses(s, limit, x);
  }

  lemma SomeLoses(s: Sources, limit: nat, x: int)
    requires (|s.b| > limit && x <= s.b[|s.b| - 1]) || (|s.c| > limit && x <= s.c[|s.c| - 1])
    ensures AtLeast(Fetched(s.a, limit), x) + AtLeast(Fetched(s.b, limit), x) + AtLeast(Fetched(s.c, limit), x)
            < AtLeast(s.a, x) + AtLeast(s.b, x) + AtLeast(s.c, x)
  {
    CutNeverAdds(s.a, limit, x);
    CutNeverAdds(s.b, limit, x);
    CutNeverAdds(s.c, limit, x);
    if |s.b| > limit && x <= s.b[|s.b| - 1] {
      CutLosesLast(s.b, limit, x);
    } else {
      CutLosesLast(s.c, limit, x);
    }
  }

  lemma MisnumberedSpoilsPage(na: nat, nb: nat, nc: nat, offset: nat, limit: nat)
    requires limit >= 1 && offset < na + nb + nc && (nb > limit || nc > limit)
    ensures !PageIsRight(Misnumbered(na, nb, nc, limit), offset, limit)
  {
    var s := Misnumbered(na, nb, nc, limit);
    MisnumberedListed(na, nb, nc, limit);
    MisnumberedBag(na, nb, nc, limit);
    var cut := SomeMerge(Everything(Cut(s, limit, limit, limit)));
    MisnumberedLoses(na, nb, nc, limit, cut);
    LostNewestSpoilsPage(s, cut, offset, limit);
  }

  lemma PageNecessary(na: nat, nb: nat, nc: nat, offset: nat, limit: nat)
    requires limit >= 1 && !Safe(na, nb, nc, offset, limit)
    ensures exists s :: Listed(s, na, nb, nc) && !PageIsRight(s, offset, limit)
  {
    if nb > limit || nc > limit {
      MisnumberedListed(na, nb, nc, limit);
      MisnumberedSpoilsPage(na, nb, nc, offset, limit);
    } else {
      PageNecessaryInOrder(na, nb, nc, offset, limit);
      var s :| Sized(s, na, nb, nc) && !PageIsRight(s, offset, limit);
      assert Listed(s, na, nb, nc);
    }
  }

  // ---- From the handler's events to their times ----

  function Times(events: seq<Activity>): (times: seq<int>)
    ensures |times| == |events|
  {
    seq(|events|, i requires 0 <= i < |events| => events[i].createdAt)
  }

  function SourcesOf(logs: Logs, wanted: string): Sources {
    Sources(if Selected("connection", wanted) then Times(ConnectionEvents(logs.connections)) else [],
            if Selected("remote_request", wanted) then Times(RequestEvents(logs.requests)) else [],
            if Selected("module_event", wanted) then Times(ModuleEvents(logs.modules)) else [])
  }

  lemma TimesConcat(a: seq<Activity>, b: seq<Activity>)
    ensures Times(a + b) == Times(a) + Times(b)
  {
  }

  lemma TimesTakeOut(b: seq<Activity>, i: nat, rest: seq<Activity>)
    requires i < |b| && rest == b[..i] + b[i + 1..]
    ensures multiset(b) == multiset(rest) + multiset{b[i]}
    ensures multiset(Times(b)) == multiset(Times(rest)) + multiset{b[i].createdAt}
  {
    assert b == b[..i] + ([b[i]] + b[i + 1..]);
    TimesConcat(b[..i], [b[i]] + b[i + 1..]);
    TimesConcat([b[i]], b[i + 1..]);
    TimesConcat(b[..i], b[i + 1..]);
    assert Times([b[i]]) == [b[i].createdAt];
    assert Times(b) == Times(b[..i]) + ([b[i].createdAt] + Times(b[i + 1..]));
  }

  lemma TimesPermuteStep(a: seq<Activity>, b: seq<Activity>, i: nat, restA: seq<Activity>, restB: seq<Activity>)
    requires multiset(a) == multiset(b) && a != [] && i < |b| && a[0] == b[i]
    requires restA == a[1..] && restB == b[..i] + b[i + 1..]
    ensures multiset(restA) == multiset(restB)
    ensures multiset(Times(restA)) == multiset(Times(restB)) ==> multiset(Times(a)) == multiset(Times(b))
  {
    assert a[..0] + a[1..] == restA;
    TimesTakeOut(a, 0, restA);
    TimesTakeOut(b, i, restB);
    assert multiset(restA) == multiset(a) - multiset{a[0]};
    assert multiset(restB) == multiset(b) - multiset{a[0]};
  }

  lemma {:induction false} TimesPermute(a: seq<Activity>, b: seq<Activity>)
    requires multiset(a) == multiset(b)
    ensures multiset(Times(a)) == multiset(Times(b))
    decreases |a|
  {
    if a == [] {
      assert |b| == |multiset(b)| == 0;
    } else {
      assert a[0] in multiset(a);
      var i :| 0 <= i < |b| && b[i] == a[0];
      var restA, restB := a[1..], b[..i] + b[i + 1..];
      TimesPermuteStep(a, b, i, restA, restB);
      TimesPermute(restA, restB);
    }
  }

  lemma TimesOfFetched(logs: Logs, n: nat)
    ensures Times(ConnectionEvents(Fetched(logs.connections, n)))
            == Fetched(Times(ConnectionEvents(logs.connections)), n)
    ensures Times(RequestEvents(Fetched(logs.requests, n))) == Fetched(Times(RequestEvents(logs.requests)), n)
    ensures Times(ModuleEvents(Fetched(logs.modules, n))) == Fetched(Times(ModuleEvents(logs.modules)), n)
  {
  }

  lemma TimesOfGathered(logs: Logs, wanted: string, limit: nat)
    requires limit >= 1
    ensures Times(Gathered(logs, wanted, limit)) == Everything(Cut(SourcesOf(logs, wanted), limit, limit, limit))
  {
    var a := if Selected("connection", wanted) then ConnectionEvents(Fetched(logs.connections, limit)) else [];
    var b := if Selected("remote_request", wanted) then RequestEvents(Fetched(logs.requests, limit)) else [];
    var c := if Selected("module_event", wanted) then ModuleEvents(Fetched(logs.modules, limit)) else [];
    TimesOfFetched(logs, limit);
    TimesConcat(a + b, c);
    TimesConcat(a, b);
  }

  lemma TimesOfSlice(events: seq<Activity>, offset: nat, limit: nat)
    ensures Times(Slice(events, offset, limit)) == Slice(Times(events), offset, limit)
  {
  }

  /** The handler's page, for any tables and any way its sort breaks ties: whenever the sources are
      sound, its times are the right slice of the merge of everything that matches, and its total
      counts every matching row. */
  lemma HandlerPageIsRight(
    logs: Logs, wanted: string, offset: nat, limit: nat, sorted: seq<Activity>, full: seq<int>)
    requires limit >= 1
    requires NewestFirst(sorted) && multiset(sorted) == multiset(Gathered(logs, wanted, limit))
    requires Merges(SourcesOf(logs, wanted), full) && Sound(SourcesOf(logs, wanted), offset, limit)
    ensures Times(Slice(sorted, offset, limit)) == Slice(full, offset, limit)
    ensures Total(logs, wanted) == |full|
  {
    var s := SourcesOf(logs, wanted);
    TimesPermute(sorted, Gathered(logs, wanted, limit));
    TimesOfGathered(logs, wanted, limit);
    assert Merges(Cut(s, limit, limit, limit), Times(sorted));
    PageSufficient(s, offset, limit);
    CountsOf(s, full, 0);
    TimesOfSlice(sorted, offset, limit);
  }

  // ---- The exact condition, for the handler's own rows ----

  /** The handler's page holds the right times, however its sort breaks ties. */
  ghost predicate HandlerPageRight(logs: Logs, wanted: string, offset: nat, limit: nat) {
    forall sorted, full |
      && NewestFirst(sorted) && multiset(sorted) == multiset(Gathered(logs, wanted, limit))
      && Merges(SourcesOf(logs, wanted), full) ::
      Times(Slice(sorted, offset, limit)) == Slice(full, offset, limit)
  }

  /** Logs of the given lengths as the three queries list them: connections newest first, requests and
      module events by falling id. */
  ghost predicate LogsListed(logs: Logs, na: nat, nb: nat, nc: nat) {
    && |logs.connections| == na && |logs.requests| == nb && |logs.modules| == nc
    && Descending(SourcesOf(logs, "").a)
    && (forall i, j | 0 <= i < j < nb :: logs.requests[i].id > logs.requests[j].id)
    && (forall i, j | 0 <= i < j < nc :: logs.modules[i].id > logs.modules[j].id)
  }

  /** Rows were numbered in the order of their times. */
  ghost predicate IdsFollowTimes(logs: Logs) {
    && (forall r, q | r in logs.requests && q in logs.requests && r.id > q.id :: r.createdAt >= q.createdAt)
    && (forall e, f | e in logs.modules && f in logs.modules && e.id > f.id :: e.createdAt >= f.createdAt)
  }

  /** How many of `n` rows of a kind match. */
  function Matching(kind: string, wanted: string, n: nat): nat {
    if Selected(kind, wanted) then n else 0
  }

  predicate HandlerSafe(na: nat, nb: nat, nc: nat, wanted: string, offset: nat, limit: nat) {
    Safe(Matching("connection", wanted, na), Matching("remote_request", wanted, nb),
         Matching("module_event", wanted, nc), offset, limit)
  }

  predicate HandlerSafeInOrder(na: nat, nb: nat, nc: nat, wanted: string, offset: nat, limit: nat) {
    SafeInOrder(Matching("connection", wanted, na), Matching("remote_request", wanted, nb),
                Matching("module_event", wanted, nc), offset, limit)
  }

  /** With na, nb and nc rows in the three logs, the handler's page is right whatever the rows if and
      only if it starts past the last matching row, or no matching request or module event is cut off
      and it is the first page or no matching connection is cut off either. */
  lemma HandlerPageExact(na: nat, nb: nat, nc: nat, wanted: string, offset: nat, limit: nat)
    requires limit >= 1
    ensures (forall logs | LogsListed(logs, na, nb, nc) :: HandlerPageRight(logs, wanted, offset, limit))
            <==> HandlerSafe(na, nb, nc, wanted, offset, limit)
  {
    if HandlerSafe(na, nb, nc, wanted, offset, limit) {
      forall logs | LogsListed(logs, na, nb, nc) ensures HandlerPageRight(logs, wanted, offset, limit) {
        SoundPageIsRight(logs, wanted, offset, limit);
      }
    } else {
      var a, b, c := Matching("connection", wanted, na), Matching("remote_request", wanted, nb),
                     Matching("module_event", wanted, nc);
      PageNecessary(a, b, c, offset, limit);
      var s :| Listed(s, a, b, c) && !PageIsRight(s, offset, limit);
      LogsWithSources(s, wanted, na, nb, nc);
      LogsWithAreListed(s, wanted, na, nb, nc);
      WrongHandlerPage(LogsWith(s, wanted, na, nb, nc), wanted, offset, limit);
    }
  }

  /** If rows were numbered in the order of their times, the first page is always right, and the other
      pages are if and only if they start past the last matching row or no matching log is cut off. */
  lemma HandlerPageExactInOrder(na: nat, nb: nat, nc: nat, wanted: string, offset: nat, limit: nat)
    requires limit >= 1
    ensures (forall logs | LogsListed(logs, na, nb, nc) && IdsFollowTimes(logs) ::
               HandlerPageRight(logs, wanted, offset, limit))
            <==> HandlerSafeInOrder(na, nb, nc, wanted, offset, limit)
  {
    if HandlerSafeInOrder(na, nb, nc, wanted, offset, limit) {
      forall logs | LogsListed(logs, na, nb, nc) && IdsFollowTimes(logs)
        ensures HandlerPageRight(logs, wanted, offset, limit)
      {
        NumberedInOrder(logs, na, nb, nc);
        SoundPageIsRight(logs, wanted, offset, limit);
      }
    } else {
      var a, b, c := Matching("connection", wanted, na), Matching("remote_request", wanted, nb),
                     Matching("module_event", wanted, nc);
      PageNecessaryInOrder(a, b, c, offset, limit);
      var s :| Sized(s, a, b, c) && !PageIsRight(s, offset, limit);
      LogsWithSources(s, wanted, na, nb, nc);
      LogsWithAreListed(s, wanted, na, nb, nc);
      LogsWithInOrder(s, wanted, na, nb, nc);
      WrongHandlerPage(LogsWith(s, wanted, na, nb, nc), wanted, offset, limit);
    }
  }

  /** Any two requests numbered against their times: even the first page, of one row, shows the wrong
      one. */
  lemma FirstPageCanBeWrong(first: RemoteRequestLog, second: RemoteRequestLog)
    requires first.id > second.id && first.createdAt < second.createdAt
    ensures LogsListed(Logs([], [first, second], []), 0, 2, 0)
    ensures !HandlerPageRight(Logs([], [first, second], []), "", 0, 1)
  {
    TwoRequestsListed(first, second);
    TwoRequests(first, second);
    WrongFirst(Logs([], [first, second], []), [FromRequest(first)], [second.createdAt, first.createdAt]);
  }

  lemma TwoRequestsListed(first: RemoteRequestLog, second: RemoteRequestLog)
    requires first.id > second.id
    ensures LogsListed(Logs([], [first, second], []), 0, 2, 0)
  {
  }

  lemma WrongFirst(logs: Logs, sorted: seq<Activity>, full: seq<int>)
    requires NewestFirst(sorted) && multiset(sorted) == multiset(Gathered(logs, "", 1))
    requires Merges(SourcesOf(logs, ""), full)
    requires |sorted| == 1 && full != [] && sorted[0].createdAt != full[0]
    ensures !HandlerPageRight(logs, "", 0, 1)
  {
    assert Times(Slice(sorted, 0, 1))[0] == sorted[0].createdAt;
    assert Slice(full, 0, 1)[0] == full[0];
  }

  lemma TwoRequests(first: RemoteRequestLog, second: RemoteRequestLog)
    requires first.createdAt < second.createdAt
    ensures var logs := Logs([], [first, second], []);
            && Gathered(logs, "", 1) == [FromRequest(first)]
            && Merges(SourcesOf(logs, ""), [second.createdAt, first.createdAt])
  {
    var logs := Logs([], [first, second], []);
    assert Fetched(logs.requests, 1) == [first];
    assert RequestEvents([first]) == [FromRequest(first)];
    var x, y := first.createdAt, second.createdAt;
    assert Everything(SourcesOf(logs, "")) == [x, y];
    assert [x, y] == [x] + [y] && [y, x] == [y] + [x];
  }

  lemma NumberedInOrder(logs: Logs, na: nat, nb: nat, nc: nat)
    requires LogsListed(logs, na, nb, nc) && IdsFollowTimes(logs)
    ensures AllDescending(SourcesOf(logs, ""))
  {
    var s := SourcesOf(logs, "");
    forall i, j | 0 <= i <= j < nb ensures s.b[i] >= s.b[j] {
      assert logs.requests[i] in logs.requests && logs.requests[j] in logs.requests;
    }
    forall i, j | 0 <= i <= j < nc ensures s.c[i] >= s.c[j] {
      assert logs.modules[i] in logs.modules && logs.modules[j] in logs.modules;
    }
  }

  lemma SoundPageIsRight(logs: Logs, wanted: string, offset: nat, limit: nat)
    requires limit >= 1 && Sound(SourcesOf(logs, wanted), offset, limit)
    ensures HandlerPageRight(logs, wanted, offset, limit)
  {
    forall sorted, full |
      && NewestFirst(sorted) && multiset(sorted) == multiset(Gathered(logs, wanted, limit))
      && Merges(SourcesOf(logs, wanted), full)
      ensures Times(Slice(sorted, offset, limit)) == Slice(full, offset, limit)
    {
      HandlerPageIsRight(logs, wanted, offset, limit, sorted, full);
    }
  }

  /** Rows with the given times; the logs that do not match are countdowns. */
  function LogsWith(s: Sources, wanted: string, na: nat, nb: nat, nc: nat): Logs {
    Logs(ConnectionsAt(if Selected("connection", wanted) then s.a else Down(na, na)),
         RequestsAt(if Selected("remote_request", wanted) then s.b else Down(nb, nb)),
         ModulesAt(if Selected("module_event", wanted) then s.c else Down(nc, nc)))
  }

  function ConnectionsAt(times: seq<int>): seq<ConnectionLog> {
    seq(|times|, i requires 0 <= i < |times| => ConnectionLog(i, "client", "world", times[i]))
  }

  function RequestsAt(times: seq<int>): seq<RemoteRequestLog> {
    seq(|times|, i requires 0 <= i < |times| => RemoteRequestLog(|times| - i, "source", "target", "action", times[i]))
  }

  function ModulesAt(times: seq<int>): seq<ModuleEventLog> {
    seq(|times|, i requires 0 <= i < |times| => ModuleEventLog(|times| - i, "client", "event", times[i]))
  }

  lemma RowsAt(times: seq<int>)
    ensures Times(ConnectionEvents(ConnectionsAt(times))) == times
    ensures Times(RequestEvents(RequestsAt(times))) == times
    ensures Times(ModuleEvents(ModulesAt(times))) == times
  {
  }

  lemma LogsWithSources(s: Sources, wanted: string, na: nat, nb: nat, nc: nat)
    requires |s.a| == Matching("connection", wanted, na) && |s.b| == Matching("remote_request", wanted, nb)
    requires |s.c| == Matching("module_event", wanted, nc)
    ensures SourcesOf(LogsWith(s, wanted, na, nb, nc), wanted) == s
    ensures SourcesOf(LogsWith(s, wanted, na, nb, nc), "") ==
            Sources(if Selected("connection", wanted) then s.a else Down(na, na),
                    if Selected("remote_request", wanted) then s.b else Down(nb, nb),
                    if Selected("module_event", wanted) then s.c else Down(nc, nc))
  {
    RowsAt(if Selected("connection", wanted) then s.a else Down(na, na));
    RowsAt(if Selected("remote_request", wanted) then s.b else Down(nb, nb));
    RowsAt(if Selected("module_event", wanted) then s.c else Down(nc, nc));
  }

  lemma LogsWithAreListed(s: Sources, wanted: string, na: nat, nb: nat, nc: nat)
    requires Listed(s, Matching("connection", wanted, na), Matching("remote_request", wanted, nb),
                    Matching("module_event", wanted, nc))
    ensures LogsListed(LogsWith(s, wanted, na, nb, nc), na, nb, nc)
  {
    LogsWithSources(s, wanted, na, nb, nc);
  }

  lemma LogsWithInOrder(s: Sources, wanted: string, na: nat, nb: nat, nc: nat)
    requires Sized(s, Matching("connection", wanted, na), Matching("remote_request", wanted, nb),
                   Matching("module_event", wanted, nc))
    ensures IdsFollowTimes(LogsWith(s, wanted, na, nb, nc))
  {
    RowsInOrder(if Selected("remote_request", wanted) then s.b else Down(nb, nb));
    RowsInOrder(if Selected("module_event", wanted) then s.c else Down(nc, nc));
  }

  lemma RowsInOrder(times: seq<int>)
    requires Descending(times)
    ensures forall r, q | r in RequestsAt(times) && q in RequestsAt(times) && r.id > q.id :: r.createdAt >= q.createdAt
    ensures forall e, f | e in ModulesAt(times) && f in ModulesAt(times) && e.id > f.id :: e.createdAt >= f.createdAt
  {
  }

  /** Newest-first lists of the same times are equal. */
  lemma SortedIsUnique(a: seq<int>, b: seq<int>)
    requires Descending(a) && Descending(b) && multiset(a) == multiset(b)
    ensures a == b
  {
    assert |a| == |multiset(a)| == |multiset(b)| == |b|;
    forall j | 0 <= j < |a| ensures a[j] == b[j] {
      AtLeastPermutes(a, b, a[j]);
      AtLeastPermutes(a, b, b[j]);
      RankIsCount(a, j, a[j]);
      RankIsCount(b, j, a[j]);
      RankIsCount(a, j, b[j]);
      RankIsCount(b, j, b[j]);
    }
  }

  /** Any events can be sorted newest first. */
  lemma {:induction false} SomeSorting(all: seq<Activity>) returns (sorted: seq<Activity>)
    ensures NewestFirst(sorted) && multiset(sorted) == multiset(all)
  {
    if all == [] {
      sorted := [];
    } else {
      var n := |all| - 1;
      sorted := SomeSorting(all[..n]);
      sorted := SomeInsertion(sorted, all[n]);
      assert all == all[..n] + [all[n]];
    }
  }

  lemma {:induction false} SomeInsertion(sorted: seq<Activity>, event: Activity) returns (longer: seq<Activity>)
    requires NewestFirst(sorted)
    ensures NewestFirst(longer)
    ensures multiset(longer) == multiset(sorted) + multiset{event}
  {
    if sorted == [] || sorted[|sorted| - 1].createdAt >= event.createdAt {
      longer := sorted + [event];
    } else {
      var n := |sorted| - 1;
      var front := SomeInsertion(sorted[..n], event);
      assert sorted == sorted[..n] + [sorted[n]];
      forall v | v in front ensures v.createdAt >= sorted[n].createdAt {
        assert v in multiset(front);
      }
      longer := front + [sorted[n]];
    }
  }

  /** A page that is wrong for the times is wrong for some order of the handler's own events. */
  lemma WrongHandlerPage(logs: Logs, wanted: string, offset: nat, limit: nat)
    requires limit >= 1
    ensures HandlerPageRight(logs, wanted, offset, limit) ==> PageIsRight(SourcesOf(logs, wanted), offset, limit)
  {
    var s := SourcesOf(logs, wanted);
    var sorted := SomeSorting(Gathered(logs, wanted, limit));
    TimesPermute(sorted, Gathered(logs, wanted, limit));
    TimesOfGathered(logs, wanted, limit);
    TimesOfSlice(sorted, offset, limit);
    forall cut, full | Merges(Cut(s, limit, limit, limit), cut) && Merges(s, full)
                       && HandlerPageRight(logs, wanted, offset, limit)
      ensures Slice(cut, offset, limit) == Slice(full, offset, limit)
    {
      SortedIsUnique(Times(sorted), cut);
    }
  }
}

/** Batched request counts: requests add to a map in memory, and flushes swap the map out and write
    it to the store, one user at a time, while new requests keep arriving. */
module RequestCounter {

  datatype User = User(id: int)

  type Counts = map<User, nat>

  function Get(counts: Counts, user: User): nat {
    if user in counts then counts[user] else 0
  }

  function Plus(counts: Counts, user: User, n: nat): Counts {
    counts[user := Get(counts, user) + n]
  }

  /** The users table's request column. */
  class Store {
    var requests: Counts

    constructor ()
      ensures requests == map[]
    {
      requests := map[];
    }

    method IncrementRequestsBy(user: User, count: nat, fails: bool) returns (ok: bool)
      modifies this
      ensures ok == !fails
      ensures requests == if fails then old(requests) else Plus(old(requests), user, count)
    {
      ok := !fails;
      if ok {
        requests := Plus(requests, user, count);
      }
    }
  }

  class Counter {
    var pending: Counts

    constructor ()
      ensures pending == map[]
    {
      pending := map[];
    }

    method Add(user: User)
      modifies this
      ensures pending == Plus(old(pending), user, 1)
    {
      pending := pending[user := Get(pending, user) + 1];
    }

    /** `failing` are the users whose write reports an error. */
    method Flush(store: Store, failing: set<User>)
      modifies this, store
      ensures pending == map[]
      ensures forall user ::
                Get(store.requests, user)
                == Get(old(store.requests), user) + if user in failing then 0 else Get(old(pending), user)
    {
      if pending == map[] {
        return;
      }
      var snapshot := pending;
      pending := map[];
      var todo := snapshot.Keys;
      while todo != {}
        invariant todo <= snapshot.Keys
        invariant pending == map[]
        invariant forall user ::
                    Get(store.requests, user)
                    == Get(old(store.requests), user)
                       + if user in todo || user in failing then 0 else Get(snapshot, user)
        decreases |todo|
      {
        var user :| user in todo;
        var ok := store.IncrementRequestsBy(user, snapshot[user], user in failing);
        todo := todo - {user};
      }
    }
  }

  // ---- Interleavings ----

  /** Every request ever added, what is pending, the snapshots of the flushes under way, and what
      has been written or lost to reported errors. */
  datatype State = State(added: Counts, pending: Counts, flights: seq<Counts>, written: Counts, lost: Counts)

  const START := State(map[], map[], [], map[], map[])

  datatype Step =
    | AddStep(user: User)
    | SwapStep
    | WriteStep(flight: nat, user: User, ok: bool)

  function Next(s: State, step: Step): State {
    match step
    case AddStep(user) => s.(added := Plus(s.added, user, 1), pending := Plus(s.pending, user, 1))
    case SwapStep => if s.pending == map[] then s else s.(flights := s.flights + [s.pending], pending := map[])
    case WriteStep(f, user, ok) =>
      if f < |s.flights| && user in s.flights[f] then
        var n := s.flights[f][user];
        var s' := s.(flights := s.flights[f := s.flights[f] - {user}]);
        if ok then s'.(written := Plus(s.written, user, n)) else s'.(lost := Plus(s.lost, user, n))
      else s
  }

  function Run(s: State, steps: seq<Step>): State
    decreases |steps|
  {
    if steps == [] then s else Run(Next(s, steps[0]), steps[1..])
  }

  /** What the flushes under way have still to write for a user. */
  function InFlight(flights: seq<Counts>, user: User): nat {
    if flights == [] then 0 else InFlight(flights[..|flights| - 1], user) + Get(flights[|flights| - 1], user)
  }

  predicate Conserved(s: State, user: User) {
    Get(s.added, user)
    == Get(s.pending, user) + InFlight(s.flights, user) + Get(s.written, user) + Get(s.lost, user)
  }

  lemma {:induction false} WriteLeavesFlight(flights: seq<Counts>, f: nat, done: User, user: User)
    requires f < |flights| && done in flights[f]
    ensures InFlight(flights, user)
            == InFlight(flights[f := flights[f] - {done}], user) + if user == done then flights[f][done] else 0
  {
    var n := |flights| - 1;
    var after := flights[f := flights[f] - {done}];
    if f == n {
      assert after[..n] == flights[..n];
    } else {
      WriteLeavesFlight(flights[..n], f, done, user);
      assert after[..n] == flights[..n][f := flights[f] - {done}];
    }
  }

  lemma NextConserves(s: State, step: Step, user: User)
    requires Conserved(s, user)
    ensures Conserved(Next(s, step), user)
  {
    match step
    case AddStep(_) =>
    case SwapStep =>
      assert (s.flights + [s.pending])[..|s.flights|] == s.flights;
    case WriteStep(f, done, _) =>
      if f < |s.flights| && done in s.flights[f] {
        WriteLeavesFlight(s.flights, f, done, user);
      }
  }

  /** In every interleaving of adds with any number of concurrent flushes, no request is lost or
      counted twice: each is pending, in flight, written, or lost to an error that was reported. */
  lemma {:induction false} RequestsAreConserved(s: State, steps: seq<Step>, user: User)
    requires Conserved(s, user)
    ensures Conserved(Run(s, steps), user)
    decreases |steps|
  {
    if steps != [] {
      NextConserves(s, steps[0], user);
      RequestsAreConserved(Next(s, steps[0]), steps[1..], user);
    }
  }

  lemma {:induction false} EmptyFlights(flights: seq<Counts>, user: User)
    requires forall f | 0 <= f < |flights| :: flights[f] == map[]
    ensures InFlight(flights, user) == 0
  {
    if flights != [] {
      EmptyFlights(flights[..|flights| - 1], user);
    }
  }

  /** Once everything is flushed and no write failed, the store holds every request ever added. */
  lemma QuietStoreIsExact(steps: seq<Step>, user: User)
    requires forall i | 0 <= i < |steps| :: steps[i].WriteStep? ==> steps[i].ok
    requires var s := Run(START, steps); s.pending == map[] && forall f | 0 <= f < |s.flights| :: s.flights[f] == map[]
    ensures Get(Run(START, steps).written, user) == Get(Run(START, steps).added, user)
  {
    RequestsAreConserved(START, steps, user);
    EmptyFlights(Run(START, steps).flights, user);
    NothingLost(START, steps);
  }

  lemma {:induction false} NothingLost(s: State, steps: seq<Step>)
    requires forall i | 0 <= i < |steps| :: steps[i].WriteStep? ==> steps[i].ok
    ensures Run(s, steps).lost == s.lost
    decreases |steps|
  {
    if steps != [] {
      assert forall i | 0 <= i < |steps[1..]| :: steps[1..][i] == steps[i + 1];
      NothingLost(Next(s, steps[0]), steps[1..]);
    }
  }
}

/** The spike tracker behind the admin alerts: a counter per key over tumbling windows, with a
    cooldown, and the bounded buffer of recent events. */
module AlertTracker {
  /** Times count from Go's zero time, so an entry's zero value is `Entry(0, 0, 0)`. */
  datatype Entry = Entry(count: nat, windowEnd: int, lastFired: int)

  datatype Config = Config(threshold: nat, window: nat, cooldown: nat)

  const FRESH := Entry(0, 0, 0)

  /** One Track call at time `now`: the new entry, and whether it fired. */
  function TrackOne(e: Entry, now: int, cfg: Config): (Entry, bool) {
    var counted :=
      if now > e.windowEnd then e.(count := 1, windowEnd := now + cfg.window) else e.(count := e.count + 1);
    if counted.count >= cfg.threshold && now > e.lastFired + cfg.cooldown
    then (counted.(lastFired := now), true)
    else (counted, false)
  }

  /** A Track call as the callers make it. */
  datatype Call = Call(key: string, now: int, cfg: Config)

  type Entries = map<string, Entry>

  function Lookup(entries: Entries, key: string): Entry {
    if key in entries then entries[key] else FRESH
  }

  function TrackCall(entries: Entries, call: Call): (Entries, bool) {
    var (e, fired) := TrackOne(Lookup(entries, call.key), call.now, call.cfg);
    (entries[call.key := e], fired)
  }

  const MAX_RECENT := 200

  class Tracker {
    var entries: Entries
    var recent: seq<string>

    constructor ()
      ensures entries == map[] && recent == []
    {
      entries, recent := map[], [];
    }

    method Track(key: string, threshold: nat, window: nat, cooldown: nat, now: int) returns (fired: bool)
      modifies this`entries
      ensures (entries, fired) == TrackCall(old(entries), Call(key, now, Config(threshold, window, cooldown)))
    {
      if key !in entries {
        entries := entries[key := FRESH];
      }
      var e := entries[key];
      if now > e.windowEnd {
        e := e.(count := 0);
        e := e.(windowEnd := now + window);
      }
      e := e.(count := e.count + 1);
      fired := e.count >= threshold && now > e.lastFired + cooldown;
      if fired {
        e := e.(lastFired := now);
      }
      entries := entries[key := e];
      assert entries == old(entries)[key := e];
    }

    /** The bookkeeping half of Fire: append, then trim to the newest MAX_RECENT. */
    method Remember(event: string)
      modifies this`recent
      ensures recent == Recent(old(recent), event)
    {
      recent := recent + [event];
      if |recent| > MAX_RECENT {
        recent := recent[|recent| - MAX_RECENT..];
      }
    }
  }

  function Recent(recent: seq<string>, event: string): seq<string> {
    var all := recent + [event];
    if |all| > MAX_RECENT then all[|all| - MAX_RECENT..] else all
  }

  function RecentAfter(events: seq<string>): seq<string> {
    if events == [] then [] else Recent(RecentAfter(events[..|events| - 1]), events[|events| - 1])
  }

  /** However many alerts fired, the buffer holds the newest ones, up to its size, in order. */
  lemma {:induction false} RecentIsTheNewest(events: seq<string>)
    ensures RecentAfter(events) == if |events| <= MAX_RECENT then events else events[|events| - MAX_RECENT..]
  {
    if events != [] {
      var n := |events| - 1;
      RecentIsTheNewest(events[..n]);
      assert events == events[..n] + [events[n]];
    }
  }

  // ---- Keys do not disturb each other ----

  function EntriesAfter(calls: seq<Call>): Entries {
    if calls == [] then map[] else TrackCall(EntriesAfter(calls[..|calls| - 1]), calls[|calls| - 1]).0
  }

  /** The times of the calls for one key. */
  function TimesOf(calls: seq<Call>, key: string): seq<int> {
    if calls == [] then []
    else
      var rest := TimesOf(calls[..|calls| - 1], key);
      if calls[|calls| - 1].key == key then rest + [calls[|calls| - 1].now] else rest
  }

  /** The entry of one key after its calls. */
  function After(times: seq<int>, cfg: Config): Entry {
    if times == [] then FRESH else TrackOne(After(times[..|times| - 1], cfg), times[|times| - 1], cfg).0
  }

  /** Whether call `k` for a key fired. */
  predicate Fired(times: seq<int>, k: nat, cfg: Config)
    requires k < |times|
  {
    TrackOne(After(times[..k], cfg), times[k], cfg).1
  }

  /** Interleaved calls for other keys change nothing: a key's entry, and the answer of its next
      call, are those of its own calls alone. */
  lemma {:induction false} KeysAreIndependent(calls: seq<Call>, key: string, cfg: Config)
    requires forall i | 0 <= i < |calls| && calls[i].key == key :: calls[i].cfg == cfg
    ensures Lookup(EntriesAfter(calls), key) == After(TimesOf(calls, key), cfg)
    ensures calls != [] && calls[|calls| - 1].key == key ==>
              var times := TimesOf(calls, key);
              && times != []
              && TrackCall(EntriesAfter(calls[..|calls| - 1]), calls[|calls| - 1]).1 == Fired(times, |times| - 1, cfg)
  {
    if calls != [] {
      var n := |calls| - 1;
      KeysAreIndependent(calls[..n], key, cfg);
      var times := TimesOf(calls, key);
      if calls[n].key == key {
        assert times[..|times| - 1] == TimesOf(calls[..n], key);
      }
    }
  }

  // ---- What an entry knows about its calls ----

  /** A clock that never runs backwards, read long enough after the zero time. */
  ghost predicate Clock(times: seq<int>, cfg: Config) {
    && (forall i, j | 0 <= i <= j < |times| :: times[i] <= times[j])
    && (forall i | 0 <= i < |times| :: times[i] > cfg.cooldown)
  }

  lemma ClockPrefix(times: seq<int>, n: nat, cfg: Config)
    requires Clock(times, cfg) && n <= |times|
    ensures Clock(times[..n], cfg)
  {
  }

  /** The counted calls are the last `count` ones, and the window opened at the first of them. */
  lemma {:induction false} WindowShape(times: seq<int>, cfg: Config)
    requires Clock(times, cfg) && times != []
    ensures var e := After(times, cfg);
            var opener := |times| - e.count;
            && 1 <= e.count <= |times|
            && e.windowEnd == times[opener] + cfg.window
            && times[|times| - 1] <= e.windowEnd
  {
    var n := |times| - 1;
    var before := times[..n];
    assert times[n] > 0;
    if n > 0 {
      ClockPrefix(times, n, cfg);
      WindowShape(before, cfg);
    }
  }

  /** While the clock stays inside the window opened by call `p`, every call is counted in it. */
  lemma {:induction false} CountsWithin(times: seq<int>, p: nat, k: nat, cfg: Config)
    requires Clock(times, cfg) && p <= k < |times|
    requires After(times[..p + 1], cfg).count == 1
    requires times[k] <= times[p] + cfg.window
    ensures After(times[..k + 1], cfg).count == k + 1 - p
    ensures After(times[..k + 1], cfg).windowEnd == times[p] + cfg.window
    decreases k
  {
    if k == p {
      OpenerAt(times, p, cfg);
    } else {
      CountsWithin(times, p, k - 1, cfg);
      CountsOn(times, k, cfg);
    }
  }

  /** After any call, something is counted; and a count of one means that call opened the window. */
  lemma OpenerAt(times: seq<int>, p: nat, cfg: Config)
    requires Clock(times, cfg) && p < |times|
    ensures After(times[..p + 1], cfg).count >= 1
    ensures After(times[..p + 1], cfg).count == 1 ==> After(times[..p + 1], cfg).windowEnd == times[p] + cfg.window
  {
    ClockPrefix(times, p + 1, cfg);
    WindowShape(times[..p + 1], cfg);
  }

  lemma CountsOn(times: seq<int>, k: nat, cfg: Config)
    requires k < |times| && times[k] <= After(times[..k], cfg).windowEnd
    ensures After(times[..k + 1], cfg).count == After(times[..k], cfg).count + 1
    ensures After(times[..k + 1], cfg).windowEnd == After(times[..k], cfg).windowEnd
  {
    assert times[..k + 1][..k] == times[..k];
  }

  /** The last firing an entry remembers: none yet, or an earlier call that did fire. */
  lemma {:induction false} LastFiredIsReal(times: seq<int>, cfg: Config)
    ensures var last := After(times, cfg).lastFired;
            last == 0 || exists p :: 0 <= p < |times| && Fired(times, p, cfg) && times[p] == last
  {
    if times != [] {
      var n := |times| - 1;
      var before := times[..n];
      LastFiredIsReal(before, cfg);
      if Fired(times, n, cfg) {
      } else if After(before, cfg).lastFired != 0 {
        var p :| 0 <= p < |before| && Fired(before, p, cfg) && before[p] == After(before, cfg).lastFired;
        assert before[..p] == times[..p];
        assert Fired(times, p, cfg);
      }
    }
  }

  // ---- Soundness ----

  /** A firing is real: at least `threshold` calls lie in the window's length before it. */
  lemma FiringIsABurst(times: seq<int>, k: nat, cfg: Config)
    requires Clock(times, cfg) && k < |times| && Fired(times, k, cfg)
    ensures cfg.threshold <= k + 1
    ensures forall i | k + 1 - cfg.threshold <= i <= k :: 0 <= i ==> times[k] - cfg.window <= times[i] <= times[k]
  {
    ClockPrefix(times, k + 1, cfg);
    WindowShape(times[..k + 1], cfg);
    assert times[..k + 1][..k] == times[..k];
  }

  /** After a firing, the memory of it lasts until the next one. */
  lemma {:induction false} LastFiredIsLatest(times: seq<int>, p: nat, k: nat, cfg: Config)
    requires Clock(times, cfg) && p < k <= |times| && Fired(times, p, cfg)
    ensures After(times[..k], cfg).lastFired >= times[p]
    decreases k
  {
    assert times[..k][..k - 1] == times[..k - 1];
    if k > p + 1 {
      LastFiredIsLatest(times, p, k - 1, cfg);
    }
  }

  /** Two firings are more than the cooldown apart. */
  lemma FiringsAreApart(times: seq<int>, p: nat, k: nat, cfg: Config)
    requires Clock(times, cfg) && p < k < |times|
    requires Fired(times, p, cfg) && Fired(times, k, cfg)
    ensures times[k] - times[p] > cfg.cooldown
  {
    LastFiredIsLatest(times, p, k, cfg);
  }

  lemma OneMore(n: nat, c: nat)
    ensures (n - 1) * c + c == n * c
  {
  }

  /** So n firings span more than (n-1) cooldowns (and at least n-1 clock ticks more). */
  lemma {:induction false} FiringRate(times: seq<int>, firings: seq<nat>, cfg: Config)
    requires Clock(times, cfg) && firings != []
    requires forall i | 0 <= i < |firings| :: firings[i] < |times| && Fired(times, firings[i], cfg)
    requires forall i, j | 0 <= i < j < |firings| :: firings[i] < firings[j]
    ensures times[firings[|firings| - 1]] - times[firings[0]] >= (|firings| - 1) * (cfg.cooldown + 1)
  {
    var n := |firings| - 1;
    if n > 0 {
      FiringRate(times, firings[..n], cfg);
      var last, previous := firings[n], firings[n - 1];
      FiringsAreApart(times, previous, last, cfg);
      OneMore(n, cfg.cooldown + 1);
    }
  }

  // ---- Detection ----

  /** Call `k` fired, or came within the cooldown of an earlier firing. */
  ghost predicate Noticed(times: seq<int>, k: nat, cfg: Config)
    requires k < |times|
  {
    Fired(times, k, cfg)
    || exists p :: 0 <= p < k && Fired(times, p, cfg) && times[k] <= times[p] + cfg.cooldown
  }

  /** A call that reaches the threshold is noticed. */
  lemma ThresholdIsNoticed(times: seq<int>, k: nat, cfg: Config)
    requires Clock(times, cfg) && k < |times|
    requires After(times[..k + 1], cfg).count >= cfg.threshold
    ensures Noticed(times, k, cfg)
  {
    assert times[..k + 1][..k] == times[..k];
    if !Fired(times, k, cfg) {
      LastFiredIsReal(times[..k], cfg);
      var p :| 0 <= p < k && Fired(times[..k], p, cfg) && times[..k][p] == After(times[..k], cfg).lastFired;
      assert times[..k][..p] == times[..p];
      assert Fired(times, p, cfg);
    }
  }

  /** How many calls in one closed interval of the window's length are sure to be noticed: the
      windows tumble, so an interval can straddle two of them, and a call before the interval may
      have used up part of the first. */
  function Enough(threshold: nat): nat {
    if threshold <= 1 then threshold else 2 * threshold - 2
  }

  /** Calls lo..hi-1 fall in a closed interval of the window's length. */
  ghost predicate Close(times: seq<int>, lo: nat, hi: nat, cfg: Config) {
    lo < hi <= |times| && times[hi - 1] - times[lo] <= cfg.window
  }

  /** The count right after call `k`. */
  function CountAt(times: seq<int>, k: nat, cfg: Config): nat
    requires k < |times|
  {
    After(times[..k + 1], cfg).count
  }

  /** A window opened inside the interval takes in the rest of it. */
  lemma OpenedInside(times: seq<int>, lo: nat, hi: nat, m: nat, cfg: Config)
    requires Clock(times, cfg) && Close(times, lo, hi, cfg) && lo <= m < hi
    requires CountAt(times, m, cfg) == 1
    requires hi - m >= cfg.threshold
    ensures Noticed(times, hi - 1, cfg)
  {
    CountsWithin(times, m, hi - 1, cfg);
    ThresholdIsNoticed(times, hi - 1, cfg);
  }

  /** With no window opened after call lo, the count keeps growing. */
  lemma {:induction false} NoneOpened(times: seq<int>, lo: nat, k: nat, cfg: Config)
    requires Clock(times, cfg) && lo <= k < |times|
    requires forall m | lo < m <= k :: CountAt(times, m, cfg) != 1
    ensures CountAt(times, k, cfg) == CountAt(times, lo, cfg) + (k - lo)
    decreases k
  {
    if k > lo {
      NoneOpened(times, lo, k - 1, cfg);
      assert CountAt(times, k, cfg) != 1;
      assert times[..k + 1][..k] == times[..k];
    }
  }

  /** Burst detection: any closed interval of the window's length that holds Enough(threshold) calls
      for a key holds one that fired or came within the cooldown of an earlier firing. */
  lemma BurstIsNoticed(times: seq<int>, lo: nat, hi: nat, cfg: Config)
    requires cfg.threshold >= 1
    requires Clock(times, cfg) && Close(times, lo, hi, cfg)
    requires hi - lo >= Enough(cfg.threshold)
    ensures exists k :: lo <= k < hi && Noticed(times, k, cfg)
  {
    OpenerAt(times, lo, cfg);
    if CountAt(times, lo, cfg) == 1 {
      OpenedInside(times, lo, hi, lo, cfg);
    } else if m :| lo < m < hi && CountAt(times, m, cfg) == 1 {
      Straddling(times, lo, m, hi, cfg);
    } else {
      NeverOpened(times, lo, hi, cfg);
    }
  }

  lemma NeverOpened(times: seq<int>, lo: nat, hi: nat, cfg: Config)
    requires Clock(times, cfg) && lo < hi <= |times| && hi - lo >= Enough(cfg.threshold)
    requires CountAt(times, lo, cfg) >= 2
    requires forall m | lo < m <= hi - 1 :: CountAt(times, m, cfg) != 1
    ensures Noticed(times, hi - 1, cfg)
  {
    NoneOpened(times, lo, hi - 1, cfg);
    ThresholdIsNoticed(times, hi - 1, cfg);
  }

  /** The straddling case: the interval's calls split at the first window opened inside it. */
  lemma {:induction false} Straddling(times: seq<int>, lo: nat, m: nat, hi: nat, cfg: Config)
    requires cfg.threshold >= 1
    requires Clock(times, cfg) && Close(times, lo, hi, cfg)
    requires hi - lo >= Enough(cfg.threshold)
    requires lo < m < hi && CountAt(times, m, cfg) == 1
    requires CountAt(times, lo, cfg) >= 2
    ensures exists k :: lo <= k < hi && Noticed(times, k, cfg)
    decreases m
  {
    if earlier :| lo < earlier < m && CountAt(times, earlier, cfg) == 1 {
      Straddling(times, lo, earlier, hi, cfg);
    } else {
      NoneOpened(times, lo, m - 1, cfg);
      if hi - m >= cfg.threshold {
        OpenedInside(times, lo, hi, m, cfg);
      } else {
        ThresholdIsNoticed(times, m - 1, cfg);
      }
    }
  }

  // ---- The bound is the least one ----

  /** One call, then threshold-2 calls just before its window closes, then threshold-1 just after. */
  function QuietTimes(cfg: Config): (times: seq<int>)
    requires cfg.threshold >= 3
    ensures |times| == 2 * cfg.threshold - 2
  {
    seq(2 * cfg.threshold - 2, k =>
      if k == 0 then cfg.cooldown + 1
      else if k < cfg.threshold - 1 then cfg.cooldown + 1 + cfg.window
      else cfg.cooldown + 2 + cfg.window)
  }

  lemma {:induction false} QuietEntry(cfg: Config, k: nat)
    requires cfg.threshold >= 3 && k < 2 * cfg.threshold - 2
    ensures var e := After(QuietTimes(cfg)[..k + 1], cfg);
            && e.lastFired == 0
            && (if k < cfg.threshold - 1
                then e.count == k + 1 && e.windowEnd == cfg.cooldown + 1 + cfg.window
                else e.count == k + 2 - cfg.threshold && e.windowEnd == cfg.cooldown + 2 + 2 * cfg.window)
    ensures !Fired(QuietTimes(cfg), k, cfg)
  {
    var times := QuietTimes(cfg);
    assert times[..k + 1][..k] == times[..k];
    if k > 0 {
      QuietEntry(cfg, k - 1);
    } else {
      assert times[..0] == [];
    }
  }

  /** For every threshold from 3 on, one call fewer than Enough can pass without a single firing,
      ever: the doc comment's sliding window is really a tumbling one. */
  lemma BoundIsTight(cfg: Config)
    requires cfg.threshold >= 3 && cfg.window >= 1
    ensures var times := QuietTimes(cfg);
            && Clock(times, cfg)
            && Close(times, 1, |times|, cfg)
            && |times| - 1 == Enough(cfg.threshold) - 1
            && (forall k | 0 <= k < |times| :: !Noticed(times, k, cfg))
  {
    var times := QuietTimes(cfg);
    forall k | 0 <= k < |times| ensures !Fired(times, k, cfg) {
      QuietEntry(cfg, k);
    }
  }
}

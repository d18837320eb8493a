/** The SSE stream of a test run: what a client that attaches, reads and reconnects with
    Last-Event-ID gets to see (WHATWG HTML Living Standard, section 9.2), in every interleaving with
    the run's appends and its end. */
module EventStream {
  import opened Wrappers
  import opened TestRun

  /** One `id:`/`data:` frame written to a client. */
  datatype Frame = Frame(id: nat, event: Event)

  /** One stream request: its channel, the log length at its snapshot, where it started sending, the
      events pulled so far, the frames written, and for the record the log index of every event
      ever put in its channel, how many were dropped, and the log length when the channel closed. */
  datatype Session = Session(
    chan: nat, base: nat, start: nat, pulled: seq<Event>, frames: seq<Frame>,
    indices: seq<nat>, drops: nat, end: Option<nat>)

  datatype System = System(run: Run, sessions: seq<Session>)

  const START := System(FRESH_RUN, [])

  datatype Step =
    | AppendStep(ev: Event)
    | FinalizeStep(status: string)
    | SubscribeStep
    | AttachStep(lastEventId: Option<int>)
    | PullStep(session: nat)

  /** The first index to send: one past a non-negative Last-Event-ID. */
  function StartFrom(lastEventId: Option<int>): nat {
    if lastEventId.Some? && lastEventId.value >= 0 then lastEventId.value + 1 else 0
  }

  /** The frames of the snapshot, from `start` on. */
  function SnapshotFrames(events: seq<Event>, start: nat): (frames: seq<Frame>)
    ensures |frames| == if start <= |events| then |events| - start else 0
  {
    if start >= |events| then []
    else seq(|events| - start, i requires 0 <= i < |events| - start => Frame(start + i, events[start + i]))
  }

  /** The loop that writes them. */
  method WriteSnapshot(events: seq<Event>, start: nat) returns (frames: seq<Frame>)
    ensures frames == SnapshotFrames(events, start)
  {
    frames := [];
    var i := start;
    while i < |events|
      invariant start <= i
      invariant i <= |events| || i == start
      invariant |frames| == i - start
      invariant forall k | 0 <= k < |frames| :: frames[k] == Frame(start + k, events[start + k])
    {
      frames := frames + [Frame(i, events[i])];
      i := i + 1;
    }
  }

  /** What an append does to the record of a session: kept or dropped. */
  function Noted(s: Session, r: Run): Session {
    if s.chan in r.subs && s.chan < |r.chans| then
      if |r.chans[s.chan].buffer| < r.chans[s.chan].capacity then s.(indices := s.indices + [|r.events|])
      else s.(drops := s.drops + 1)
    else s
  }

  function Ended(s: Session, r: Run): Session {
    if s.end.None? then s.(end := Some(|r.events|)) else s
  }

  /** The session that attaching adds. */
  function Attached(r: Run, lastEventId: Option<int>): Session {
    var start := StartFrom(lastEventId);
    Session(|r.chans|, |r.events|, start, [], SnapshotFrames(r.events, start), [], 0,
            if r.status == RUNNING then None else Some(|r.events|))
  }

  function Next(s: System, step: Step): System {
    match step
    case AppendStep(ev) =>
      System(Append(s.run, ev),
             seq(|s.sessions|, i requires 0 <= i < |s.sessions| => Noted(s.sessions[i], s.run)))
    case FinalizeStep(status) =>
      if status == RUNNING then s
      else
        System(Finalize(s.run, status),
               seq(|s.sessions|, i requires 0 <= i < |s.sessions| => Ended(s.sessions[i], s.run)))
    case SubscribeStep => s.(run := NewChannel(s.run, SUBSCRIBE_CAPACITY))
    case AttachStep(lastEventId) =>
      System(NewChannel(s.run, STREAM_CAPACITY), s.sessions + [Attached(s.run, lastEventId)])
    case PullStep(n) =>
      if n < |s.sessions| && s.sessions[n].chan < |s.run.chans| && s.run.chans[s.sessions[n].chan].buffer != [] then
        var session := s.sessions[n];
        var ev := s.run.chans[session.chan].buffer[0];
        System(Take(s.run, session.chan),
               s.sessions[n := session.(pulled := session.pulled + [ev],
                                        frames := session.frames + [Frame(session.base + |session.pulled|, ev)])])
      else s
  }

  function Runs(s: System, steps: seq<Step>): System
    decreases |steps|
  {
    if steps == [] then s else Runs(Next(s, steps[0]), steps[1..])
  }

  // ---- What every step keeps ----

  /** Everything put in the session's channel so far: what it pulled, then what is still buffered. */
  function Passed(s: Session, r: Run): seq<Event>
    requires s.chan < |r.chans|
  {
    s.pulled + r.chans[s.chan].buffer
  }

  /** The log length up to which the session's channel has been offered events. */
  function Horizon(s: Session, r: Run): nat {
    if s.end.Some? then s.end.value else |r.events|
  }

  ghost predicate SessionOk(s: Session, r: Run) {
    && s.chan < |r.chans|
    && (s.end.None? <==> s.chan in r.subs)
    && (s.end.Some? <==> r.chans[s.chan].closed)
    && s.base <= Horizon(s, r) <= |r.events|
    // The record: which log entries went through the channel.
    && |s.indices| == |Passed(s, r)|
    && |s.indices| + s.drops == Horizon(s, r) - s.base
    && (forall k | 0 <= k < |s.indices| ::
          && s.base + k <= s.indices[k] < Horizon(s, r)
          && r.events[s.indices[k]] == Passed(s, r)[k])
    && (forall j, k | 0 <= j < k < |s.indices| :: s.indices[j] < s.indices[k])
    // The frames: the rest of the snapshot, then what was pulled under consecutive ids.
    && s.frames == SnapshotFrames(r.events[..s.base], s.start) + PulledFrames(s.base, s.pulled)
  }

  function PulledFrames(base: nat, pulled: seq<Event>): (frames: seq<Frame>)
    ensures |frames| == |pulled|
  {
    seq(|pulled|, k requires 0 <= k < |pulled| => Frame(base + k, pulled[k]))
  }

  ghost predicate SystemOk(s: System) {
    && SubsOk(s.run)
    && SessionsOk(s.sessions, s.run)
    && OwnChannels(s.sessions)
  }

  ghost predicate SessionsOk(sessions: seq<Session>, r: Run) {
    forall n | 0 <= n < |sessions| :: SessionOk(sessions[n], r) && (sessions[n].end.None? <==> r.status == RUNNING)
  }

  ghost predicate OwnChannels(sessions: seq<Session>) {
    forall m, n | 0 <= m < n < |sessions| :: sessions[m].chan != sessions[n].chan
  }

  lemma AppendKeepsSession(s: Session, r: Run, ev: Event)
    requires SubsOk(r) && SessionOk(s, r)
    ensures SessionOk(Noted(s, r), Append(r, ev))
  {
    OfferAllReaches(r.(events := r.events + [ev]), r.subs, ev);
    OfferKeepsSession(s, r, Append(r, ev), ev);
  }

  lemma OfferKeepsSession(s: Session, r: Run, r': Run, ev: Event)
    requires SessionOk(s, r)
    requires r'.events == r.events + [ev] && r'.subs == r.subs && |r'.chans| == |r.chans|
    requires var ch := r.chans[s.chan];
             r'.chans[s.chan]
             == if s.chan in r.subs && |ch.buffer| < ch.capacity then ch.(buffer := ch.buffer + [ev]) else ch
    ensures SessionOk(Noted(s, r), r')
  {
    var s' := Noted(s, r);
    assert r'.events[..s.base] == r.events[..s.base];
    assert Passed(s', r') == Passed(s, r) + if s'.indices != s.indices then [ev] else [];
  }

  lemma AppendKeepsOk(s: System, ev: Event)
    requires SystemOk(s)
    ensures SystemOk(Next(s, AppendStep(ev)))
  {
    OfferAllReaches(s.run.(events := s.run.events + [ev]), s.run.subs, ev);
    forall n | 0 <= n < |s.sessions| ensures SessionOk(Noted(s.sessions[n], s.run), Append(s.run, ev)) {
      AppendKeepsSession(s.sessions[n], s.run, ev);
    }
  }

  lemma FinalizeKeepsSession(s: Session, r: Run, status: string)
    requires SubsOk(r) && SessionOk(s, r) && status != RUNNING
    ensures SessionOk(Ended(s, r), Finalize(r, status))
  {
    CloseAllReaches(r.(status := status), r.subs);
    assert Passed(Ended(s, r), Finalize(r, status)) == Passed(s, r);
  }

  lemma FinalizeKeepsOk(s: System, status: string)
    requires SystemOk(s) && status != RUNNING
    ensures SystemOk(Next(s, FinalizeStep(status)))
  {
    CloseAllReaches(s.run.(status := status), s.run.subs);
    forall n | 0 <= n < |s.sessions| ensures SessionOk(Ended(s.sessions[n], s.run), Finalize(s.run, status)) {
      FinalizeKeepsSession(s.sessions[n], s.run, status);
    }
  }

  lemma NewChannelKeepsSession(s: Session, r: Run, capacity: nat)
    requires SubsOk(r) && SessionOk(s, r)
    ensures SessionOk(s, NewChannel(r, capacity))
  {
    assert Passed(s, NewChannel(r, capacity)) == Passed(s, r);
  }

  lemma AttachedOk(r: Run, lastEventId: Option<int>)
    requires SubsOk(r)
    ensures SessionOk(Attached(r, lastEventId), NewChannel(r, STREAM_CAPACITY))
  {
    var s := Attached(r, lastEventId);
    var r' := NewChannel(r, STREAM_CAPACITY);
    assert r'.events[..s.base] == r.events;
    assert Passed(s, r') == [];
    assert SnapshotFrames(r.events, s.start) + PulledFrames(s.base, []) == s.frames;
    assert s.chan !in r.subs;
  }

  lemma AttachKeepsOk(s: System, lastEventId: Option<int>)
    requires SystemOk(s)
    ensures SystemOk(Next(s, AttachStep(lastEventId)))
  {
    var session, run := Attached(s.run, lastEventId), NewChannel(s.run, STREAM_CAPACITY);
    AttachedOk(s.run, lastEventId);
    NewChannelKeepsSubs(s.run, STREAM_CAPACITY);
    NewChannelKeepsSessions(s, STREAM_CAPACITY);
    OneMoreSession(s.sessions, session, run);
    assert Next(s, AttachStep(lastEventId)) == System(run, s.sessions + [session]);
  }

  lemma OneMoreSession(sessions: seq<Session>, s: Session, r: Run)
    requires SessionsOk(sessions, r) && OwnChannels(sessions)
    requires SessionOk(s, r) && (s.end.None? <==> r.status == RUNNING)
    requires forall n | 0 <= n < |sessions| :: sessions[n].chan != s.chan
    ensures SessionsOk(sessions + [s], r) && OwnChannels(sessions + [s])
  {
  }

  lemma NewChannelKeepsSessions(s: System, capacity: nat)
    requires SystemOk(s)
    ensures SessionsOk(s.sessions, NewChannel(s.run, capacity))
    ensures forall n | 0 <= n < |s.sessions| :: s.sessions[n].chan < |s.run.chans|
  {
    forall n | 0 <= n < |s.sessions|
      ensures SessionOk(s.sessions[n], NewChannel(s.run, capacity)) && s.sessions[n].chan < |s.run.chans|
    {
      NewChannelKeepsSession(s.sessions[n], s.run, capacity);
    }
  }

  lemma NewChannelKeepsSubs(r: Run, capacity: nat)
    requires SubsOk(r)
    ensures SubsOk(NewChannel(r, capacity))
    ensures NewChannel(r, capacity).status == r.status
  {
  }

  lemma PullKeepsOk(s: System, n: nat)
    requires SystemOk(s)
    ensures SystemOk(Next(s, PullStep(n)))
  {
    if n < |s.sessions| && s.run.chans[s.sessions[n].chan].buffer != [] {
      var session := s.sessions[n];
      TakeKeepsReader(session, s.run);
      forall m | 0 <= m < |s.sessions| && m != n ensures SessionOk(s.sessions[m], Take(s.run, session.chan)) {
        assert s.sessions[m].chan != session.chan;
        TakeKeepsOther(s.sessions[m], s.run, session.chan);
      }
    }
  }

  lemma TakeKeepsReader(s: Session, r: Run)
    requires SessionOk(s, r) && r.chans[s.chan].buffer != []
    ensures var ev := r.chans[s.chan].buffer[0];
            var s' := s.(pulled := s.pulled + [ev], frames := s.frames + [Frame(s.base + |s.pulled|, ev)]);
            SessionOk(s', Take(r, s.chan))
  {
    var buffer := r.chans[s.chan].buffer;
    var s' := s.(pulled := s.pulled + [buffer[0]], frames := s.frames + [Frame(s.base + |s.pulled|, buffer[0])]);
    TakeShifts(s, s', r);
    OneMoreFrame(s.base, s.pulled, buffer[0]);
    assert SnapshotFrames(r.events[..s.base], s.start) + PulledFrames(s.base, s'.pulled) == s'.frames;
  }

  lemma TakeShifts(s: Session, s': Session, r: Run)
    requires s.chan < |r.chans| && r.chans[s.chan].buffer != []
    requires s'.chan == s.chan && s'.pulled == s.pulled + [r.chans[s.chan].buffer[0]]
    ensures Passed(s', Take(r, s.chan)) == Passed(s, r)
  {
    var buffer := r.chans[s.chan].buffer;
    assert buffer == [buffer[0]] + buffer[1..];
  }

  lemma OneMoreFrame(base: nat, pulled: seq<Event>, ev: Event)
    ensures PulledFrames(base, pulled + [ev]) == PulledFrames(base, pulled) + [Frame(base + |pulled|, ev)]
  {
  }

  lemma TakeKeepsOther(s: Session, r: Run, chan: nat)
    requires SessionOk(s, r) && chan < |r.chans| && chan != s.chan && r.chans[chan].buffer != []
    ensures SessionOk(s, Take(r, chan))
  {
    assert Passed(s, Take(r, chan)) == Passed(s, r);
  }

  lemma StepKeepsOk(s: System, step: Step)
    requires SystemOk(s)
    ensures SystemOk(Next(s, step))
  {
    match step
    case AppendStep(ev) => AppendKeepsOk(s, ev);
    case FinalizeStep(status) =>
      if status != RUNNING {
        FinalizeKeepsOk(s, status);
      }
    case SubscribeStep =>
      NewChannelKeepsSessions(s, SUBSCRIBE_CAPACITY);
    case AttachStep(lastEventId) => AttachKeepsOk(s, lastEventId);
    case PullStep(n) => PullKeepsOk(s, n);
  }

  lemma {:induction false} RunsKeepOk(s: System, steps: seq<Step>)
    requires SystemOk(s)
    ensures SystemOk(Runs(s, steps))
    decreases |steps|
  {
    if steps != [] {
      StepKeepsOk(s, steps[0]);
      RunsKeepOk(Next(s, steps[0]), steps[1..]);
    }
  }

  // ---- No panic ----

  /** In no interleaving is a channel closed twice or sent to after it is closed. */
  lemma NeverPanics(steps: seq<Step>)
    ensures !Runs(START, steps).run.panicked
  {
    RunsKeepOk(START, steps);
  }

  // ---- No missed or repeated event ----

  /** What a client was sent the log of, and then pulled. */
  function Seen(s: Session, r: Run): seq<Event>
    requires s.base <= |r.events|
  {
    r.events[..s.base] + s.pulled
  }

  /** In every interleaving, a client whose buffer never overflowed has seen a prefix of the log; and
      once its channel is closed and drained, the log as it was when the channel closed. */
  lemma NothingMissedOrRepeated(steps: seq<Step>, n: nat)
    requires var s := Runs(START, steps);
             n < |s.sessions| && s.sessions[n].drops == 0
    ensures var s := Runs(START, steps);
            var session := s.sessions[n];
            && session.base <= |s.run.events| && session.chan < |s.run.chans|
            && Seen(session, s.run) <= s.run.events
            && (s.run.chans[session.chan].closed && s.run.chans[session.chan].buffer == [] ==>
                  && session.end.Some? && session.end.value <= |s.run.events|
                  && Seen(session, s.run) == s.run.events[..session.end.value])
  {
    RunsKeepOk(START, steps);
    var s := Runs(START, steps);
    var session := s.sessions[n];
    IndicesAreExact(session, s.run);
    SeenIsThere(session, s.run);
  }

  lemma SeenIsThere(s: Session, r: Run)
    requires SessionOk(s, r) && forall k | 0 <= k < |s.indices| :: s.indices[k] == s.base + k
    ensures s.base + |s.pulled| <= |r.events| && Seen(s, r) == r.events[..s.base + |s.pulled|]
  {
    assert |s.pulled| <= |s.indices|;
    if |s.pulled| > 0 {
      assert s.indices[|s.pulled| - 1] < |r.events|;
    }
    forall k | 0 <= k < |s.pulled| ensures s.pulled[k] == r.events[s.base + k] {
      assert s.pulled[k] == Passed(s, r)[k];
      assert r.events[s.indices[k]] == Passed(s, r)[k];
    }
  }

  /** Without drops the k-th event through the channel is log entry base + k. */
  lemma IndicesAreExact(s: Session, r: Run)
    requires SessionOk(s, r) && s.drops == 0
    ensures forall k | 0 <= k < |s.indices| :: s.indices[k] == s.base + k
    ensures s.base + |s.indices| == Horizon(s, r)
  {
    IndicesSpread(s.indices, s.base, Horizon(s, r));
  }

  /** Strictly increasing numbers that fill a range are the range. */
  lemma {:induction false} IndicesSpread(indices: seq<nat>, base: nat, horizon: nat)
    requires |indices| == horizon - base
    requires forall k | 0 <= k < |indices| :: base + k <= indices[k] < horizon
    requires forall j, k | 0 <= j < k < |indices| :: indices[j] < indices[k]
    ensures forall k | 0 <= k < |indices| :: indices[k] == base + k
  {
    if indices != [] {
      var n := |indices| - 1;
      assert forall k | 0 <= k < n :: indices[..n][k] == indices[k] < indices[n];
      IndicesSpread(indices[..n], base, horizon - 1);
    }
  }

  /** When a channel closes is when the run ends: until then its session has no end, and the end it
      gets is the length of the log at that moment. */
  lemma EndsAtFinalize(s: System, status: string, n: nat)
    requires SystemOk(s) && status != RUNNING && n < |s.sessions| && s.run.status == RUNNING
    ensures var s' := Next(s, FinalizeStep(status));
            && s'.sessions[n].end == Some(|s.run.events|)
            && s'.sessions[n].chan < |s'.run.chans| && s'.run.chans[s'.sessions[n].chan].closed
            && s'.run.subs == []
  {
    CloseAllReaches(s.run.(status := status), s.run.subs);
  }

  // ---- Safe resume ----

  /** The log entry a frame really carries. */
  function TrueIndex(s: Session, f: nat): nat
    requires |s.pulled| <= |s.indices|
    requires f < |s.frames|
    requires |s.frames| >= |s.pulled|
  {
    var snapshot := |s.frames| - |s.pulled|;
    if f < snapshot then s.start + f else s.indices[f - snapshot]
  }

  /** Drops or not, no frame claims a position beyond the true one. */
  lemma IdsNeverOverstate(steps: seq<Step>, n: nat, f: nat)
    requires var s := Runs(START, steps);
             n < |s.sessions| && f < |s.sessions[n].frames|
    ensures var s := Runs(START, steps);
            var session := s.sessions[n];
            && |session.pulled| <= |session.indices| && |session.frames| >= |session.pulled|
            && TrueIndex(session, f) < |s.run.events|
            && session.frames[f].event == s.run.events[TrueIndex(session, f)]
            && session.frames[f].id <= TrueIndex(session, f)
            && (session.drops == 0 ==> session.frames[f].id == TrueIndex(session, f))
  {
    RunsKeepOk(START, steps);
    var s := Runs(START, steps);
    if s.sessions[n].drops == 0 {
      IndicesAreExact(s.sessions[n], s.run);
    }
  }

  /** A client that reconnects with the id of the last frame it got is sent, in order, every logged
      event after the one that frame carried; and no event twice if nothing had been dropped. */
  lemma ResumeLosesNothing(steps: seq<Step>, n: nat, f: nat, more: seq<Step>)
    requires var s := Runs(START, steps);
             n < |s.sessions| && f < |s.sessions[n].frames|
    ensures var s := Runs(START, steps);
            var session := s.sessions[n];
            && |session.pulled| <= |session.indices| && |session.frames| >= |session.pulled|
            && (var after := Runs(s, more);
                var log := after.run.events;
                var attached := Next(after, AttachStep(Some(session.frames[f].id))).sessions;
                && |attached| == |after.sessions| + 1
                && var resumed := attached[|after.sessions|].frames;
                && AllAfter(log, TrueIndex(session, f), resumed)
                && InOrder(resumed)
                && (session.drops == 0 ==> NoneUpTo(TrueIndex(session, f), resumed)))
  {
    IdsNeverOverstate(steps, n, f);
    var s := Runs(START, steps);
    var session := s.sessions[n];
    var later := Runs(s, more).run;
    var id := session.frames[f].id;
    AttachAddsSession(Runs(s, more), Some(id));
    assert Attached(later, Some(id)).frames == SnapshotFrames(later.events, id + 1);
    ResumeCovers(later.events, id, TrueIndex(session, f));
  }

  /** Every log entry after `last` is among the frames, under its own index. */
  ghost predicate AllAfter(log: seq<Event>, last: nat, frames: seq<Frame>) {
    forall i | last < i < |log| :: Frame(i, log[i]) in frames
  }

  ghost predicate InOrder(frames: seq<Frame>) {
    forall j, k | 0 <= j < k < |frames| :: frames[j].id < frames[k].id
  }

  ghost predicate NoneUpTo(last: nat, frames: seq<Frame>) {
    forall k | 0 <= k < |frames| :: frames[k].id > last
  }

  /** The snapshot frames after an id reach every later index, once each and in order. */
  lemma ResumeCovers(log: seq<Event>, id: nat, last: nat)
    requires id <= last
    ensures var frames := SnapshotFrames(log, id + 1);
            && AllAfter(log, last, frames)
            && InOrder(frames)
            && NoneUpTo(id, frames)
  {
    var frames := SnapshotFrames(log, id + 1);
    forall i | last < i < |log| ensures Frame(i, log[i]) in frames {
      assert frames[i - id - 1] == Frame(i, log[i]);
    }
  }

  /** Attaching is how a session begins. */
  lemma AttachAddsSession(s: System, lastEventId: Option<int>)
    ensures Next(s, AttachStep(lastEventId)).sessions == s.sessions + [Attached(s.run, lastEventId)]
  {
  }
}

/** A test run's event log and its live subscribers: append, finish, and snapshot-and-subscribe
    over bounded channels that drop what does not fit. */
module TestRun {

  datatype Event = Event(kind: string, data: string)

  datatype Chan = Chan(buffer: seq<Event>, capacity: nat, closed: bool)

  const RUNNING := "running"
  const SUBSCRIBE_CAPACITY := 64
  const STREAM_CAPACITY := 2048

  /** The run and the channels made for it; `panicked` records a send on, or a second close of, a
      closed channel, which would bring the process down. */
  datatype Run = Run(events: seq<Event>, status: string, subs: seq<nat>, chans: seq<Chan>, panicked: bool)

  const FRESH_RUN := Run([], RUNNING, [], [], false)

  /** `select { case sub <- ev: default: }`. */
  function Offer(r: Run, sub: nat, ev: Event): Run {
    if sub >= |r.chans| || r.chans[sub].closed then r.(panicked := true)
    else if |r.chans[sub].buffer| < r.chans[sub].capacity
    then r.(chans := r.chans[sub := r.chans[sub].(buffer := r.chans[sub].buffer + [ev])])
    else r
  }

  function OfferAll(r: Run, subs: seq<nat>, ev: Event): Run {
    if subs == [] then r else Offer(OfferAll(r, subs[..|subs| - 1], ev), subs[|subs| - 1], ev)
  }

  function Append(r: Run, ev: Event): Run {
    OfferAll(r.(events := r.events + [ev]), r.subs, ev)
  }

  function Close(r: Run, sub: nat): Run {
    if sub >= |r.chans| || r.chans[sub].closed then r.(panicked := true)
    else r.(chans := r.chans[sub := r.chans[sub].(closed := true)])
  }

  function CloseAll(r: Run, subs: seq<nat>): Run {
    if subs == [] then r else Close(CloseAll(r, subs[..|subs| - 1]), subs[|subs| - 1])
  }

  function Finalize(r: Run, status: string): Run {
    CloseAll(r.(status := status), r.subs).(subs := [])
  }

  /** A new channel: registered while the run goes on, closed at once when it is over. */
  function NewChannel(r: Run, capacity: nat): Run {
    if r.status == RUNNING
    then r.(chans := r.chans + [Chan([], capacity, false)], subs := r.subs + [|r.chans|])
    else r.(chans := r.chans + [Chan([], capacity, true)])
  }

  /** The receiving end: take the oldest buffered event. */
  function Take(r: Run, ch: nat): Run
    requires ch < |r.chans| && r.chans[ch].buffer != []
  {
    r.(chans := r.chans[ch := r.chans[ch].(buffer := r.chans[ch].buffer[1..])])
  }

  class Runner {
    var events: seq<Event>
    var status: string
    var subs: seq<nat>
    var chans: seq<Chan>
    var panicked: bool

    function State(): Run
      reads this
    {
      Run(events, status, subs, chans, panicked)
    }

    constructor ()
      ensures State() == FRESH_RUN
    {
      events, status, subs, chans, panicked := [], RUNNING, [], [], false;
    }

    method Send(sub: nat, ev: Event)
      modifies this`chans, this`panicked
      ensures State() == Offer(old(State()), sub, ev)
    {
      if sub >= |chans| || chans[sub].closed {
        panicked := true;
      } else if |chans[sub].buffer| < chans[sub].capacity {
        chans := chans[sub := chans[sub].(buffer := chans[sub].buffer + [ev])];
      }
    }

    method AppendEvent(ev: Event)
      modifies this
      ensures State() == Append(old(State()), ev)
    {
      events := events + [ev];
      ghost var start := State();
      for i := 0 to |subs|
        invariant State() == OfferAll(start, start.subs[..i], ev)
        invariant subs == start.subs
      {
        assert start.subs[..i + 1][..i] == start.subs[..i];
        Send(subs[i], ev);
      }
      assert start.subs[..|subs|] == start.subs;
    }

    method FinalizeRun(newStatus: string)
      modifies this
      ensures State() == Finalize(old(State()), newStatus)
    {
      status := newStatus;
      ghost var start := State();
      for i := 0 to |subs|
        invariant State() == CloseAll(start, start.subs[..i])
        invariant subs == start.subs
      {
        assert start.subs[..i + 1][..i] == start.subs[..i];
        if subs[i] >= |chans| || chans[subs[i]].closed {
          panicked := true;
        } else {
          chans := chans[subs[i] := chans[subs[i]].(closed := true)];
        }
      }
      assert start.subs[..|subs|] == start.subs;
      subs := [];
    }

    method Subscribe() returns (ch: nat)
      modifies this
      ensures State() == NewChannel(old(State()), SUBSCRIBE_CAPACITY)
      ensures ch == |old(chans)|
    {
      ch := |chans|;
      if status == RUNNING {
        chans := chans + [Chan([], SUBSCRIBE_CAPACITY, false)];
        subs := subs + [ch];
      } else {
        chans := chans + [Chan([], SUBSCRIBE_CAPACITY, true)];
      }
    }

    method SnapshotAndSubscribe() returns (snapshot: seq<Event>, ch: nat)
      modifies this
      ensures State() == NewChannel(old(State()), STREAM_CAPACITY)
      ensures snapshot == old(events) && ch == |old(chans)|
    {
      snapshot := events;
      ch := |chans|;
      if status == RUNNING {
        chans := chans + [Chan([], STREAM_CAPACITY, false)];
        subs := subs + [ch];
      } else {
        chans := chans + [Chan([], STREAM_CAPACITY, true)];
      }
    }
  }

  // ---- The subscriber list ----

  /** Every registered subscriber is a distinct open channel; once the run is over none is left. */
  ghost predicate SubsOk(r: Run) {
    && !r.panicked
    && (forall i | 0 <= i < |r.subs| :: r.subs[i] < |r.chans| && !r.chans[r.subs[i]].closed)
    && (forall i, j | 0 <= i < j < |r.subs| :: r.subs[i] != r.subs[j])
    && (r.status != RUNNING ==> r.subs == [])
  }

  /** Appending offers the event to each subscriber once and touches nothing else. */
  lemma {:induction false} OfferAllReaches(r: Run, subs: seq<nat>, ev: Event)
    requires !r.panicked
    requires forall i | 0 <= i < |subs| :: subs[i] < |r.chans| && !r.chans[subs[i]].closed
    requires forall i, j | 0 <= i < j < |subs| :: subs[i] != subs[j]
    ensures var r' := OfferAll(r, subs, ev);
            && r' == r.(chans := r'.chans)
            && |r'.chans| == |r.chans|
            && (forall c | 0 <= c < |r.chans| ::
                  r'.chans[c] == if c in subs && |r.chans[c].buffer| < r.chans[c].capacity
                                 then r.chans[c].(buffer := r.chans[c].buffer + [ev]) else r.chans[c])
  {
    if subs != [] {
      var n := |subs| - 1;
      OfferAllReaches(r, subs[..n], ev);
      assert subs == subs[..n] + [subs[n]];
      assert subs[n] !in subs[..n];
    }
  }

  /** Finishing closes each subscriber once. */
  lemma {:induction false} CloseAllReaches(r: Run, subs: seq<nat>)
    requires !r.panicked
    requires forall i | 0 <= i < |subs| :: subs[i] < |r.chans| && !r.chans[subs[i]].closed
    requires forall i, j | 0 <= i < j < |subs| :: subs[i] != subs[j]
    ensures var r' := CloseAll(r, subs);
            && r' == r.(chans := r'.chans)
            && |r'.chans| == |r.chans|
            && (forall c | 0 <= c < |r.chans| ::
                  r'.chans[c] == if c in subs then r.chans[c].(closed := true) else r.chans[c])
  {
    if subs != [] {
      var n := |subs| - 1;
      CloseAllReaches(r, subs[..n]);
      assert subs == subs[..n] + [subs[n]];
      assert subs[n] !in subs[..n];
    }
  }
}

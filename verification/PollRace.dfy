/** GET /auth/pair-request/{code}/status under concurrency. A poll of an approved request is two store
    accesses: it reads the request and marks it exchanged. Between them any other poll's access and
    any other handler may run. */
module PollRace {
  import opened Stores
  import opened Handlers
  import opened DeviceFlow

  datatype Phase = Waiting | HasRead(released: NullString) | Answered(response: Response)

  datatype PollCall = PollCall(code: string, phase: Phase)

  datatype Race = Race(relay: Relay, polls: seq<PollCall>)

  datatype Action = Read(i: nat, now: int) | Mark(i: nat) | Other(step: Step)

  function Act(s: Race, action: Action): Race {
    match action
    case Read(i, now) =>
      if i < |s.polls| && s.polls[i].phase.Waiting? then
        match Poll(s.relay, s.polls[i].code, now).response
        case Polled(Approved, released) => Moved(s, i, HasRead(released))
        case response => Moved(s, i, Answered(response))
      else s
    case Mark(i) =>
      if i < |s.polls| && s.polls[i].phase.HasRead? then
        Moved(s.(relay := SetStatus(s.relay, s.polls[i].code, Exchanged)), i,
              Answered(Polled(Approved, s.polls[i].phase.released)))
      else s
    case Other(step) =>
      if step.DoPoll? then s else s.(relay := Apply(s.relay, step).relay)
  }

  function Moved(s: Race, i: nat, phase: Phase): Race
    requires i < |s.polls|
  {
    s.(polls := s.polls[i := s.polls[i].(phase := phase)])
  }

  function Play(s: Race, actions: seq<Action>): Race
    decreases |actions|
  {
    if actions == [] then s else Play(Act(s, actions[0]), actions[1..])
  }

  ghost predicate Starting(s: Race) {
    forall i | 0 <= i < |s.polls| :: s.polls[i].phase.Waiting?
  }

  /** No poll is left half way. */
  ghost predicate Settled(s: Race) {
    forall i | 0 <= i < |s.polls| :: !s.polls[i].phase.HasRead?
  }

  predicate WillRelease(p: PollCall) {
    p.phase.HasRead? && p.phase.released.Str?
  }

  predicate HasReleased(p: PollCall) {
    p.phase.Answered? && p.phase.response.Polled? && p.phase.response.released.Str?
  }

  /** No request's code has been sent out twice. */
  ghost predicate SingleRelease(s: Race) {
    forall i, j | 0 <= i < |s.polls| && 0 <= j < |s.polls| ::
      HasReleased(s.polls[i]) && HasReleased(s.polls[j]) && s.polls[i].code == s.polls[j].code ==> i == j
  }

  /** Two polls have both read an approved request that neither has marked yet. */
  ghost predicate Crowded(s: Race) {
    exists i, j | 0 <= i < |s.polls| && 0 <= j < |s.polls| ::
      i != j && WillRelease(s.polls[i]) && WillRelease(s.polls[j]) && s.polls[i].code == s.polls[j].code
  }

  ghost predicate GetsCrowded(s: Race, actions: seq<Action>)
    decreases |actions|
  {
    Crowded(s) || (actions != [] && GetsCrowded(Act(s, actions[0]), actions[1..]))
  }

  // ---- What every interleaving keeps ----

  /** A request that some poll has released is exchanged, and one that some poll has read approved is
      approved still or exchanged. */
  ghost predicate Consistent(s: Race) {
    forall i | 0 <= i < |s.polls| ::
      && (HasReleased(s.polls[i]) ==>
            s.polls[i].code in s.relay.requests && s.relay.requests[s.polls[i].code].status == Exchanged)
      && (s.polls[i].phase.HasRead? ==>
            && s.polls[i].code in s.relay.requests
            && s.relay.requests[s.polls[i].code].status in {Approved, Exchanged})
  }

  /** Nothing but a poll moves an approved request, and nothing at all an exchanged one. */
  lemma ActKeepsRequest(s: Race, action: Action, code: string)
    requires Consistent(s) && code in s.relay.requests
    requires s.relay.requests[code].status in {Approved, Exchanged}
    ensures var s' := Act(s, action);
            && code in s'.relay.requests
            && s'.relay.requests[code].status in {s.relay.requests[code].status, Exchanged}
  {
    if action.Other? {
      RequestsStay(s.relay, action.step, code);
      MoveHasOneCause(s.relay, action.step, code);
    }
  }

  lemma ActKeepsConsistent(s: Race, action: Action)
    requires Consistent(s)
    ensures Consistent(Act(s, action))
  {
    var s' := Act(s, action);
    forall i | 0 <= i < |s'.polls|
      ensures HasReleased(s'.polls[i]) ==>
                s'.polls[i].code in s'.relay.requests && s'.relay.requests[s'.polls[i].code].status == Exchanged
      ensures s'.polls[i].phase.HasRead? ==>
                && s'.polls[i].code in s'.relay.requests
                && s'.relay.requests[s'.polls[i].code].status in {Approved, Exchanged}
    {
      var code := s.polls[i].code;
      if code in s.relay.requests && s.relay.requests[code].status in {Approved, Exchanged} {
        ActKeepsRequest(s, action, code);
      }
    }
  }

  /** At most one poll per request has released its code or will. */
  ghost predicate Alone(s: Race) {
    forall i, j | 0 <= i < |s.polls| && 0 <= j < |s.polls| ::
      Involved(s.polls[i]) && Involved(s.polls[j]) && s.polls[i].code == s.polls[j].code ==> i == j
  }

  predicate Involved(p: PollCall) {
    WillRelease(p) || HasReleased(p)
  }

  lemma ActKeepsAlone(s: Race, action: Action)
    requires Consistent(s) && Alone(s) && !Crowded(Act(s, action))
    ensures Alone(Act(s, action))
  {
    var s' := Act(s, action);
    forall i, j | 0 <= i < |s'.polls| && 0 <= j < |s'.polls| && i != j
      ensures !(Involved(s'.polls[i]) && Involved(s'.polls[j]) && s'.polls[i].code == s'.polls[j].code)
    {
      assert s'.polls[i].code == s.polls[i].code && s'.polls[j].code == s.polls[j].code;
      assert !(WillRelease(s'.polls[i]) && WillRelease(s'.polls[j]) && s'.polls[i].code == s'.polls[j].code);
    }
  }

  lemma {:induction false} UncrowdedIsSingleRelease(s: Race, actions: seq<Action>)
    requires Consistent(s) && Alone(s) && !GetsCrowded(s, actions)
    ensures SingleRelease(Play(s, actions))
    decreases |actions|
  {
    if actions != [] {
      ActKeepsConsistent(s, actions[0]);
      ActKeepsAlone(s, actions[0]);
      UncrowdedIsSingleRelease(Act(s, actions[0]), actions[1..]);
    }
  }

  /** A poll that has read an approved request goes on to release its code. */
  lemma {:induction false} ReadersRelease(s: Race, actions: seq<Action>, i: nat)
    requires i < |s.polls| && Involved(s.polls[i])
    ensures var s' := Play(s, actions);
            i < |s'.polls| && s'.polls[i].code == s.polls[i].code && Involved(s'.polls[i])
    decreases |actions|
  {
    if actions != [] {
      ReadersRelease(Act(s, actions[0]), actions[1..], i);
    }
  }

  lemma {:induction false} CrowdedIsDoubleRelease(s: Race, actions: seq<Action>)
    requires GetsCrowded(s, actions) && Settled(Play(s, actions))
    ensures !SingleRelease(Play(s, actions))
    decreases |actions|
  {
    if Crowded(s) {
      var i, j :| 0 <= i < |s.polls| && 0 <= j < |s.polls| && i != j
                  && WillRelease(s.polls[i]) && WillRelease(s.polls[j]) && s.polls[i].code == s.polls[j].code;
      ReadersRelease(s, actions, i);
      ReadersRelease(s, actions, j);
      var s' := Play(s, actions);
      assert HasReleased(s'.polls[i]) && HasReleased(s'.polls[j]);
    } else {
      CrowdedIsDoubleRelease(Act(s, actions[0]), actions[1..]);
    }
  }

  /** Over every interleaving that runs its polls to the end, each request's code is sent out at most
      once if and only if no poll reads the approved request between another poll's read and mark. */
  lemma SingleReleaseExact(s: Race, actions: seq<Action>)
    requires Starting(s) && Settled(Play(s, actions))
    ensures SingleRelease(Play(s, actions)) <==> !GetsCrowded(s, actions)
  {
    if GetsCrowded(s, actions) {
      CrowdedIsDoubleRelease(s, actions);
    } else {
      UncrowdedIsSingleRelease(s, actions);
    }
  }

  /** Two polls of an approved request that overlap: both read, then both mark and answer. */
  lemma TwoReleasesOfOneCode(r: Relay, code: string, now: int)
    requires code in r.requests && r.requests[code].status == Approved
    requires !r.requests[code].upgradeOnly && r.requests[code].pairingCode.Str?
    ensures var s := Race(r, [PollCall(code, Waiting), PollCall(code, Waiting)]);
            var s' := Act(Act(Act(Act(s, Read(0, now)), Read(1, now)), Mark(0)), Mark(1));
            HasReleased(s'.polls[0]) && HasReleased(s'.polls[1])
  {
  }

  /** The one-step poll of the other modules is the two accesses in a row. */
  lemma AtomicPoll(r: Relay, code: string, now: int)
    ensures var s := Race(r, [PollCall(code, Waiting)]);
            var s' := Act(Act(s, Read(0, now)), Mark(0));
            s'.relay == Poll(r, code, now).relay && s'.polls[0].phase == Answered(Poll(r, code, now).response)
  {
  }
}

/** Cron jobs shared by several instances: each run takes an expiring Redis lock with SETNX and gives
    it back with DEL. The lock's value says nothing about who holds it. */
module CronLock {

  datatype Job = DailyReset | MonthlyReset | AdminCleanup

  datatype Slot = Slot(job: Job, instance: nat)

  /** The clock, the expiry of each lock key, when each running job began, and for the record which
      instance set each key last. */
  datatype State = State(now: int, locks: map<Job, int>, inside: map<Slot, int>, setter: map<Job, nat>)

  /** Five minutes, in seconds. */
  const LOCK_SECONDS := 300

  const START := State(0, map[], map[], map[])

  datatype Step = Begin(slot: Slot) | End(slot: Slot) | Tick(seconds: nat)

  predicate Locked(s: State, job: Job) {
    job in s.locks && s.now < s.locks[job]
  }

  /** A run begins only if SETNX finds no live key; it ends with an unconditional DEL. */
  function Next(s: State, step: Step): State {
    match step
    case Begin(slot) =>
      if slot in s.inside || Locked(s, slot.job) then s
      else
        s.(locks := s.locks[slot.job := s.now + LOCK_SECONDS],
           inside := s.inside[slot := s.now],
           setter := s.setter[slot.job := slot.instance])
    case End(slot) =>
      if slot in s.inside then s.(locks := s.locks - {slot.job}, inside := s.inside - {slot}) else s
    case Tick(seconds) => s.(now := s.now + seconds)
  }

  /** The Redis keys and the instances' jobs, as they run. */
  class Cluster {
    var now: int
    var locks: map<Job, int>
    var inside: map<Slot, int>
    ghost var setter: map<Job, nat>

    ghost function Contents(): State
      reads this
    {
      State(now, locks, inside, setter)
    }

    constructor ()
      ensures Contents() == START
    {
      now, locks, inside, setter := 0, map[], map[], map[];
    }

    /** Redis SETNX with an expiry: only a key that is missing or expired is set. */
    method SetNX(job: Job, expiry: nat) returns (locked: bool)
      modifies this`locks
      ensures locked == !Locked(old(Contents()), job)
      ensures locks == if locked then old(locks)[job := now + expiry] else old(locks)
    {
      locked := job !in locks || now >= locks[job];
      if locked {
        locks := locks[job := now + expiry];
      }
    }

    /** A job's first half: take the lock or give up. An instance starts a job from one loop, so never
        while it is inside it. */
    method BeginJob(slot: Slot) returns (started: bool)
      requires slot !in inside
      modifies this
      ensures started == !Locked(old(Contents()), slot.job)
      ensures Contents() == Next(old(Contents()), Begin(slot))
    {
      started := SetNX(slot.job, LOCK_SECONDS);
      if !started {
        return;
      }
      inside := inside[slot := now];
      setter := setter[slot.job := slot.instance];
    }

    /** Its last: the deferred DEL, whoever set the key. */
    method EndJob(slot: Slot)
      requires slot in inside
      modifies this
      ensures Contents() == Next(old(Contents()), End(slot))
    {
      locks := locks - {slot.job};
      inside := inside - {slot};
    }
  }

  function Run(s: State, steps: seq<Step>): State
    decreases |steps|
  {
    if steps == [] then s else Run(Next(s, steps[0]), steps[1..])
  }

  /** No run of a job has been going on for more than `most` seconds. */
  ghost predicate Prompt(s: State, most: int) {
    forall slot | slot in s.inside :: s.now - s.inside[slot] <= most
  }

  ghost predicate PromptRun(s: State, steps: seq<Step>, most: int)
    decreases |steps|
  {
    Prompt(s, most) && (steps != [] ==> PromptRun(Next(s, steps[0]), steps[1..], most))
  }

  /** At most one instance is inside each job. */
  ghost predicate Exclusive(s: State) {
    forall a, b | a in s.inside && b in s.inside && a.job == b.job :: a == b
  }

  /** Ending any run now would delete the key that run itself set, and only that. */
  ghost predicate ReleasesOwn(s: State) {
    forall slot | slot in s.inside ::
      Locked(s, slot.job) && slot.job in s.setter && s.setter[slot.job] == slot.instance
  }

  /** Every running job still holds the key it set. */
  ghost predicate Held(s: State) {
    forall slot | slot in s.inside ::
      && slot.job in s.locks && s.locks[slot.job] == s.inside[slot] + LOCK_SECONDS
      && slot.job in s.setter && s.setter[slot.job] == slot.instance
  }

  lemma HeldIsExclusive(s: State, most: int)
    requires Held(s) && Prompt(s, most) && most < LOCK_SECONDS
    ensures Exclusive(s) && ReleasesOwn(s)
  {
  }

  /** A free key means nobody is inside the job. */
  lemma BeginKeepsHeld(s: State, slot: Slot)
    requires Held(s) && ReleasesOwn(s)
    ensures Held(Next(s, Begin(slot)))
  {
    if !Locked(s, slot.job) {
      forall other | other in s.inside ensures other.job != slot.job {
        assert Locked(s, other.job);
      }
    }
  }

  lemma EndKeepsHeld(s: State, slot: Slot)
    requires Held(s) && Exclusive(s)
    ensures Held(Next(s, End(slot)))
  {
    var s' := Next(s, End(slot));
    forall other | other in s'.inside
      ensures other.job in s'.locks && s'.locks[other.job] == s'.inside[other] + LOCK_SECONDS
      ensures other.job in s'.setter && s'.setter[other.job] == other.instance
    {
      if slot in s.inside {
        assert other in s.inside && other != slot;
        assert other.job != slot.job;
      }
    }
  }

  lemma NextKeepsHeld(s: State, step: Step, most: int)
    requires Held(s) && Prompt(s, most) && most < LOCK_SECONDS
    ensures Held(Next(s, step))
  {
    HeldIsExclusive(s, most);
    match step
    case Begin(slot) => BeginKeepsHeld(s, slot);
    case End(slot) => EndKeepsHeld(s, slot);
    case Tick(seconds) => TickKeepsHeld(s, seconds);
  }

  lemma TickKeepsHeld(s: State, seconds: nat)
    requires Held(s)
    ensures Held(Next(s, Tick(seconds)))
  {
  }

  lemma {:induction false} RunKeepsHeld(s: State, steps: seq<Step>, most: int)
    requires Held(s) && PromptRun(s, steps, most) && most < LOCK_SECONDS
    ensures Held(Run(s, steps)) && Prompt(Run(s, steps), most)
    decreases |steps|
  {
    if steps != [] {
      NextKeepsHeld(s, steps[0], most);
      RunKeepsHeld(Next(s, steps[0]), steps[1..], most);
    }
  }

  /** Two instances, and a job that outlasts its lock. */
  function Overrun(): seq<Step> {
    [Begin(Slot(DailyReset, 0)), Tick(LOCK_SECONDS), Begin(Slot(DailyReset, 1))]
  }

  lemma OverrunIsShared(most: int)
    requires most >= LOCK_SECONDS
    ensures PromptRun(START, Overrun(), most)
    ensures !Exclusive(Run(START, Overrun()))
  {
    var steps := Overrun();
    var a, b := Slot(DailyReset, 0), Slot(DailyReset, 1);
    var s1 := Next(START, steps[0]);
    var s2 := Next(s1, steps[1]);
    var s3 := Next(s2, steps[2]);
    assert steps[1..] == [steps[1], steps[2]] && steps[1..][1..] == [steps[2]] && steps[1..][1..][1..] == [];
    assert s1.inside == map[a := 0] && s2 == s1.(now := LOCK_SECONDS);
    assert s3.inside == map[a := 0, b := LOCK_SECONDS];
    assert PromptRun(s3, [], most) && Run(s3, []) == s3;
    assert PromptRun(s2, [steps[2]], most) && Run(s2, [steps[2]]) == s3;
    assert PromptRun(s1, steps[1..], most) && Run(s1, steps[1..]) == s3;
    assert a in s3.inside && b in s3.inside && a != b;
  }

  /** For any number of instances and any schedule: runs of at most `most` seconds are mutually
      exclusive, and give back only their own lock, if and only if `most` is under the expiry. */
  lemma ExclusionExact(most: int)
    ensures (forall steps | PromptRun(START, steps, most) ::
               Exclusive(Run(START, steps)) && ReleasesOwn(Run(START, steps)))
            <==> most < LOCK_SECONDS
  {
    if most < LOCK_SECONDS {
      forall steps | PromptRun(START, steps, most)
        ensures Exclusive(Run(START, steps)) && ReleasesOwn(Run(START, steps))
      {
        RunKeepsHeld(START, steps, most);
        HeldIsExclusive(Run(START, steps), most);
      }
    } else {
      OverrunIsShared(most);
    }
  }
}

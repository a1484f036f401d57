/** Sharing controller probes between concurrent callers (internal/clash/probe_broker.go). Every method is
    one critical section or channel operation; callers, runners and timeouts interleave in any order. */
module ProbeBroker {
  import opened Basics
  import opened Options

  const MAX_JOBS := 32
  const SLOTS := 2

  datatype Outcome = Delayed(delay: nat) | ProbeFailed | QueueDeadline

  /** Where the runner of a job is. `Lingering` has its outcome but still occupies the runtime; `Expired` has
      given up waiting for a slot. */
  datatype Phase = Queued | Probing | Lingering | Expired | Unlisted | Finished

  /** A job; its outcome is there once its callers are released. */
  datatype Job = Job(tag: string, started: nat, phase: Phase, outcome: Option<Outcome>)

  /** What a caller asked for and what it got. */
  datatype Caller =
    | Waiting(tag: string, job: nat)
    | Canceled(tag: string)
    | QueueFull(tag: string)
    | Answered(tag: string, job: nat, outcome: Outcome, started: nat)

  predicate IsListed(p: Phase) {
    p.Queued? || p.Probing? || p.Lingering? || p.Expired?
  }

  predicate HoldsSlot(p: Phase) {
    p.Probing? || p.Lingering? || p.Unlisted?
  }

  // ---------------------------------------------------------------- what holds of a state

  /** Listed jobs are exactly the jobs of the map, under their own tags. */
  predicate Listing(jobs: map<string, nat>, all: seq<Job>) {
    && (forall tag :: tag in jobs ==> jobs[tag] < |all| && all[jobs[tag]].tag == tag && IsListed(all[jobs[tag]].phase))
    && (forall id :: 0 <= id < |all| && IsListed(all[id].phase) ==> all[id].tag in jobs && jobs[all[id].tag] == id)
  }

  predicate Slotting(holders: set<nat>, all: seq<Job>) {
    && (forall id :: id in holders ==> id < |all|)
    && (forall id :: 0 <= id < |all| ==> (id in holders <==> HoldsSlot(all[id].phase)))
  }

  predicate HasOutcome(j: Job) {
    && (j.outcome.Some? <==> !j.phase.Queued? && !j.phase.Probing?)
    && (j.phase.Expired? ==> j.outcome == Some(QueueDeadline))
  }

  /** A caller waits for a job of its tag, or was answered with the outcome and start of one. */
  predicate Honest(c: Caller, all: seq<Job>) {
    match c
    case Waiting(tag, job) => job < |all| && all[job].tag == tag
    case Answered(tag, job, outcome, started) =>
      job < |all| && all[job].tag == tag && all[job].outcome == Some(outcome) && all[job].started == started
    case _ => true
  }

  predicate AllOutcomes(all: seq<Job>) {
    forall id :: 0 <= id < |all| ==> HasOutcome(all[id])
  }

  predicate AllHonest(callers: seq<Caller>, all: seq<Job>) {
    forall i :: 0 <= i < |callers| ==> Honest(callers[i], all)
  }

  predicate Holds(jobs: map<string, nat>, all: seq<Job>, holders: set<nat>, callers: seq<Caller>) {
    && Listing(jobs, all) && Slotting(holders, all)
    && |jobs| <= MAX_JOBS && |holders| <= SLOTS
    && AllOutcomes(all) && AllHonest(callers, all)
  }

  /** Jobs keep their tag, start and outcome for ever. */
  predicate Extends(all: seq<Job>, next: seq<Job>) {
    && |all| <= |next|
    && forall id :: 0 <= id < |all| ==>
         && next[id].tag == all[id].tag && next[id].started == all[id].started
         && (all[id].outcome.Some? ==> next[id].outcome == all[id].outcome)
  }

  lemma {:induction false} HonestStays(callers: seq<Caller>, all: seq<Job>, next: seq<Job>)
    requires Extends(all, next) && AllHonest(callers, all)
    ensures AllHonest(callers, next)
  {
    forall i | 0 <= i < |callers|
      ensures Honest(callers[i], next)
    {
      assert Honest(callers[i], all);
    }
  }

  function MapAfter(jobs: map<string, nat>, j: Job, phase: Phase): map<string, nat> {
    if IsListed(j.phase) && !IsListed(phase) then jobs - {j.tag} else jobs
  }

  function SlotsAfter(holders: set<nat>, id: nat, phase: Phase): set<nat> {
    if HoldsSlot(phase) then holders + {id} else holders - {id}
  }

  lemma {:induction false} ListingMoves(jobs: map<string, nat>, all: seq<Job>, id: nat, j: Job)
    requires Listing(jobs, all) && id < |all| && j.tag == all[id].tag && (IsListed(j.phase) ==> IsListed(all[id].phase))
    ensures Listing(MapAfter(jobs, all[id], j.phase), all[id := j])
  {
  }

  lemma {:induction false} SlottingMoves(holders: set<nat>, all: seq<Job>, id: nat, j: Job)
    requires Slotting(holders, all) && id < |all|
    ensures Slotting(SlotsAfter(holders, id, j.phase), all[id := j])
  {
  }

  lemma {:induction false} SizesMove(jobs: map<string, nat>, holders: set<nat>, id: nat, j: Job, phase: Phase)
    requires HoldsSlot(phase) && id !in holders ==> |holders| < SLOTS
    requires |jobs| <= MAX_JOBS && |holders| <= SLOTS
    ensures |MapAfter(jobs, j, phase)| <= MAX_JOBS && |SlotsAfter(holders, id, phase)| <= SLOTS
  {
    RemovingShrinks(jobs, j.tag);
    if HoldsSlot(phase) {
      assert id in holders ==> holders + {id} == holders;
      assert id !in holders ==> |holders + {id}| == |holders| + 1;
    } else {
      SubsetSize(holders - {id}, holders);
    }
  }

  function AfterUnlisting(phase: Phase): Phase {
    if phase.Expired? then Finished else Unlisted
  }

  lemma {:induction false} SlotStays(holders: set<nat>, all: seq<Job>, id: nat, phase: Phase)
    requires Slotting(holders, all) && id < |all| && HoldsSlot(phase) == HoldsSlot(all[id].phase)
    ensures SlotsAfter(holders, id, phase) == holders
  {
  }

  /** Moving one job to its next phase keeps everything, if the map and the slots follow. */
  lemma {:induction false} MoveKeeps(jobs: map<string, nat>, all: seq<Job>, holders: set<nat>, callers: seq<Caller>,
                                     id: nat, phase: Phase, outcome: Option<Outcome>)
    requires Holds(jobs, all, holders, callers) && id < |all| && (IsListed(phase) ==> IsListed(all[id].phase))
    requires HasOutcome(all[id].(phase := phase, outcome := outcome))
    requires all[id].outcome.Some? ==> outcome == all[id].outcome
    requires HoldsSlot(phase) && id !in holders ==> |holders| < SLOTS
    ensures var next := all[id := all[id].(phase := phase, outcome := outcome)];
            && Holds(MapAfter(jobs, all[id], phase), next, SlotsAfter(holders, id, phase), callers)
            && Extends(all, next)
  {
    var j := all[id].(phase := phase, outcome := outcome);
    ListingMoves(jobs, all, id, j);
    SlottingMoves(holders, all, id, j);
    SizesMove(jobs, holders, id, all[id], phase);
    HonestStays(callers, all, all[id := j]);
  }

  lemma {:induction false} RemovingShrinks(jobs: map<string, nat>, tag: string)
    ensures |jobs - {tag}| <= |jobs|
  {
    SubsetSize((jobs - {tag}).Keys, jobs.Keys);
    assert |(jobs - {tag}).Keys| == |jobs - {tag}| && |jobs.Keys| == |jobs|;
  }

  // ---------------------------------------------------------------- what a reader may rely on

  /** At most two probes use the controller at once, and at most one of them for a tag. */
  lemma {:induction false} FewProbes(jobs: map<string, nat>, all: seq<Job>, holders: set<nat>, callers: seq<Caller>, busy: set<nat>)
    requires Holds(jobs, all, holders, callers)
    requires forall id :: id in busy ==> id < |all| && (all[id].phase.Probing? || all[id].phase.Lingering?)
    ensures |busy| <= SLOTS
    ensures forall i, j :: i in busy && j in busy && all[i].tag == all[j].tag ==> i == j
  {
    assert busy <= holders;
    SubsetSize(busy, holders);
  }

  // ---------------------------------------------------------------- the broker

  class Broker {
    var jobs: map<string, nat>
    var all: seq<Job>
    var holders: set<nat>
    var callers: seq<Caller>

    constructor ()
      ensures Valid() && all == [] && callers == []
    {
      jobs, all, holders, callers := map[], [], {}, [];
    }

    predicate Valid()
      reads this
    {
      Holds(jobs, all, holders, callers)
    }

    /** A caller whose context is done is refused, one that finds a job of its tag joins it, one that finds none
        starts one unless the queue is full. */
    method Enter(tag: string, canceled: bool, now: nat) returns (caller: nat)
      requires Valid()
      modifies this
      ensures Valid() && caller == |old(callers)| && |callers| == caller + 1 && callers[..caller] == old(callers)
      ensures holders == old(holders) && Extends(old(all), all)
      ensures callers[caller].tag == tag
      ensures callers[caller].Canceled? <==> canceled
      ensures callers[caller].QueueFull? <==> !canceled && tag !in old(jobs) && |old(jobs)| >= MAX_JOBS
      ensures callers[caller].Waiting? ==> tag in jobs && callers[caller].job == jobs[tag]
      ensures callers[caller].Waiting? && tag in old(jobs) ==> jobs == old(jobs) && all == old(all)
      ensures callers[caller].Waiting? && tag !in old(jobs) ==> all == old(all) + [Job(tag, now, Queued, None)]
      ensures !callers[caller].Waiting? ==> jobs == old(jobs) && all == old(all)
    {
      caller := |callers|;
      if canceled {
        CallerJoins(callers, all, Canceled(tag));
        callers := callers + [Canceled(tag)];
        return;
      }
      if tag !in jobs {
        if |jobs| >= MAX_JOBS {
          CallerJoins(callers, all, QueueFull(tag));
          callers := callers + [QueueFull(tag)];
          return;
        }
        StartKeeps(jobs, all, holders, callers, tag, now);
        jobs := jobs[tag := |all|];
        all := all + [Job(tag, now, Queued, None)];
      }
      CallerJoins(callers, all, Waiting(tag, jobs[tag]));
      callers := callers + [Waiting(tag, jobs[tag])];
    }

    /** A queued job gets a slot. */
    method Acquire(id: nat) returns (ok: bool)
      requires Valid() && id < |all| && all[id].phase.Queued?
      modifies `all, `holders
      ensures Valid() && Extends(old(all), all) && ok == (|old(holders)| < SLOTS)
      ensures if ok then all == old(all)[id := old(all)[id].(phase := Probing)] && holders == old(holders) + {id}
              else all == old(all) && holders == old(holders)
    {
      ok := |holders| < SLOTS;
      if ok {
        MoveKeeps(jobs, all, holders, callers, id, Probing, None);
        all, holders := all[id := all[id].(phase := Probing)], holders + {id};
      }
    }

    /** A queued job waited too long; its callers are released with that outcome. */
    method Expire(id: nat)
      requires Valid() && id < |all| && all[id].phase.Queued?
      modifies `all
      ensures Valid() && Extends(old(all), all)
      ensures all == old(all)[id := old(all)[id].(phase := Expired, outcome := Some(QueueDeadline))]
    {
      MoveKeeps(jobs, all, holders, callers, id, Expired, Some(QueueDeadline));
      SlotStays(holders, all, id, Expired);
      all := all[id := all[id].(phase := Expired, outcome := Some(QueueDeadline))];
    }

    /** The controller answered; callers are released, the slot stays taken. */
    method Complete(id: nat, outcome: Outcome)
      requires Valid() && id < |all| && all[id].phase.Probing? && outcome != QueueDeadline
      modifies `all
      ensures Valid() && Extends(old(all), all)
      ensures all == old(all)[id := old(all)[id].(phase := Lingering, outcome := Some(outcome))]
    {
      MoveKeeps(jobs, all, holders, callers, id, Lingering, Some(outcome));
      SlotStays(holders, all, id, Lingering);
      all := all[id := all[id].(phase := Lingering, outcome := Some(outcome))];
    }

    /** The runner takes its job off the map. A job that expired is over then; one that probed still has its slot. */
    method Unlist(id: nat)
      requires Valid() && id < |all| && (all[id].phase.Lingering? || all[id].phase.Expired?)
      modifies `all, `jobs
      ensures Valid() && Extends(old(all), all) && jobs == old(jobs) - {old(all)[id].tag}
      ensures all == old(all)[id := old(all)[id].(phase := AfterUnlisting(old(all)[id].phase))]
    {
      var phase := AfterUnlisting(all[id].phase);
      MoveKeeps(jobs, all, holders, callers, id, phase, all[id].outcome);
      SlotStays(holders, all, id, phase);
      jobs, all := jobs - {all[id].tag}, all[id := all[id].(phase := phase)];
    }

    /** The runner gives its slot back. */
    method Release(id: nat)
      requires Valid() && id < |all| && all[id].phase.Unlisted?
      modifies `all, `holders
      ensures Valid() && Extends(old(all), all) && holders == old(holders) - {id}
      ensures all == old(all)[id := old(all)[id].(phase := Finished)]
    {
      MoveKeeps(jobs, all, holders, callers, id, Finished, all[id].outcome);
      all, holders := all[id := all[id].(phase := Finished)], holders - {id};
    }

    /** A waiting caller takes the outcome of its job, or its own cancellation. Neither changes a job or a slot. */
    method Wake(i: nat, canceled: bool) returns (ok: bool)
      requires Valid() && i < |callers| && callers[i].Waiting?
      modifies `callers
      ensures Valid() && |callers| == |old(callers)| && forall k :: 0 <= k < |callers| && k != i ==> callers[k] == old(callers)[k]
      ensures ok <==> canceled || all[old(callers)[i].job].outcome.Some?
      ensures ok && canceled ==> callers[i] == Canceled(old(callers)[i].tag)
      ensures ok && !canceled ==>
                var job := old(callers)[i].job;
                callers[i] == Answered(old(callers)[i].tag, job, all[job].outcome.value, all[job].started)
      ensures !ok ==> callers == old(callers)
    {
      var c := callers[i];
      if canceled {
        callers := callers[i := Canceled(c.tag)];
        return true;
      }
      if all[c.job].outcome.None? {
        return false;
      }
      callers := callers[i := Answered(c.tag, c.job, all[c.job].outcome.value, all[c.job].started)];
      return true;
    }

    /** Any of the above, as the scheduler likes. Answers once given never change. */
    method Anything(tag: string, canceled: bool, k: nat, outcome: Outcome, now: nat)
      requires Valid() && outcome != QueueDeadline
      modifies this
      ensures Valid() && Extends(old(all), all) && |old(callers)| <= |callers|
      ensures forall i :: 0 <= i < |old(callers)| && !old(callers)[i].Waiting? ==> callers[i] == old(callers)[i]
    {
      if * {
        var _ := Enter(tag, canceled, now);
      } else if k < |callers| && callers[k].Waiting? {
        var _ := Wake(k, canceled);
      } else if k < |all| {
        match all[k].phase {
          case Queued =>
            if canceled {
              Expire(k);
            } else {
              var _ := Acquire(k);
            }
          case Probing => Complete(k, outcome);
          case Lingering => Unlist(k);
          case Expired => Unlist(k);
          case Unlisted => Release(k);
          case Finished =>
        }
      }
    }
  }

  lemma {:induction false} CallerJoins(callers: seq<Caller>, all: seq<Job>, c: Caller)
    requires AllHonest(callers, all) && Honest(c, all)
    ensures AllHonest(callers + [c], all)
  {
  }

  lemma {:induction false} ListingStarts(jobs: map<string, nat>, all: seq<Job>, j: Job)
    requires Listing(jobs, all) && j.tag !in jobs && j.phase.Queued?
    ensures Listing(jobs[j.tag := |all|], all + [j])
  {
  }

  lemma {:induction false} AddingGrows(jobs: map<string, nat>, tag: string, id: nat)
    requires tag !in jobs
    ensures |jobs[tag := id]| == |jobs| + 1
  {
    assert jobs[tag := id].Keys == jobs.Keys + {tag};
    assert |jobs[tag := id].Keys| == |jobs| + 1;
  }

  lemma {:induction false} StartKeeps(jobs: map<string, nat>, all: seq<Job>, holders: set<nat>, callers: seq<Caller>, tag: string, now: nat)
    requires Holds(jobs, all, holders, callers) && tag !in jobs && |jobs| < MAX_JOBS
    ensures Holds(jobs[tag := |all|], all + [Job(tag, now, Queued, None)], holders, callers)
    ensures Extends(all, all + [Job(tag, now, Queued, None)])
  {
    var next := all + [Job(tag, now, Queued, None)];
    HonestStays(callers, all, next);
    ListingStarts(jobs, all, Job(tag, now, Queued, None));
    AddingGrows(jobs, tag, |all|);
  }
}

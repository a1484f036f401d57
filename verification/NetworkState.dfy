/** Routing records on disk and what a power loss may leave of them (internal/networkstate/state.go). */
module NetworkState {
  import opened Options

  /** The bytes of a record. */
  type Record = string

  /** One file of the directory: what is seen now, and every content a power loss may leave, because
      renames and removals last only once the directory is synced. */
  datatype Slot = Slot(now: Option<Record>, survivors: set<Option<Record>>)

  /** The seed of a fresh installation and the committed record. */
  datatype Directory = Directory(seed: Slot, committed: Slot)

  predicate Consistent(d: Directory) {
    d.seed.now in d.seed.survivors && d.committed.now in d.committed.survivors
  }

  function Change(s: Slot, content: Option<Record>): Slot {
    Slot(content, s.survivors + {content})
  }

  function Sync(d: Directory): Directory {
    Directory(Slot(d.seed.now, {d.seed.now}), Slot(d.committed.now, {d.committed.now}))
  }

  /** A power loss could leave a seed and no committed record: the seed would be the authority. */
  ghost predicate SeedMayRule(d: Directory) {
    None in d.committed.survivors && exists x :: Some(x) in d.seed.survivors
  }

  /** What recovery reads: the committed record, or the seed when there is none. */
  function Authority(d: Directory): Option<Record> {
    if d.committed.now.Some? then d.committed.now else d.seed.now
  }

  // ---------------------------------------------------------------- the operations, state by state

  /** Every state that writing a committed record goes through after the temporary file is complete. */
  function WriteStates(d: Directory, record: Record): seq<Directory> {
    var renamed := d.(committed := Change(d.committed, Some(record)));
    [renamed, Sync(renamed)]
  }

  function DiscardStates(d: Directory): seq<Directory> {
    var removed := if d.seed.now.None? then d else d.(seed := Change(d.seed, None));
    [removed, Sync(removed)]
  }

  /** Seed first, then committed record; a file that is already gone is passed over without a sync. */
  function InvalidateStates(d: Directory): (states: seq<Directory>)
    ensures states != []
  {
    var first := if d.seed.now.None? then [] else
                   var renamed := d.(seed := Change(d.seed, None)); [renamed, Sync(renamed)];
    var after := if first == [] then d else first[1];
    var second := if after.committed.now.None? then [] else
                    var renamed := after.(committed := Change(after.committed, None)); [renamed, Sync(renamed)];
    var last := if second == [] then after else second[1];
    first + second + [Sync(last)]
  }

  /** A run that may stop after any number of steps. */
  class Records {
    var d: Directory
    ghost var trace: seq<Directory>

    constructor (d: Directory)
      ensures this.d == d && trace == []
    {
      this.d, trace := d, [];
    }

    /** One step on disk, reported as done or not. A step that fails may still have happened. */
    method Step(next: Directory) returns (ok: bool)
      modifies this
      ensures (trace == old(trace) + [next] && d == next) || (!ok && trace == old(trace) && d == old(d))
    {
      var happens: bool := *;
      ok := *;
      ok := ok && happens;
      if happens {
        d, trace := next, trace + [next];
      }
    }

    /** A change to the directory and the sync that makes it last. */
    method Commit(next: Directory) returns (ok: bool)
      modifies this
      ensures trace <= old(trace) + [next, Sync(next)] && old(trace) <= trace
      ensures ok ==> trace == old(trace) + [next, Sync(next)] && d == Sync(next)
    {
      ok := Step(next);
      if ok {
        ok := Step(Sync(next));
      }
    }

    method Write(record: Record) returns (ok: bool)
      modifies this
      ensures trace <= old(trace) + WriteStates(old(d), record) && old(trace) <= trace
      ensures ok ==> trace == old(trace) + WriteStates(old(d), record) && d == WriteStates(old(d), record)[1]
    {
      ok := Commit(d.(committed := Change(d.committed, Some(record))));
    }

    method DiscardBootstrap() returns (ok: bool)
      modifies this
      ensures trace <= old(trace) + DiscardStates(old(d)) && old(trace) <= trace
      ensures ok ==> trace == old(trace) + DiscardStates(old(d)) && d == DiscardStates(old(d))[1]
    {
      var removed := d;
      if d.seed.now.Some? {
        removed := d.(seed := Change(d.seed, None));
      }
      ok := Commit(removed);
    }

    method Invalidate() returns (ok: bool)
      modifies this
      ensures trace <= old(trace) + InvalidateStates(old(d)) && old(trace) <= trace
      ensures ok ==> trace == old(trace) + InvalidateStates(old(d)) && Authority(d).None?
    {
      if d.seed.now.Some? {
        ok := Commit(d.(seed := Change(d.seed, None)));
        if !ok {
          return;
        }
      }
      if d.committed.now.Some? {
        ok := Commit(d.(committed := Change(d.committed, None)));
        if !ok {
          return;
        }
      }
      ok := Step(Sync(d));
    }
  }

  // ---------------------------------------------------------------- which crashes are harmless

  ghost predicate NeverRules(states: seq<Directory>) {
    forall i :: 0 <= i < |states| ==> !SeedMayRule(states[i])
  }

  /** Once a committed record is durable, discarding the seed cannot give the seed its authority back. */
  lemma {:induction false} DiscardNeverRules(d: Directory)
    requires Consistent(d) && !SeedMayRule(d)
    ensures NeverRules(DiscardStates(d))
  {
    var removed := DiscardStates(d)[0];
    assert forall x :: Some(x) in removed.seed.survivors ==> Some(x) in d.seed.survivors;
  }

  /** A completed write is durable: from then on only a removal of the record itself can expose the seed. */
  lemma {:induction false} WrittenNeverRules(d: Directory, record: Record)
    ensures !SeedMayRule(WriteStates(d, record)[1]) && Authority(WriteStates(d, record)[1]) == Some(record)
    ensures NeverRules(DiscardStates(WriteStates(d, record)[1]))
  {
    DiscardNeverRules(WriteStates(d, record)[1]);
  }

  /** The seed is gone from sight but not durably gone, while a committed record is in force. */
  ghost predicate RemovedNotSynced(d: Directory) {
    d.seed.now.None? && d.committed.now.Some? && exists x :: Some(x) in d.seed.survivors
  }

  /** No crash during an invalidation lets an old seed rule again exactly when the seed is not in the state
      of being removed without its removal being synced: that state skips the sync the order relies on. */
  lemma {:induction false} InvalidateExactly(d: Directory)
    requires Consistent(d) && !SeedMayRule(d)
    ensures NeverRules(InvalidateStates(d)) <==> !RemovedNotSynced(d)
  {
    var states := InvalidateStates(d);
    if RemovedNotSynced(d) {
      var x :| Some(x) in d.seed.survivors;
      assert Some(x) in states[0].seed.survivors && None in states[0].committed.survivors;
      assert SeedMayRule(states[0]);
    } else {
      forall i | 0 <= i < |states|
        ensures !SeedMayRule(states[i])
      {
        assert forall x :: Some(x) in states[i].seed.survivors ==> Some(x) in d.seed.survivors;
      }
    }
  }

  /** The state is reachable: a discard whose sync fails, an invalidation cut by a power loss, and the seed rules. */
  lemma {:induction false} OldSeedCanReturn(seed: Record, record: Record) returns (start: Directory, cut: Directory, left: Directory)
    ensures start == Directory(Slot(Some(seed), {Some(seed)}), Slot(Some(record), {Some(record)}))
    ensures cut == InvalidateStates(DiscardStates(start)[0])[0]
    ensures left.seed.now in cut.seed.survivors && left.committed.now in cut.committed.survivors
    ensures Authority(left) == Some(seed)
  {
    start := Directory(Slot(Some(seed), {Some(seed)}), Slot(Some(record), {Some(record)}));
    cut := InvalidateStates(DiscardStates(start)[0])[0];
    left := Directory(Slot(Some(seed), {Some(seed)}), Slot(None, {None}));
  }

  // ---------------------------------------------------------------- any run

  /** What may happen to the directory: an operation of which the first `steps` states are reached before it is
      cut or done, or a power loss that leaves one of the contents it may leave of each file. */
  datatype Event =
    | Written(record: Record, steps: nat)
    | Discarded(steps: nat)
    | Invalidated(steps: nat)
    | PowerLoss(seed: Option<Record>, committed: Option<Record>)

  /** The states an event goes through. */
  function StatesOf(d: Directory, e: Event): seq<Directory>
    requires Possible(d, e)
  {
    match e
    case Written(record, steps) => WriteStates(d, record)[..steps]
    case Discarded(steps) => DiscardStates(d)[..steps]
    case Invalidated(steps) => InvalidateStates(d)[..steps]
    case PowerLoss(seed, committed) => [Directory(Slot(seed, {seed}), Slot(committed, {committed}))]
  }

  predicate Possible(d: Directory, e: Event) {
    match e
    case Written(record, steps) => steps <= |WriteStates(d, record)|
    case Discarded(steps) => steps <= |DiscardStates(d)|
    case Invalidated(steps) => steps <= |InvalidateStates(d)|
    case PowerLoss(seed, committed) => seed in d.seed.survivors && committed in d.committed.survivors
  }

  function After(d: Directory, e: Event): Directory
    requires Possible(d, e)
  {
    var states := StatesOf(d, e);
    if states == [] then d else states[|states| - 1]
  }

  predicate PossibleRun(d: Directory, events: seq<Event>)
    decreases |events|
  {
    events != [] ==> Possible(d, events[0]) && PossibleRun(After(d, events[0]), events[1..])
  }

  /** A seed of the start rules, or would after a power loss, in some state of the run. */
  ghost predicate Exposed(d: Directory, events: seq<Event>)
    requires PossibleRun(d, events)
    decreases |events|
  {
    events != [] && (!NeverRules(StatesOf(d, events[0])) || Exposed(After(d, events[0]), events[1..]))
  }

  ghost predicate BeginsBadly(d: Directory, e: Event) {
    e.Invalidated? && e.steps > 0 && RemovedNotSynced(d)
  }

  /** Some invalidation of the run begins while the seed is removed without the removal being synced. */
  ghost predicate InvalidatesUnsynced(d: Directory, events: seq<Event>)
    requires PossibleRun(d, events)
    decreases |events|
  {
    events != [] && (BeginsBadly(d, events[0]) || InvalidatesUnsynced(After(d, events[0]), events[1..]))
  }

  /** No seed can rule, and what is seen is among what may be left. */
  ghost predicate Quiet(d: Directory) {
    Consistent(d) && !SeedMayRule(d)
  }

  ghost predicate AllQuiet(states: seq<Directory>) {
    forall i :: 0 <= i < |states| ==> Quiet(states[i])
  }

  lemma {:induction false} WriteIsQuiet(d: Directory, record: Record)
    requires Quiet(d)
    ensures AllQuiet(WriteStates(d, record))
  {
    var renamed := WriteStates(d, record)[0];
    assert None in renamed.committed.survivors ==> None in d.committed.survivors;
  }

  lemma {:induction false} DiscardIsQuiet(d: Directory)
    requires Quiet(d)
    ensures AllQuiet(DiscardStates(d))
  {
    DiscardNeverRules(d);
  }

  lemma {:induction false} InvalidateIsConsistent(d: Directory)
    requires Consistent(d)
    ensures forall i :: 0 <= i < |InvalidateStates(d)| ==> Consistent(InvalidateStates(d)[i])
  {
  }

  lemma {:induction false} InvalidateIsQuiet(d: Directory)
    requires Quiet(d) && !RemovedNotSynced(d)
    ensures AllQuiet(InvalidateStates(d))
  {
    InvalidateExactly(d);
    InvalidateIsConsistent(d);
  }

  lemma {:induction false} LossIsQuiet(d: Directory, seed: Option<Record>, committed: Option<Record>)
    requires Quiet(d) && seed in d.seed.survivors && committed in d.committed.survivors
    ensures Quiet(Directory(Slot(seed, {seed}), Slot(committed, {committed})))
  {
    assert committed.None? && seed.Some? ==> SeedMayRule(d);
  }

  lemma {:induction false} PrefixIsQuiet(states: seq<Directory>, k: nat)
    requires AllQuiet(states) && k <= |states|
    ensures AllQuiet(states[..k])
  {
  }

  lemma {:induction false} EventIsQuiet(d: Directory, e: Event)
    requires Quiet(d) && Possible(d, e) && !BeginsBadly(d, e)
    ensures AllQuiet(StatesOf(d, e)) && Quiet(After(d, e)) && NeverRules(StatesOf(d, e))
  {
    match e {
      case Written(record, steps) =>
        WriteIsQuiet(d, record);
        PrefixIsQuiet(WriteStates(d, record), steps);
      case Discarded(steps) =>
        DiscardIsQuiet(d);
        PrefixIsQuiet(DiscardStates(d), steps);
      case Invalidated(steps) =>
        if steps > 0 {
          InvalidateIsQuiet(d);
          PrefixIsQuiet(InvalidateStates(d), steps);
        }
      case PowerLoss(seed, committed) =>
        LossIsQuiet(d, seed, committed);
    }
  }

  lemma {:induction false} BadBeginningExposes(d: Directory, e: Event)
    requires Quiet(d) && Possible(d, e) && BeginsBadly(d, e)
    ensures !NeverRules(StatesOf(d, e))
  {
    var first := InvalidateStates(d)[0];
    var x :| Some(x) in d.seed.survivors;
    assert Some(x) in first.seed.survivors && None in first.committed.survivors;
    assert StatesOf(d, e)[0] == first && SeedMayRule(first);
  }

  /** Over any run of writes, discards and invalidations, each cut anywhere, with power losses between them: from a
      directory in which no seed can rule, a seed can rule in some state of the run if and only if some
      invalidation begins while the seed is removed and the removal is not synced. */
  lemma {:induction false} OldSeedRulesExactly(d: Directory, events: seq<Event>)
    requires Quiet(d) && PossibleRun(d, events)
    ensures Exposed(d, events) <==> InvalidatesUnsynced(d, events)
    decreases |events|
  {
    if events != [] {
      if BeginsBadly(d, events[0]) {
        BadBeginningExposes(d, events[0]);
      } else {
        EventIsQuiet(d, events[0]);
        OldSeedRulesExactly(After(d, events[0]), events[1..]);
      }
    }
  }

  /** Where a seed can rule, some power loss makes it rule; elsewhere none does. */
  lemma {:induction false} RulesAfterLoss(d: Directory)
    ensures SeedMayRule(d) <==>
            exists seed, committed :: Possible(d, PowerLoss(seed, committed)) && Rules(seed, committed)
  {
    if SeedMayRule(d) {
      var x :| Some(x) in d.seed.survivors;
      assert Possible(d, PowerLoss(Some(x), None)) && Rules(Some(x), None);
    }
  }

  /** The seed is what recovery reads. */
  predicate Rules(seed: Option<Record>, committed: Option<Record>) {
    committed.None? && seed.Some?
  }

  /** A fresh installation refuses a directory that holds any authority. */
  method CheckFreshDirectory(d: Directory) returns (ok: bool)
    ensures ok <==> Authority(d).None?
  {
    if d.committed.now.Some? {
      return false;
    }
    if d.seed.now.Some? {
      return false;
    }
    return true;
  }
}

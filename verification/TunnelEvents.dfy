/** Confirming tunnel state changes and limiting the messages about them (internal/api/notify_events.go). */
module TunnelEvents {
  import opened Options

  const CONFIRM_CHECKS := 3
  const UNSTABLE_CHANGES := 4
  const HOUR := 3600  // both the window and the mute

  datatype Status = TunnelUp | TunnelSlow | TunnelDown | NotApplied

  datatype Event = Up | Down

  /** A slow tunnel counts as up; a tunnel that is not applied says nothing. */
  function EventFor(s: Status): Option<Event> {
    match s
    case TunnelUp => Some(Up)
    case TunnelSlow => Some(Up)
    case TunnelDown => Some(Down)
    case NotApplied => None
  }

  datatype EventState = EventState(candidate: Option<Event>, streak: nat, changes: seq<nat>, mutedTill: nat)

  const NO_STATE := EventState(None, 0, [], 0)

  datatype Kind = Ordinary | Unstable | Silent

  /** What one observation led to: a confirmed event, and what was said about it. */
  datatype Verdict = Verdict(confirmed: Option<Event>, message: Option<Kind>)

  /** A counted change and what was said about it. */
  datatype Mark = Mark(time: nat, kind: Kind)

  // ---------------------------------------------------------------- the marks of a run

  /** Times of the marks later than `edge`. */
  function Recent(marks: seq<Mark>, edge: int): seq<nat> {
    if marks == [] then []
    else
      var last := marks[|marks| - 1];
      Recent(marks[..|marks| - 1], edge) + if last.time > edge then [last.time] else []
  }

  /** Messages of a kind in the hour from `from` on. */
  function Said(marks: seq<Mark>, kind: Kind, from: nat): nat {
    if marks == [] then 0
    else
      var last := marks[|marks| - 1];
      Said(marks[..|marks| - 1], kind, from) + if last.kind == kind && from <= last.time < from + HOUR then 1 else 0
  }

  function LastUnstable(marks: seq<Mark>): Option<nat> {
    if marks == [] then None
    else if marks[|marks| - 1].kind.Unstable? then Some(marks[|marks| - 1].time)
    else LastUnstable(marks[..|marks| - 1])
  }

  /** Marks that the limiter may produce: in time order, an ordinary message only within four changes an
      hour, a warning never within an hour of the last one. */
  predicate Limited(marks: seq<Mark>) {
    marks != [] ==>
      var front, last := marks[..|marks| - 1], marks[|marks| - 1];
      && Limited(front)
      && (front != [] ==> front[|front| - 1].time <= last.time)
      && (last.kind.Ordinary? ==> |Recent(marks, last.time - HOUR)| <= UNSTABLE_CHANGES)
      && (last.kind.Unstable? ==> LastUnstable(front).None? || LastUnstable(front).value + HOUR <= last.time)
  }

  lemma {:induction false} SaidIsRecent(marks: seq<Mark>, from: nat, now: nat)
    requires now < from + HOUR
    ensures Said(marks, Ordinary, from) <= |Recent(marks, now - HOUR)|
    decreases |marks|
  {
    if marks != [] {
      SaidIsRecent(marks[..|marks| - 1], from, now);
    }
  }

  lemma {:induction false} EarlierUnstable(marks: seq<Mark>, from: nat)
    requires Limited(marks)
    ensures Said(marks, Unstable, from) > 0 ==>
              LastUnstable(marks).Some? && from <= LastUnstable(marks).value
    decreases |marks|
  {
    if marks != [] {
      var front, last := marks[..|marks| - 1], marks[|marks| - 1];
      EarlierUnstable(front, from);
      if LastUnstable(front).Some? {
        UnstableIsEarlier(front);
      }
    }
  }

  lemma {:induction false} UnstableIsEarlier(marks: seq<Mark>)
    requires Limited(marks) && LastUnstable(marks).Some?
    ensures marks != [] && LastUnstable(marks).value <= marks[|marks| - 1].time
    decreases |marks|
  {
    if !marks[|marks| - 1].kind.Unstable? {
      UnstableIsEarlier(marks[..|marks| - 1]);
    }
  }

  /** Any hour holds at most four ordinary messages and one warning. */
  lemma {:induction false} HourlyLimit(marks: seq<Mark>, from: nat)
    requires Limited(marks)
    ensures Said(marks, Ordinary, from) <= UNSTABLE_CHANGES
    ensures Said(marks, Unstable, from) <= 1
    decreases |marks|
  {
    if marks != [] {
      var front, last := marks[..|marks| - 1], marks[|marks| - 1];
      HourlyLimit(front, from);
      if last.kind.Ordinary? && last.time < from + HOUR {
        SaidIsRecent(marks, from, last.time);
      }
      EarlierUnstable(front, from);
    }
  }

  lemma {:induction false} RecentAgain(marks: seq<Mark>, edge: int, later: int)
    requires edge <= later
    ensures After(Recent(marks, edge), later) == Recent(marks, later)
    decreases |marks|
  {
    if marks != [] {
      var front, last := marks[..|marks| - 1], marks[|marks| - 1];
      RecentAgain(front, edge, later);
      var times := Recent(front, edge);
      assert (times + [last.time])[..|times|] == times;
      assert After(times + [last.time], later) == After(times, later) + if last.time > later then [last.time] else [];
      assert Recent(marks, edge) == if last.time > edge then times + [last.time] else times;
    }
  }

  function After(times: seq<nat>, edge: int): seq<nat> {
    if times == [] then []
    else
      After(times[..|times| - 1], edge) + if times[|times| - 1] > edge then [times[|times| - 1]] else []
  }

  /** Keeps the marks inside the window. */
  method PruneBefore(times: seq<nat>, edge: int) returns (out: seq<nat>)
    ensures out == After(times, edge)
  {
    out := [];
    for i := 0 to |times|
      invariant out == After(times[..i], edge)
    {
      assert times[..i + 1][..i] == times[..i];
      if times[i] > edge {
        out := out + [times[i]];
      }
    }
    assert times[..|times|] == times;
  }

  // ---------------------------------------------------------------- one tunnel

  /** How many of the last observations agree with the last one. */
  function Agreeing(seen: seq<Option<Event>>): nat {
    if seen == [] || seen[|seen| - 1].None? then 0
    else if |seen| > 1 && seen[|seen| - 2] == seen[|seen| - 1] then Agreeing(seen[..|seen| - 1]) + 1
    else 1
  }

  /** The confirmation of a tunnel after what was seen of it. */
  predicate StreakHolds(st: EventState, seen: seq<Option<Event>>) {
    st.candidate == (if seen == [] then None else seen[|seen| - 1]) && st.streak == Agreeing(seen)
  }

  /** The counted changes of a tunnel after the marks it led to, up to `now`. */
  predicate ChangesHold(st: EventState, marks: seq<Mark>, now: nat) {
    && Limited(marks) && (marks != [] ==> marks[|marks| - 1].time <= now)
    && st.changes == Recent(marks, LastEdge(marks))
    && st.mutedTill == (if LastUnstable(marks).Some? then LastUnstable(marks).value + HOUR else 0)
  }

  function LastEdge(marks: seq<Mark>): int {
    if marks == [] then -HOUR else marks[|marks| - 1].time - HOUR
  }

  predicate Reflects(st: EventState, seen: seq<Option<Event>>, marks: seq<Mark>, now: nat) {
    StreakHolds(st, seen) && ChangesHold(st, marks, now)
  }

  lemma {:induction false} SeenSnoc(seen: seq<Option<Event>>, got: Option<Event>)
    ensures Agreeing(seen + [got]) ==
            if got.None? then 0
            else if seen != [] && seen[|seen| - 1] == got then Agreeing(seen) + 1
            else 1
  {
    assert (seen + [got])[..|seen|] == seen;
  }

  lemma {:induction false} ThreeAgree(seen: seq<Option<Event>>)
    requires Agreeing(seen) >= CONFIRM_CHECKS
    ensures |seen| >= 3 && seen[|seen| - 1] == seen[|seen| - 2] == seen[|seen| - 3] && seen[|seen| - 1].Some?
  {
    assert Agreeing(seen[..|seen| - 1]) >= 2;
    assert |seen| > 1;
  }

  /** One more counted change. */
  lemma {:induction false} MarkKeeps(marks: seq<Mark>, now: nat, kind: Kind)
    requires Limited(marks) && (marks != [] ==> marks[|marks| - 1].time <= now)
    requires kind.Ordinary? ==> |Recent(marks, now - HOUR)| < UNSTABLE_CHANGES
    requires kind.Unstable? ==> LastUnstable(marks).None? || LastUnstable(marks).value + HOUR <= now
    ensures var next := marks + [Mark(now, kind)];
            && Limited(next) && Recent(next, now - HOUR) == Recent(marks, now - HOUR) + [now]
            && LastUnstable(next) == if kind.Unstable? then Some(now) else LastUnstable(marks)
  {
    var next := marks + [Mark(now, kind)];
    assert next[..|marks|] == marks;
  }

  /** Counts a confirmed change and decides what is said about it. */
  method CountChange(st: EventState, now: nat, ghost marks: seq<Mark>, ghost clock: nat) returns (next: EventState, kind: Kind)
    requires ChangesHold(st, marks, clock) && clock <= now
    ensures ChangesHold(next, marks + [Mark(now, kind)], now)
    ensures next.candidate == st.candidate && next.streak == st.streak
    ensures kind.Ordinary? <==> |Recent(marks, now - HOUR)| < UNSTABLE_CHANGES
  {
    var kept := PruneBefore(st.changes, now - HOUR);
    RecentAgain(marks, LastEdge(marks), now - HOUR);
    next := st.(changes := kept + [now]);
    kind := Ordinary;
    if |next.changes| > UNSTABLE_CHANGES {
      if now < next.mutedTill {
        kind := Silent;
      } else {
        next := next.(mutedTill := now + HOUR);
        kind := Unstable;
      }
    }
    MarkKeeps(marks, now, kind);
  }

  /** What a decision may be: a message needs confirmation and news, and every mark stands for one decision. */
  predicate Decided(got: Option<Event>, notified: Option<Event>, agreeing: nat, now: nat, v: Verdict,
                    before: seq<Mark>, after: seq<Mark>) {
    && (v.confirmed.Some? <==> agreeing >= CONFIRM_CHECKS)
    && (v.confirmed.Some? ==> v.confirmed == got)
    && (after == before + [Mark(now, if v.message.Some? then v.message.value else Silent)] <==>
          v.confirmed.Some? && got != notified && !(notified.None? && got == Some(Up)))
    && (v.message.Some? ==> v.message.value != Silent && after != before)
    && (after == before || after == before + [Mark(now, if v.message.Some? then v.message.value else Silent)])
  }

  /** The decision for one tunnel. */
  method Judge(st: EventState, got: Option<Event>, notified: Option<Event>, now: nat,
               ghost seen: seq<Option<Event>>, ghost marks: seq<Mark>, ghost clock: nat)
    returns (next: EventState, v: Verdict, ghost told: seq<Mark>)
    requires Reflects(st, seen, marks, clock) && clock <= now
    ensures Reflects(next, seen + [got], told, now)
    ensures Decided(got, notified, Agreeing(seen + [got]), now, v, marks, told)
  {
    next, told := st, marks;
    SeenSnoc(seen, got);
    if got.None? {
      next := next.(candidate := None, streak := 0);
      return next, Verdict(None, None), told;
    }
    if got == next.candidate {
      next := next.(streak := next.streak + 1);
    } else {
      next := next.(candidate := got, streak := 1);
    }
    if next.streak < CONFIRM_CHECKS {
      return next, Verdict(None, None), told;
    }
    if got == notified {
      return next, Verdict(got, None), told;
    }
    if notified.None? && got == Some(Up) {
      return next, Verdict(got, None), told;
    }
    var kind: Kind;
    next, kind := CountChange(next, now, marks, clock);
    told := marks + [Mark(now, kind)];
    v := Verdict(got, if kind.Silent? then None else Some(kind));
  }

  type Seen = seq<Option<Event>>

  ghost predicate AllReflect(state: map<string, EventState>, seen: map<string, Seen>, marks: map<string, seq<Mark>>, now: nat) {
    && seen.Keys == marks.Keys == state.Keys
    && forall id :: id in state ==> Reflects(state[id], seen[id], marks[id], now)
  }

  lemma {:induction false} OneMore(state: map<string, EventState>, seen: map<string, Seen>, marks: map<string, seq<Mark>>, before: nat,
                                   id: string, st: EventState, s: Seen, m: seq<Mark>, now: nat)
    requires AllReflect(state, seen, marks, before) && before <= now && Reflects(st, s, m, now)
    ensures AllReflect(state[id := st], seen[id := s], marks[id := m], now)
  {
    forall other | other in state
      ensures Reflects(state[other], seen[other], marks[other], now)
    {
    }
  }

  class Events {
    var state: map<string, EventState>
    ghost var seen: map<string, Seen>
    ghost var marks: map<string, seq<Mark>>
    ghost var clock: nat

    constructor ()
      ensures Valid() && clock == 0 && state == map[]
    {
      state, seen, marks, clock := map[], map[], map[], 0;
    }

    ghost predicate Valid()
      reads this
    {
      AllReflect(state, seen, marks, clock)
    }

    ghost function SeenOf(id: string): Seen
      reads this
    {
      if id in seen then seen[id] else []
    }

    ghost function MarksOf(id: string): seq<Mark>
      reads this
    {
      if id in marks then marks[id] else []
    }

    /** Keeps what a check led to. */
    method Keep(id: string, next: EventState, ghost s: Seen, ghost told: seq<Mark>, ghost now: nat)
      requires Valid() && clock <= now && Reflects(next, s, told, now)
      modifies this
      ensures Valid() && clock == now
      ensures state == old(state)[id := next] && seen == old(seen)[id := s] && marks == old(marks)[id := told]
    {
      OneMore(state, seen, marks, clock, id, next, s, told, now);
      state, seen, marks, clock := state[id := next], seen[id := s], marks[id := told], now;
    }

    /** What is known of a tunnel agrees with what was seen of it. */
    ghost predicate Known(id: string, st: EventState)
      reads this
    {
      st == if id in state then state[id] else NO_STATE
    }

    lemma {:induction false} KnownReflects(id: string, st: EventState)
      requires Valid() && Known(id, st)
      ensures Reflects(st, SeenOf(id), MarksOf(id), clock)
    {
    }

    /** Takes the result of one check. Changes are counted whether or not anything is said. */
    method Observe(id: string, status: Status, notified: Option<Event>, now: nat) returns (v: Verdict)
      requires Valid() && clock <= now
      modifies this
      ensures Valid() && clock == now
      ensures SeenOf(id) == old(SeenOf(id)) + [EventFor(status)]
      ensures Decided(EventFor(status), notified, Agreeing(SeenOf(id)), now, v, old(MarksOf(id)), MarksOf(id))
      ensures state.Keys == old(state).Keys + {id} && state == old(state)[id := state[id]] && marks == old(marks)[id := marks[id]]
    {
      var st := if id in state then state[id] else NO_STATE;
      KnownReflects(id, st);
      ghost var s, m := SeenOf(id), MarksOf(id);
      var next: EventState;
      ghost var told: seq<Mark>;
      next, v, told := Judge(st, EventFor(status), notified, now, s, m, clock);
      Keep(id, next, s + [EventFor(status)], told, now);
    }
  }

  /** A message follows three checks in a row that agree on its event. */
  lemma {:induction false} MessageIsConfirmed(got: Option<Event>, notified: Option<Event>, seen: Seen, now: nat, v: Verdict,
                                              before: seq<Mark>, after: seq<Mark>)
    requires Decided(got, notified, Agreeing(seen + [got]), now, v, before, after) && v.message.Some?
    ensures |seen| >= 2 && got.Some? && seen[|seen| - 1] == seen[|seen| - 2] == got && got != notified
  {
    ThreeAgree(seen + [got]);
    assert after != before;
  }

  /** Whatever the run, any hour holds at most four ordinary messages and one warning about a tunnel. */
  lemma {:induction false} LimitHolds(e: Events, id: string, from: nat)
    requires e.Valid()
    ensures Said(e.MarksOf(id), Ordinary, from) <= UNSTABLE_CHANGES && Said(e.MarksOf(id), Unstable, from) <= 1
  {
    HourlyLimit(e.MarksOf(id), from);
  }
}

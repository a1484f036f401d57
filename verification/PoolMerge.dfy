/** Merging a stored server pool with a fresh crawl of its catalogue (internal/lists/pool.go). */
module PoolMerge {
  import opened Options
  import Sorting

  const WINDOW := 64
  const MISSES_BEFORE_DROP := 3

  datatype Server = Server(url: string, country: string, title: string, ping: int, misses: nat)

  /** Whether a server with this title and URL may be in a pool; a verdict looks at nothing else. */
  type Filter = (string, string) -> bool

  predicate Allowed(filter: Filter, s: Server) {
    filter(s.title, s.url)
  }

  // ---------------------------------------------------------------- order of candidates

  /** An unknown ping ranks below every known one. */
  function PingRank(ping: int): int {
    if ping <= 0 then 0x4000_0000 else ping
  }

  predicate Better(x: Server, y: Server) {
    PingRank(x.ping) < PingRank(y.ping) || (PingRank(x.ping) == PingRank(y.ping) && Sorting.TextLess(x.url, y.url))
  }

  predicate Sorted(ss: seq<Server>) {
    |ss| > 1 ==> !Better(ss[1], ss[0]) && Sorted(ss[1..])
  }

  function InsertServer(s: Server, ss: seq<Server>): seq<Server> {
    if ss == [] || Better(s, ss[0]) then [s] + ss else [ss[0]] + InsertServer(s, ss[1..])
  }

  /** Library sort by `Better`. */
  function SortServers(ss: seq<Server>): seq<Server> {
    if ss == [] then [] else InsertServer(ss[0], SortServers(ss[1..]))
  }

  lemma {:induction false} InsertSorted(s: Server, ss: seq<Server>)
    requires Sorted(ss)
    ensures Sorted(InsertServer(s, ss))
    ensures InsertServer(s, ss)[0] == s || (ss != [] && InsertServer(s, ss)[0] == ss[0])
    decreases |ss|
  {
    if ss == [] {
    } else if Better(s, ss[0]) {
      Sorting.TextOrder(s.url, ss[0].url);
      assert ([s] + ss)[1..] == ss;
    } else {
      InsertSorted(s, ss[1..]);
      assert ([ss[0]] + InsertServer(s, ss[1..]))[1..] == InsertServer(s, ss[1..]);
    }
  }

  lemma {:induction false} SortSorted(ss: seq<Server>)
    ensures Sorted(SortServers(ss))
    decreases |ss|
  {
    if ss != [] {
      SortSorted(ss[1..]);
      InsertSorted(ss[0], SortServers(ss[1..]));
    }
  }

  lemma {:induction false} SortOfSorted(ss: seq<Server>)
    requires Sorted(ss)
    requires forall s: Server :: Occurrences(ss, s.url) <= 1
    ensures SortServers(ss) == ss
    decreases |ss|
  {
    if ss != [] {
      assert ss == [ss[0]] + ss[1..];
      forall s: Server
        ensures Occurrences(ss[1..], s.url) <= 1
      {
        OccurrencesConcat([ss[0]], ss[1..], s.url);
      }
      SortOfSorted(ss[1..]);
      if |ss| > 1 {
        Sorting.TextOrder(ss[0].url, ss[1].url);
        OccurrencesHead(ss[1..], ss[0].url);
        OccurrencesConcat([ss[0]], ss[1..], ss[0].url);
      }
    }
  }

  // ---------------------------------------------------------------- counting by URL

  function Occurrences(ss: seq<Server>, url: string): nat {
    if ss == [] then 0 else (if ss[0].url == url then 1 else 0) + Occurrences(ss[1..], url)
  }

  lemma {:induction false} OccurrencesConcat(xs: seq<Server>, ys: seq<Server>, url: string)
    ensures Occurrences(xs + ys, url) == Occurrences(xs, url) + Occurrences(ys, url)
    decreases |xs|
  {
    if xs == [] {
      assert xs + ys == ys;
    } else {
      assert (xs + ys)[1..] == xs[1..] + ys;
      OccurrencesConcat(xs[1..], ys, url);
    }
  }

  lemma {:induction false} OccurrencesHead(ss: seq<Server>, url: string)
    ensures ss != [] && ss[0].url == url ==> Occurrences(ss, url) >= 1
  {
  }

  lemma {:induction false} OccurrencesOne(s: Server, url: string)
    ensures Occurrences([s], url) == if s.url == url then 1 else 0
  {
    assert [s][1..] == [];
  }

  lemma {:induction false} InsertOccurrences(s: Server, ss: seq<Server>, url: string)
    ensures Occurrences(InsertServer(s, ss), url) == Occurrences(ss, url) + if s.url == url then 1 else 0
    ensures forall x :: x in InsertServer(s, ss) <==> x == s || x in ss
    decreases |ss|
  {
    if ss == [] {
      OccurrencesOne(s, url);
    } else if Better(s, ss[0]) {
      assert ([s] + ss)[1..] == ss;
    } else {
      InsertOccurrences(s, ss[1..], url);
      assert ([ss[0]] + InsertServer(s, ss[1..]))[1..] == InsertServer(s, ss[1..]);
      assert ss == [ss[0]] + ss[1..];
    }
  }

  lemma {:induction false} SortOccurrences(ss: seq<Server>, url: string)
    ensures Occurrences(SortServers(ss), url) == Occurrences(ss, url)
    ensures forall x :: x in SortServers(ss) <==> x in ss
    decreases |ss|
  {
    if ss != [] {
      SortOccurrences(ss[1..], url);
      InsertOccurrences(ss[0], SortServers(ss[1..]), url);
      assert ss == [ss[0]] + ss[1..];
    }
  }

  // ---------------------------------------------------------------- the parts of a merge

  /** The first card of the crawl that the filter lets through for a URL. */
  function Card(crawl: seq<Server>, filter: Filter, url: string): Option<Server> {
    if crawl == [] then None
    else
      var n := |crawl| - 1;
      var before := Card(crawl[..n], filter, url);
      if before.Some? then before
      else if crawl[n].url == url && url != "" && Allowed(filter, crawl[n]) then Some(crawl[n])
      else None
  }

  /** URLs of a list, the empty one aside. */
  function Urls(ss: seq<Server>): set<string> {
    if ss == [] then {}
    else Urls(ss[..|ss| - 1]) + if ss[|ss| - 1].url == "" then {} else {ss[|ss| - 1].url}
  }

  /** A stored record after a crawl: seen again, with empty texts filled from the card, or missed once more. */
  function Refreshed(s: Server, card: Option<Server>): Server {
    if card.Some? then
      s.(misses := 0,
         title := if s.title == "" then card.value.title else s.title,
         country := if s.country == "" then card.value.country else s.country)
    else s.(misses := s.misses + 1)
  }

  predicate Alive(s: Server, card: Option<Server>) {
    card.Some? || s.misses + 1 < MISSES_BEFORE_DROP
  }

  /** One place per stored server the filter lets through; empty when the server is gone. */
  function Places(stored: seq<Server>, crawl: seq<Server>, filter: Filter): seq<Option<Server>> {
    if stored == [] then []
    else
      var n := |stored| - 1;
      var s := stored[n];
      Places(stored[..n], crawl, filter) +
      if s.url == "" || s.url in Urls(stored[..n]) || !Allowed(filter, s) then []
      else [if Alive(s, Card(crawl, filter, s.url)) then Some(Refreshed(s, Card(crawl, filter, s.url))) else None]
  }

  function Cut(places: seq<Option<Server>>): seq<Option<Server>> {
    if |places| <= WINDOW then places else places[..WINDOW]
  }

  function Beyond(places: seq<Option<Server>>): seq<Option<Server>> {
    if |places| <= WINDOW then [] else places[WINDOW..]
  }

  function Present(places: seq<Option<Server>>): seq<Server> {
    if places == [] then []
    else
      var n := |places| - 1;
      Present(places[..n]) + if places[n].Some? then [places[n].value] else []
  }

  /** Servers of the crawl that the pool did not know. */
  function Newcomers(known: set<string>, crawl: seq<Server>, filter: Filter): seq<Server> {
    if crawl == [] then []
    else
      var n := |crawl| - 1;
      var before := Newcomers(known, crawl[..n], filter);
      if crawl[n].url == "" || crawl[n].url in known || crawl[n].url in Urls(before) || !Allowed(filter, crawl[n]) then before
      else before + [crawl[n].(misses := 0)]
  }

  function Candidates(stored: seq<Server>, crawl: seq<Server>, filter: Filter): seq<Server> {
    SortServers(Present(Beyond(Places(stored, crawl, filter))) + Newcomers(Urls(stored), crawl, filter))
  }

  /** Empty places take candidates in order, what is left follows the window. */
  function Fill(places: seq<Option<Server>>, candidates: seq<Server>): seq<Server> {
    if places == [] then candidates
    else if places[0].Some? then [places[0].value] + Fill(places[1..], candidates)
    else if candidates != [] then [candidates[0]] + Fill(places[1..], candidates[1..])
    else Fill(places[1..], [])
  }

  function Merged(stored: seq<Server>, crawl: seq<Server>, filter: Filter): seq<Server> {
    Fill(Cut(Places(stored, crawl, filter)), Candidates(stored, crawl, filter))
  }

  // ---------------------------------------------------------------- the merge

  /** The first card by URL, as a map. */
  ghost predicate IndexesCards(cards: map<string, Server>, crawl: seq<Server>, filter: Filter) {
    forall url: string :: CardAt(cards, url) == Card(crawl, filter, url)
  }

  function CardAt(cards: map<string, Server>, url: string): Option<Server> {
    if url in cards then Some(cards[url]) else None
  }

  lemma {:induction false} IndexSnoc(cards: map<string, Server>, crawl: seq<Server>, s: Server, filter: Filter)
    requires IndexesCards(cards, crawl, filter)
    ensures IndexesCards(if s.url != "" && Allowed(filter, s) && s.url !in cards then cards[s.url := s] else cards,
                         crawl + [s], filter)
  {
    assert (crawl + [s])[..|crawl|] == crawl;
    assert CardAt(cards, s.url) == Card(crawl, filter, s.url);
    forall url: string
      ensures CardAt(if s.url != "" && Allowed(filter, s) && s.url !in cards then cards[s.url := s] else cards, url)
           == Card(crawl + [s], filter, url)
    {
      assert CardAt(cards, url) == Card(crawl, filter, url);
    }
  }

  method IndexCards(crawl: seq<Server>, filter: Filter) returns (cards: map<string, Server>)
    ensures IndexesCards(cards, crawl, filter)
  {
    cards := map[];
    for i := 0 to |crawl|
      invariant IndexesCards(cards, crawl[..i], filter)
    {
      IndexSnoc(cards, crawl[..i], crawl[i], filter);
      assert crawl[..i + 1] == crawl[..i] + [crawl[i]];
      if crawl[i].url != "" && Allowed(filter, crawl[i]) {
        if crawl[i].url !in cards {
          cards := cards[crawl[i].url := crawl[i]];
        }
      }
    }
    assert crawl[..|crawl|] == crawl;
  }

  lemma {:induction false} CutSnoc(places: seq<Option<Server>>, x: Option<Server>)
    ensures Cut(places + [x]) == if |places| < WINDOW then places + [x] else Cut(places)
    ensures Present(Beyond(places + [x])) ==
            Present(Beyond(places)) + if |places| >= WINDOW && x.Some? then [x.value] else []
  {
    if |places| >= WINDOW {
      assert (places + [x])[WINDOW..] == places[WINDOW..] + [x];
      assert (places[WINDOW..] + [x])[..|places| - WINDOW] == places[WINDOW..];
    }
  }

  /** Window and waiting servers after one more stored record. */
  lemma {:induction false} SurveyStep(stored: seq<Server>, i: nat, crawl: seq<Server>, filter: Filter)
    requires i < |stored|
    ensures Urls(stored[..i + 1]) == Urls(stored[..i]) + if stored[i].url == "" then {} else {stored[i].url}
    ensures var before, after := Places(stored[..i], crawl, filter), Places(stored[..i + 1], crawl, filter);
            var s, card := stored[i], Card(crawl, filter, stored[i].url);
            if s.url == "" || s.url in Urls(stored[..i]) || !Allowed(filter, s) then
              Cut(after) == Cut(before) && Present(Beyond(after)) == Present(Beyond(before))
            else
              var place := if Alive(s, card) then Some(Refreshed(s, card)) else None;
              && Cut(after) == (if |Cut(before)| < WINDOW then Cut(before) + [place] else Cut(before))
              && Present(Beyond(after)) ==
                   Present(Beyond(before)) + if |Cut(before)| >= WINDOW && place.Some? then [place.value] else []
  {
    assert stored[..i + 1][..i] == stored[..i];
    var before, s, card := Places(stored[..i], crawl, filter), stored[i], Card(crawl, filter, stored[i].url);
    if s.url == "" || s.url in Urls(stored[..i]) || !Allowed(filter, s) {
      assert Places(stored[..i + 1], crawl, filter) == before + [] == before;
    } else {
      CutSnoc(before, if Alive(s, card) then Some(Refreshed(s, card)) else None);
    }
  }

  /** One stored record against the crawl. */
  method Refresh(stored: Server, crawl: seq<Server>, filter: Filter, cards: map<string, Server>) returns (s: Server, alive: bool)
    requires IndexesCards(cards, crawl, filter)
    ensures s == Refreshed(stored, Card(crawl, filter, stored.url))
    ensures alive == Alive(stored, Card(crawl, filter, stored.url))
  {
    assert CardAt(cards, stored.url) == Card(crawl, filter, stored.url);
    s, alive := stored, true;
    if s.url in cards {
      s := s.(misses := 0);
      if s.title == "" {
        s := s.(title := cards[s.url].title);
      }
      if s.country == "" {
        s := s.(country := cards[s.url].country);
      }
    } else {
      s := s.(misses := s.misses + 1);
      alive := s.misses < MISSES_BEFORE_DROP;
    }
  }

  /** Walks the stored pool: the window with its freed places, and the servers waiting beyond it. */
  method Survey(stored: seq<Server>, crawl: seq<Server>, filter: Filter, cards: map<string, Server>)
    returns (window: seq<Option<Server>>, waiting: seq<Server>, known: set<string>)
    requires IndexesCards(cards, crawl, filter)
    ensures window == Cut(Places(stored, crawl, filter))
    ensures waiting == Present(Beyond(Places(stored, crawl, filter)))
    ensures known == Urls(stored)
  {
    window, waiting, known := [], [], {};
    for i := 0 to |stored|
      invariant window == Cut(Places(stored[..i], crawl, filter))
      invariant waiting == Present(Beyond(Places(stored[..i], crawl, filter)))
      invariant known == Urls(stored[..i])
    {
      SurveyStep(stored, i, crawl, filter);
      if stored[i].url == "" || stored[i].url in known {
        continue;
      }
      known := known + {stored[i].url};
      if !Allowed(filter, stored[i]) {
        continue;
      }
      var s, alive := Refresh(stored[i], crawl, filter, cards);
      if |window| < WINDOW {
        if alive {
          window := window + [Some(s)];
        } else {
          window := window + [None];
        }
        continue;
      }
      if alive {
        waiting := waiting + [s];
      }
    }
    assert stored[..|stored|] == stored;
  }

  method CollectNew(known: set<string>, crawl: seq<Server>, filter: Filter) returns (out: seq<Server>)
    ensures out == Newcomers(known, crawl, filter)
  {
    out := [];
    var seen: set<string> := {};
    for i := 0 to |crawl|
      invariant out == Newcomers(known, crawl[..i], filter) && seen == Urls(out)
    {
      var s := crawl[i];
      assert crawl[..i + 1][..i] == crawl[..i];
      if s.url == "" || s.url in known || s.url in seen || !Allowed(filter, s) {
        continue;
      }
      seen := seen + {s.url};
      assert (out + [s.(misses := 0)])[..|out|] == out;
      out := out + [s.(misses := 0)];
    }
    assert crawl[..|crawl|] == crawl;
  }

  /** The same list, record by record. */
  method SamePool(a: seq<Server>, b: seq<Server>) returns (same: bool)
    ensures same == (a == b)
  {
    if |a| != |b| {
      return false;
    }
    for i := 0 to |a|
      invariant a[..i] == b[..i]
    {
      if a[i] != b[i] {
        return false;
      }
      assert a[..i + 1] == a[..i] + [a[i]] && b[..i + 1] == b[..i] + [b[i]];
    }
    assert a[..|a|] == a && b[..|b|] == b;
    return true;
  }

  lemma {:induction false} FillStep(done: seq<Server>, places: seq<Option<Server>>, i: nat, candidates: seq<Server>, next: nat)
    requires i < |places| && next <= |candidates|
    ensures done + Fill(places[i..], candidates[next..]) ==
            if places[i].Some? then (done + [places[i].value]) + Fill(places[i + 1..], candidates[next..])
            else if next < |candidates| then (done + [candidates[next]]) + Fill(places[i + 1..], candidates[next + 1..])
            else done + Fill(places[i + 1..], candidates[next..])
  {
    assert places[i..][1..] == places[i + 1..];
    if next < |candidates| {
      assert candidates[next..][1..] == candidates[next + 1..];
    }
  }

  method MergePool(stored: seq<Server>, crawl: seq<Server>, filter: Filter) returns (merged: seq<Server>, changed: bool)
    ensures merged == Merged(stored, crawl, filter) && changed == (merged != stored)
  {
    var cards := IndexCards(crawl, filter);
    var window, waiting, known := Survey(stored, crawl, filter, cards);
    var newcomers := CollectNew(known, crawl, filter);
    var candidates := SortServers(waiting + newcomers);
    var next := 0;
    merged := [];
    assert window[0..] == window && candidates[0..] == candidates;
    for i := 0 to |window|
      invariant 0 <= next <= |candidates|
      invariant merged + Fill(window[i..], candidates[next..]) == Fill(window, candidates)
    {
      FillStep(merged, window, i, candidates, next);
      if window[i].Some? {
        merged := merged + [window[i].value];
        continue;
      }
      if next < |candidates| {
        merged := merged + [candidates[next]];
        next := next + 1;
      }
    }
    merged := merged + candidates[next..];
    var same := SamePool(stored, merged);
    changed := !same;
  }
}

/** What merging a pool guarantees: for one merge, for a repeated merge, and over any sequence of crawls
    (internal/lists/pool.go). */
module PoolLaws {
  import opened Options
  import opened PoolMerge

  // ---------------------------------------------------------------- what a merge holds

  /** The stored record that stands for a URL: the first one. */
  function FirstStored(stored: seq<Server>, url: string): Option<Server> {
    if stored == [] || url == "" then None
    else
      var before := FirstStored(stored[..|stored| - 1], url);
      if before.Some? then before
      else if stored[|stored| - 1].url == url then Some(stored[|stored| - 1])
      else None
  }

  /** The record a merge must hold for a URL, if any: a stored server that is allowed and not gone,
      or an allowed server of the crawl that was not stored. */
  function Expected(stored: seq<Server>, crawl: seq<Server>, filter: Filter, url: string): Option<Server> {
    var record, card := FirstStored(stored, url), Card(crawl, filter, url);
    if record.Some? then
      if Allowed(filter, record.value) && Alive(record.value, card) then Some(Refreshed(record.value, card)) else None
    else if card.Some? then Some(card.value.(misses := 0))
    else None
  }

  function One(b: bool): nat {
    if b then 1 else 0
  }

  lemma {:induction false} UrlsAreStored(stored: seq<Server>, url: string)
    ensures url in Urls(stored) <==> FirstStored(stored, url).Some?
    decreases |stored|
  {
    if stored != [] {
      UrlsAreStored(stored[..|stored| - 1], url);
    }
  }

  lemma {:induction false} CardUrl(crawl: seq<Server>, filter: Filter, url: string)
    ensures var card := Card(crawl, filter, url);
            card.Some? ==> url != "" && card.value.url == url && Allowed(filter, card.value)
    decreases |crawl|
  {
    if crawl != [] {
      CardUrl(crawl[..|crawl| - 1], filter, url);
    }
  }

  lemma {:induction false} StoredUrl(stored: seq<Server>, url: string)
    ensures FirstStored(stored, url).Some? ==> url != "" && FirstStored(stored, url).value.url == url
    decreases |stored|
  {
    if stored != [] {
      StoredUrl(stored[..|stored| - 1], url);
    }
  }

  lemma {:induction false} PresentConcat(xs: seq<Option<Server>>, ys: seq<Option<Server>>)
    ensures Present(xs + ys) == Present(xs) + Present(ys)
    decreases |ys|
  {
    if ys == [] {
      assert xs + ys == xs;
    } else {
      var n := |ys| - 1;
      assert (xs + ys)[..|xs| + n] == xs + ys[..n];
      PresentConcat(xs, ys[..n]);
    }
  }

  lemma {:induction false} PresentOne(x: Option<Server>)
    ensures Present([x]) == if x.Some? then [x.value] else []
  {
    assert [x][..0] == [];
  }

  lemma {:induction false} CutAndBeyond(places: seq<Option<Server>>)
    ensures Present(places) == Present(Cut(places)) + Present(Beyond(places))
  {
    if |places| > WINDOW {
      assert places == places[..WINDOW] + places[WINDOW..];
      PresentConcat(places[..WINDOW], places[WINDOW..]);
    }
  }

  /** The stored part of `Expected`. */
  predicate Survives(stored: seq<Server>, crawl: seq<Server>, filter: Filter, url: string) {
    var record := FirstStored(stored, url);
    record.Some? && Allowed(filter, record.value) && Alive(record.value, Card(crawl, filter, url))
  }

  /** The survivors among the first records, and the last record if it survives. */
  lemma {:induction false} LastSurvivor(stored: seq<Server>, crawl: seq<Server>, filter: Filter)
    requires stored != []
    ensures var n := |stored| - 1; var s, card := stored[n], Card(crawl, filter, stored[n].url);
            Present(Places(stored, crawl, filter)) == Present(Places(stored[..n], crawl, filter)) +
            if s.url != "" && FirstStored(stored[..n], s.url).None? && Allowed(filter, s) && Alive(s, card)
            then [Refreshed(s, card)] else []
  {
    var n := |stored| - 1;
    var s, card := stored[n], Card(crawl, filter, stored[n].url);
    var before := Places(stored[..n], crawl, filter);
    UrlsAreStored(stored[..n], s.url);
    if s.url == "" || s.url in Urls(stored[..n]) || !Allowed(filter, s) {
      assert Places(stored, crawl, filter) == before;
    } else {
      var place := if Alive(s, card) then Some(Refreshed(s, card)) else None;
      PresentConcat(before, [place]);
      PresentOne(place);
    }
  }

  lemma {:induction false} SurvivorsCounted(stored: seq<Server>, crawl: seq<Server>, filter: Filter, url: string)
    ensures Occurrences(Present(Places(stored, crawl, filter)), url) == One(Survives(stored, crawl, filter, url))
    decreases |stored|
  {
    if stored != [] {
      var n := |stored| - 1;
      var s, card := stored[n], Card(crawl, filter, stored[n].url);
      var before := Present(Places(stored[..n], crawl, filter));
      SurvivorsCounted(stored[..n], crawl, filter, url);
      LastSurvivor(stored, crawl, filter);
      OccurrencesConcat(before, [Refreshed(s, card)], url);
      OccurrencesOne(Refreshed(s, card), url);
      assert before + [] == before;
    }
  }

  lemma {:induction false} SurvivorsExpected(stored: seq<Server>, crawl: seq<Server>, filter: Filter, x: Server)
    requires x in Present(Places(stored, crawl, filter))
    ensures FirstStored(stored, x.url).Some? && Expected(stored, crawl, filter, x.url) == Some(x)
    decreases |stored|
  {
    var front, s := stored[..|stored| - 1], stored[|stored| - 1];
    LastSurvivor(stored, crawl, filter);
    if x in Present(Places(front, crawl, filter)) {
      SurvivorsExpected(front, crawl, filter, x);
      assert FirstStored(stored, x.url) == FirstStored(front, x.url);
    } else {
      assert x == Refreshed(s, Card(crawl, filter, s.url));
      assert FirstStored(stored, x.url) == Some(s);
    }
  }

  lemma {:induction false} NewcomersCounted(known: set<string>, crawl: seq<Server>, filter: Filter, url: string)
    ensures Occurrences(Newcomers(known, crawl, filter), url) == One(url !in known && Card(crawl, filter, url).Some?)
    ensures url in Urls(Newcomers(known, crawl, filter)) <==> url !in known && Card(crawl, filter, url).Some?
    decreases |crawl|
  {
    if crawl != [] {
      var n := |crawl| - 1;
      var before := Newcomers(known, crawl[..n], filter);
      var s := crawl[n];
      NewcomersCounted(known, crawl[..n], filter, url);
      CardUrl(crawl[..n], filter, url);
      if !(s.url == "" || s.url in known || s.url in Urls(before) || !Allowed(filter, s)) {
        var added := s.(misses := 0);
        OccurrencesConcat(before, [added], url);
        OccurrencesOne(added, url);
        assert (before + [added])[..|before|] == before;
      }
    }
  }

  lemma {:induction false} NewcomersAreCards(known: set<string>, crawl: seq<Server>, filter: Filter, x: Server)
    requires x in Newcomers(known, crawl, filter)
    ensures x.url !in known && Card(crawl, filter, x.url).Some? && x == Card(crawl, filter, x.url).value.(misses := 0)
    decreases |crawl|
  {
    var n := |crawl| - 1;
    var before := Newcomers(known, crawl[..n], filter);
    if x in before {
      NewcomersAreCards(known, crawl[..n], filter, x);
    } else {
      NewcomersCounted(known, crawl[..n], filter, x.url);
    }
  }

  lemma {:induction false} FillCounted(places: seq<Option<Server>>, candidates: seq<Server>, url: string)
    ensures Occurrences(Fill(places, candidates), url) == Occurrences(Present(places), url) + Occurrences(candidates, url)
    decreases |places|
  {
    if places != [] {
      var rest := places[1..];
      assert places == [places[0]] + rest;
      PresentConcat([places[0]], rest);
      PresentOne(places[0]);
      OccurrencesConcat(Present([places[0]]), Present(rest), url);
      if places[0].Some? {
        FillCounted(rest, candidates, url);
        OccurrencesConcat([places[0].value], Fill(rest, candidates), url);
      } else if candidates != [] {
        FillCounted(rest, candidates[1..], url);
        OccurrencesConcat([candidates[0]], Fill(rest, candidates[1..]), url);
        OccurrencesOne(candidates[0], url);
      } else {
        FillCounted(rest, [], url);
      }
    }
  }

  lemma {:induction false} FillHolds(places: seq<Option<Server>>, candidates: seq<Server>, x: Server)
    requires x in Fill(places, candidates)
    ensures x in Present(places) || x in candidates
    decreases |places|
  {
    if places != [] {
      var rest := places[1..];
      assert places == [places[0]] + rest;
      PresentConcat([places[0]], rest);
      PresentOne(places[0]);
      if places[0].Some? {
        if x != places[0].value {
          FillHolds(rest, candidates, x);
        }
      } else if candidates != [] {
        if x != candidates[0] {
          FillHolds(rest, candidates[1..], x);
        }
      } else {
        FillHolds(rest, [], x);
      }
    }
  }

  /** A merge holds each URL at most once, and holds exactly the URLs it must: allowed stored servers
      that are not gone and allowed servers of the crawl that were not stored. */
  lemma {:induction false} MergedUrls(stored: seq<Server>, crawl: seq<Server>, filter: Filter, url: string)
    ensures Occurrences(Merged(stored, crawl, filter), url) == One(Expected(stored, crawl, filter, url).Some?)
  {
    var places := Places(stored, crawl, filter);
    var newcomers := Newcomers(Urls(stored), crawl, filter);
    var waiting := Present(Beyond(places));
    FillCounted(Cut(places), Candidates(stored, crawl, filter), url);
    SortOccurrences(waiting + newcomers, url);
    OccurrencesConcat(waiting, newcomers, url);
    CutAndBeyond(places);
    OccurrencesConcat(Present(Cut(places)), waiting, url);
    SurvivorsCounted(stored, crawl, filter, url);
    NewcomersCounted(Urls(stored), crawl, filter, url);
    UrlsAreStored(stored, url);
  }

  /** The record held for a URL is the one expected: a stored record keeps its ping and its place in the
      catalogue's texts, a new one is the first allowed card. */
  lemma {:induction false} MergedRecords(stored: seq<Server>, crawl: seq<Server>, filter: Filter, x: Server)
    requires x in Merged(stored, crawl, filter)
    ensures Expected(stored, crawl, filter, x.url) == Some(x)
  {
    var places := Places(stored, crawl, filter);
    var newcomers := Newcomers(Urls(stored), crawl, filter);
    FillHolds(Cut(places), Candidates(stored, crawl, filter), x);
    SortOccurrences(Present(Beyond(places)) + newcomers, x.url);
    CutAndBeyond(places);
    if x in Present(places) {
      SurvivorsExpected(stored, crawl, filter, x);
    } else {
      NewcomersAreCards(Urls(stored), crawl, filter, x);
      UrlsAreStored(stored, x.url);
    }
  }

  lemma {:induction false} OccursSomewhere(ss: seq<Server>, url: string)
    ensures Occurrences(ss, url) > 0 <==> exists x :: x in ss && x.url == url
    decreases |ss|
  {
    if ss != [] {
      OccursSomewhere(ss[1..], url);
      assert ss == [ss[0]] + ss[1..];
    }
  }

  /** The filter's verdict survives the filling of empty texts. */
  lemma {:induction false} ExpectedIsAllowed(stored: seq<Server>, crawl: seq<Server>, filter: Filter, url: string)
    ensures var x := Expected(stored, crawl, filter, url);
            x.Some? ==> url != "" && x.value.url == url && Allowed(filter, x.value) && x.value.misses < MISSES_BEFORE_DROP
  {
    CardUrl(crawl, filter, url);
    StoredUrl(stored, url);
  }

  // ---------------------------------------------------------------- order and places

  /** The servers of a list outside a set of URLs. */
  function Outside(ss: seq<Server>, urls: set<string>): seq<Server> {
    if ss == [] then []
    else (if ss[0].url in urls then [] else [ss[0]]) + Outside(ss[1..], urls)
  }

  predicate AllIn(ss: seq<Server>, urls: set<string>) {
    ss != [] ==> ss[0].url in urls && AllIn(ss[1..], urls)
  }

  predicate NoneIn(ss: seq<Server>, urls: set<string>) {
    ss != [] ==> ss[0].url !in urls && NoneIn(ss[1..], urls)
  }

  lemma {:induction false} OutsideNone(ss: seq<Server>, urls: set<string>)
    requires NoneIn(ss, urls)
    ensures Outside(ss, urls) == ss
    decreases |ss|
  {
    if ss != [] {
      OutsideNone(ss[1..], urls);
      assert ss == [ss[0]] + ss[1..];
    }
  }

  lemma {:induction false} PresentHead(places: seq<Option<Server>>)
    requires places != []
    ensures Present(places) == (if places[0].Some? then [places[0].value] else []) + Present(places[1..])
  {
    assert places == [places[0]] + places[1..];
    PresentConcat([places[0]], places[1..]);
    PresentOne(places[0]);
  }

  lemma {:induction false} OutsideHead(x: Server, ss: seq<Server>, urls: set<string>)
    ensures Outside([x] + ss, urls) == (if x.url in urls then [] else [x]) + Outside(ss, urls)
    ensures AllIn([x] + ss, urls) == (x.url in urls && AllIn(ss, urls))
  {
    assert ([x] + ss)[1..] == ss;
  }

  lemma {:induction false} FillOutside(places: seq<Option<Server>>, candidates: seq<Server>, urls: set<string>)
    requires AllIn(Present(places), urls) && NoneIn(candidates, urls)
    ensures Outside(Fill(places, candidates), urls) == candidates
    decreases |places|
  {
    if places == [] {
      OutsideNone(candidates, urls);
    } else {
      var rest := places[1..];
      PresentHead(places);
      if places[0].Some? {
        OutsideHead(places[0].value, Present(rest), urls);
        FillOutside(rest, candidates, urls);
        OutsideHead(places[0].value, Fill(rest, candidates), urls);
      } else if candidates != [] {
        assert [] + Present(rest) == Present(rest);
        FillOutside(rest, candidates[1..], urls);
        OutsideHead(candidates[0], Fill(rest, candidates[1..]), urls);
      } else {
        assert [] + Present(rest) == Present(rest);
        FillOutside(rest, [], urls);
      }
    }
  }

  /** URLs that kept their place in the window. */
  function KeptUrls(stored: seq<Server>, crawl: seq<Server>, filter: Filter): set<string> {
    set x | x in Present(Cut(Places(stored, crawl, filter))) :: x.url
  }

  lemma {:induction false} AllInByMember(ss: seq<Server>, urls: set<string>)
    requires forall x :: x in ss ==> x.url in urls
    ensures AllIn(ss, urls)
    decreases |ss|
  {
    if ss != [] {
      AllInByMember(ss[1..], urls);
    }
  }

  lemma {:induction false} NoneInByMember(ss: seq<Server>, urls: set<string>)
    requires forall x :: x in ss ==> x.url !in urls
    ensures NoneIn(ss, urls)
    decreases |ss|
  {
    if ss != [] {
      NoneInByMember(ss[1..], urls);
    }
  }

  /** Read in order, the servers at freed places and after the window are all the candidates, best first. */
  lemma {:induction false} BestCandidatesFirst(stored: seq<Server>, crawl: seq<Server>, filter: Filter)
    ensures Outside(Merged(stored, crawl, filter), KeptUrls(stored, crawl, filter)) == Candidates(stored, crawl, filter)
    ensures Sorted(Candidates(stored, crawl, filter))
  {
    var window, candidates := Cut(Places(stored, crawl, filter)), Candidates(stored, crawl, filter);
    var kept := KeptUrls(stored, crawl, filter);
    AllInByMember(Present(window), kept);
    forall x | x in candidates
      ensures x.url !in kept
    {
      if y :| y in Present(window) && y.url == x.url {
        MergedUrls(stored, crawl, filter, x.url);
        FillCounted(window, candidates, x.url);
        OccursSomewhere(Present(window), x.url);
        OccursSomewhere(candidates, x.url);
        assert false;
      }
    }
    NoneInByMember(candidates, kept);
    FillOutside(window, candidates, kept);
    SortSorted(Present(Beyond(Places(stored, crawl, filter))) + Newcomers(Urls(stored), crawl, filter));
  }

  /** Freed places among the first `i`. */
  function Freed(places: seq<Option<Server>>, i: nat): nat
    requires i <= |places|
  {
    if i == 0 then 0 else One(places[0].None?) + Freed(places[1..], i - 1)
  }

  /** How far a kept server moves up: by the freed places before it that no candidate could take. */
  function Shift(places: seq<Option<Server>>, i: nat, candidates: nat): nat
    requires i <= |places|
  {
    if Freed(places, i) > candidates then Freed(places, i) - candidates else 0
  }

  lemma {:induction false} KeptPlace(places: seq<Option<Server>>, candidates: seq<Server>, i: nat)
    requires i < |places| && places[i].Some?
    ensures var j := i - Shift(places, i, |candidates|);
            0 <= j < |Fill(places, candidates)| && Fill(places, candidates)[j] == places[i].value
    decreases |places|
  {
    if i > 0 {
      var rest := places[1..];
      if places[0].Some? {
        KeptPlace(rest, candidates, i - 1);
      } else if candidates != [] {
        KeptPlace(rest, candidates[1..], i - 1);
      } else {
        KeptPlace(rest, [], i - 1);
      }
    }
  }

  // ---------------------------------------------------------------- any number of crawls

  /** A pool whose records all have different URLs and all pass the filter. */
  predicate Clean(ss: seq<Server>, filter: Filter) {
    ss != [] ==>
      var n := |ss| - 1;
      Clean(ss[..n], filter) && ss[n].url != "" && ss[n].url !in Urls(ss[..n]) && Allowed(filter, ss[n])
  }

  lemma {:induction false} UrlsAreMembers(ss: seq<Server>, url: string)
    ensures url in Urls(ss) <==> url != "" && exists x :: x in ss && x.url == url
    decreases |ss|
  {
    if ss != [] {
      var n := |ss| - 1;
      assert ss == ss[..n] + [ss[n]];
      UrlsAreMembers(ss[..n], url);
    }
  }

  lemma {:induction false} CountedIsClean(ss: seq<Server>, filter: Filter)
    requires forall x :: x in ss ==> x.url != "" && Allowed(filter, x) && Occurrences(ss, x.url) == 1
    ensures Clean(ss, filter)
    decreases |ss|
  {
    if ss != [] {
      var n := |ss| - 1;
      assert ss == ss[..n] + [ss[n]];
      forall x | x in ss[..n]
        ensures Occurrences(ss[..n], x.url) == 1
      {
        OccurrencesConcat(ss[..n], [ss[n]], x.url);
        OccursSomewhere(ss[..n], x.url);
      }
      CountedIsClean(ss[..n], filter);
      OccurrencesConcat(ss[..n], [ss[n]], ss[n].url);
      OccurrencesOne(ss[n], ss[n].url);
      OccursSomewhere(ss[..n], ss[n].url);
      UrlsAreMembers(ss[..n], ss[n].url);
    }
  }

  /** Whatever was stored, a merge leaves a clean pool. */
  lemma {:induction false} MergedIsClean(stored: seq<Server>, crawl: seq<Server>, filter: Filter)
    ensures Clean(Merged(stored, crawl, filter), filter)
  {
    var merged := Merged(stored, crawl, filter);
    forall x | x in merged
      ensures x.url != "" && Allowed(filter, x) && Occurrences(merged, x.url) == 1
    {
      MergedRecords(stored, crawl, filter, x);
      MergedUrls(stored, crawl, filter, x.url);
      ExpectedIsAllowed(stored, crawl, filter, x.url);
    }
    CountedIsClean(merged, filter);
  }

  /** A record that stands for its URL and that the filter lets through. */
  predicate Stands(ss: seq<Server>, filter: Filter, i: nat) {
    i < |ss| && ss[i].url != "" && ss[i].url !in Urls(ss[..i]) && Allowed(filter, ss[i])
  }

  /** Number of records that stand. */
  function Rank(ss: seq<Server>, filter: Filter): nat {
    if ss == [] then 0 else Rank(ss[..|ss| - 1], filter) + One(Stands(ss, filter, |ss| - 1))
  }

  /** Every record that stands has a place, and no other record has one. */
  lemma {:induction false} PlacesAreRanks(ss: seq<Server>, crawl: seq<Server>, filter: Filter)
    ensures |Places(ss, crawl, filter)| == Rank(ss, filter)
    decreases |ss|
  {
    if ss != [] {
      PlacesAreRanks(ss[..|ss| - 1], crawl, filter);
    }
  }

  /** The rank of a record is its index exactly in a clean pool. */
  lemma {:induction false} RankOfClean(ss: seq<Server>, filter: Filter)
    ensures Rank(ss, filter) <= |ss|
    ensures Rank(ss, filter) == |ss| <==> Clean(ss, filter)
    decreases |ss|
  {
    if ss != [] {
      RankOfClean(ss[..|ss| - 1], filter);
    }
  }

  lemma {:induction false} PlacesOfPrefix(ss: seq<Server>, crawl: seq<Server>, filter: Filter, i: nat)
    requires i <= |ss|
    ensures Places(ss[..i], crawl, filter) <= Places(ss, crawl, filter)
    decreases |ss|
  {
    if i == |ss| {
      assert ss[..i] == ss;
    } else {
      var front := ss[..|ss| - 1];
      PlacesOfPrefix(front, crawl, filter, i);
      assert front[..i] == ss[..i];
    }
  }

  /** A record that stands and is not gone has the place of its rank. */
  lemma {:induction false} PlaceAtRank(ss: seq<Server>, crawl: seq<Server>, filter: Filter, i: nat)
    requires Stands(ss, filter, i) && Alive(ss[i], Card(crawl, filter, ss[i].url))
    ensures var places, k := Places(ss, crawl, filter), Rank(ss[..i], filter);
            && k < |places| && places[k] == Some(Refreshed(ss[i], Card(crawl, filter, ss[i].url)))
            && places[..k] == Places(ss[..i], crawl, filter)
  {
    PlacesAreRanks(ss[..i], crawl, filter);
    PlacesOfPrefix(ss, crawl, filter, i);
    PlacesOfPrefix(ss, crawl, filter, i + 1);
    assert ss[..i + 1][..i] == ss[..i];
  }

  /** Places that the records of a list free. */
  function FreedAmong(ss: seq<Server>, crawl: seq<Server>, filter: Filter): nat {
    Freed(Places(ss, crawl, filter), |Places(ss, crawl, filter)|)
  }

  lemma {:induction false} FreedOfPrefix(places: seq<Option<Server>>, k: nat)
    requires k <= |places|
    ensures Freed(places, k) == Freed(places[..k], k)
    decreases k
  {
    if k > 0 {
      FreedOfPrefix(places[1..], k - 1);
      assert places[..k][1..] == places[1..][..k - 1];
    }
  }

  /** What keeps record i in its slot: all records before it stand, and there are candidates for all the
      places they free. */
  predicate Holds(stored: seq<Server>, crawl: seq<Server>, filter: Filter, i: nat) {
    && i <= |stored| && Clean(stored[..i], filter)
    && FreedAmong(stored[..i], crawl, filter) <= |Candidates(stored, crawl, filter)|
  }

  /** One crawl, whatever was stored: a server of the window that is not gone never moves down, and keeps its
      slot exactly when `Holds`. */
  lemma {:induction false} WindowStep(stored: seq<Server>, crawl: seq<Server>, filter: Filter, i: nat) returns (j: nat)
    requires Stands(stored, filter, i) && Rank(stored[..i], filter) < WINDOW
    requires Alive(stored[i], Card(crawl, filter, stored[i].url))
    ensures j <= Rank(stored[..i], filter) <= i && (j == i <==> Holds(stored, crawl, filter, i))
    ensures j < |Merged(stored, crawl, filter)|
    ensures Merged(stored, crawl, filter)[j] == Refreshed(stored[i], Card(crawl, filter, stored[i].url))
  {
    var places, k := Places(stored, crawl, filter), Rank(stored[..i], filter);
    var window, candidates := Cut(places), Candidates(stored, crawl, filter);
    PlaceAtRank(stored, crawl, filter, i);
    RankOfClean(stored[..i], filter);
    KeptPlace(window, candidates, k);
    FreedOfPrefix(window, k);
    assert window[..k] == places[..k];
    j := k - Shift(window, k, |candidates|);
  }

  /** A rejected record gives its place up instead of passing it to a candidate: here the survivor after it
      moves from slot 1 to slot 0, and the candidate that could have had the place goes behind. */
  lemma {:induction false} RejectedPlaceIsLost()
    returns (stored: seq<Server>, crawl: seq<Server>, filter: Filter)
    ensures |stored| == 2 && !Allowed(filter, stored[0]) && Stands(stored, filter, 1)
    ensures |crawl| == 2 && crawl[0] == stored[1] && Candidates(stored, crawl, filter) == [crawl[1]]
    ensures Merged(stored, crawl, filter) == [stored[1], crawl[1]]
  {
    filter := (title, url) => title != "RU";
    var rejected, survivor := Server("vless://a", "", "RU", 10, 0), Server("vless://b", "", "DE", 20, 0);
    var newcomer := Server("vless://c", "", "DE", 5, 0);
    stored, crawl := [rejected, survivor], [survivor, newcomer];
    assert stored[..1] == [rejected] && crawl[..1] == [survivor];
    assert [rejected][..0] == [] && [survivor][..0] == [];
    assert Urls([rejected]) == {"vless://a"} && Urls(stored) == {"vless://a", "vless://b"};
    assert Card([survivor], filter, "vless://b") == Some(survivor);
    assert Places([rejected], crawl, filter) == [];
    assert Places(stored, crawl, filter) == [Some(survivor)];
    assert Newcomers(Urls(stored), [survivor], filter) == [];
    assert Newcomers(Urls(stored), crawl, filter) == [newcomer];
    assert [newcomer][1..] == [] && [Some(survivor)][1..] == [];
    assert Candidates(stored, crawl, filter) == [newcomer] by {
      assert [] + [newcomer] == [newcomer] && SortServers([newcomer]) == [newcomer];
    }
    assert Fill([Some(survivor)], [newcomer]) == [survivor] + [newcomer];
  }

  /** Whether candidates cover all places freed in the window. */
  predicate Covered(stored: seq<Server>, crawl: seq<Server>, filter: Filter) {
    var window := Cut(Places(stored, crawl, filter));
    Freed(window, |window|) <= |Candidates(stored, crawl, filter)|
  }

  lemma {:induction false} FreedGrows(places: seq<Option<Server>>, i: nat, j: nat)
    requires i <= j <= |places|
    ensures Freed(places, i) <= Freed(places, j)
    decreases |places|
  {
    if i > 0 {
      FreedGrows(places[1..], i - 1, j - 1);
    }
  }

  lemma {:induction false} CleanPrefix(ss: seq<Server>, filter: Filter, i: nat)
    requires Clean(ss, filter) && i <= |ss|
    ensures Clean(ss[..i], filter) && Rank(ss[..i], filter) == i
    ensures i < |ss| ==> Stands(ss, filter, i)
    decreases |ss|
  {
    if i == |ss| {
      assert ss[..i] == ss;
    } else {
      var front := ss[..|ss| - 1];
      assert i < |front| ==> front[..i] == ss[..i];
      CleanPrefix(front, filter, i);
      assert front[..i] == ss[..i];
    }
    RankOfClean(ss[..i], filter);
  }

  /** In a clean pool every server of the window keeps its slot when candidates cover all freed places. */
  lemma {:induction false} CoveredHolds(stored: seq<Server>, crawl: seq<Server>, filter: Filter, i: nat)
    requires Clean(stored, filter) && i < |stored| && i < WINDOW && Covered(stored, crawl, filter)
    ensures Holds(stored, crawl, filter, i)
  {
    var places := Places(stored, crawl, filter);
    CleanPrefix(stored, filter, i);
    PlacesOfPrefix(stored, crawl, filter, i);
    PlacesAreRanks(stored[..i], crawl, filter);
    PlacesAreRanks(stored, crawl, filter);
    RankOfClean(stored, filter);
    FreedOfPrefix(Cut(places), i);
    assert Cut(places)[..i] == Places(stored[..i], crawl, filter);
    FreedGrows(Cut(places), i, |Cut(places)|);
  }

  predicate Appears(url: string, crawl: seq<Server>, filter: Filter) {
    Card(crawl, filter, url).Some?
  }

  /** The step as the run sees it: `next` is the merged pool, in which the server stands. */
  lemma {:induction false} WindowNext(stored: seq<Server>, crawl: seq<Server>, filter: Filter, i: nat)
    returns (next: seq<Server>, j: nat)
    requires Stands(stored, filter, i) && Rank(stored[..i], filter) < WINDOW
    requires Appears(stored[i].url, crawl, filter) || stored[i].misses + 1 < MISSES_BEFORE_DROP
    ensures next == Merged(stored, crawl, filter) && Stands(next, filter, j) && Rank(next[..j], filter) < WINDOW
    ensures j <= i && (j == i <==> Holds(stored, crawl, filter, i))
    ensures next[j].url == stored[i].url
    ensures next[j].misses == if Appears(stored[i].url, crawl, filter) then 0 else stored[i].misses + 1
  {
    j := WindowStep(stored, crawl, filter, i);
    MergedIsClean(stored, crawl, filter);
    next := Merged(stored, crawl, filter);
    CleanPrefix(next, filter, j);
  }

  function Run(stored: seq<Server>, crawls: seq<seq<Server>>, filter: Filter): seq<Server>
    decreases |crawls|
  {
    if crawls == [] then stored else Run(Merged(stored, crawls[0], filter), crawls[1..], filter)
  }

  /** Candidates cover the freed places in every merge of the run. */
  predicate AlwaysCovered(stored: seq<Server>, crawls: seq<seq<Server>>, filter: Filter)
    decreases |crawls|
  {
    crawls != [] ==>
      Covered(stored, crawls[0], filter) && AlwaysCovered(Merged(stored, crawls[0], filter), crawls[1..], filter)
  }

  /** Never absent from three crawls in a row, counting the `misses` crawls before. */
  predicate NeverThrice(url: string, misses: nat, crawls: seq<seq<Server>>, filter: Filter)
    decreases |crawls|
  {
    crawls != [] ==>
      && (Appears(url, crawls[0], filter) || misses + 1 < MISSES_BEFORE_DROP)
      && NeverThrice(url, if Appears(url, crawls[0], filter) then 0 else misses + 1, crawls[1..], filter)
  }

  /** The slot is held in every merge of the run. */
  predicate AlwaysHolds(stored: seq<Server>, crawls: seq<seq<Server>>, filter: Filter, i: nat)
    decreases |crawls|
  {
    crawls != [] ==>
      Holds(stored, crawls[0], filter, i) && AlwaysHolds(Merged(stored, crawls[0], filter), crawls[1..], filter, i)
  }

  /** A server of the window that never misses three crawls in a row is never dropped and never moves down,
      and it keeps its slot over the run exactly when every merge holds it. */
  lemma {:induction false} WindowIsStable(stored: seq<Server>, crawls: seq<seq<Server>>, filter: Filter, i: nat)
    returns (j: nat)
    requires Stands(stored, filter, i) && Rank(stored[..i], filter) < WINDOW
    requires NeverThrice(stored[i].url, stored[i].misses, crawls, filter)
    ensures j <= i && (j == i <==> AlwaysHolds(stored, crawls, filter, i))
    ensures j < |Run(stored, crawls, filter)| && Run(stored, crawls, filter)[j].url == stored[i].url
    decreases |crawls|
  {
    if crawls == [] {
      j := i;
    } else {
      var next, k := WindowNext(stored, crawls[0], filter, i);
      j := WindowIsStable(next, crawls[1..], filter, k);
    }
  }

  /** In a clean pool the slots hold as long as candidates cover the freed places. */
  lemma {:induction false} CoveredAlwaysHolds(stored: seq<Server>, crawls: seq<seq<Server>>, filter: Filter, i: nat)
    requires Clean(stored, filter) && i < |stored| && i < WINDOW && AlwaysCovered(stored, crawls, filter)
    requires NeverThrice(stored[i].url, stored[i].misses, crawls, filter)
    ensures AlwaysHolds(stored, crawls, filter, i)
    decreases |crawls|
  {
    if crawls != [] {
      CleanPrefix(stored, filter, i);
      CoveredHolds(stored, crawls[0], filter, i);
      var next, j := WindowNext(stored, crawls[0], filter, i);
      MergedIsClean(stored, crawls[0], filter);
      CoveredAlwaysHolds(next, crawls[1..], filter, i);
    }
  }

  /** In one of any three crawls in a row. */
  ghost predicate OneInThree(url: string, crawls: seq<seq<Server>>, filter: Filter) {
    forall k :: 0 <= k < |crawls| - 2 ==>
      Appears(url, crawls[k], filter) || Appears(url, crawls[k + 1], filter) || Appears(url, crawls[k + 2], filter)
  }

  /** A server seen in one of any three crawls in a row never misses three: `misses` crawls without it
      lead up to these. */
  lemma {:induction false} OneInThreeSuffices(url: string, crawls: seq<seq<Server>>, filter: Filter, misses: nat)
    requires misses < MISSES_BEFORE_DROP && OneInThree(url, crawls, filter)
    requires misses == 1 && |crawls| >= 2 ==> Appears(url, crawls[0], filter) || Appears(url, crawls[1], filter)
    requires misses == 2 && |crawls| >= 1 ==> Appears(url, crawls[0], filter)
    ensures NeverThrice(url, misses, crawls, filter)
    decreases |crawls|
  {
    if crawls != [] {
      var rest := crawls[1..];
      assert forall k :: 0 <= k < |rest| ==> rest[k] == crawls[k + 1];
      assert |crawls| >= 3 ==>
          Appears(url, crawls[0], filter) || Appears(url, crawls[0 + 1], filter) || Appears(url, crawls[0 + 2], filter);
      OneInThreeTail(url, crawls, filter);
      OneInThreeSuffices(url, rest, filter, if Appears(url, crawls[0], filter) then 0 else misses + 1);
    }
  }

  lemma {:induction false} OneInThreeTail(url: string, crawls: seq<seq<Server>>, filter: Filter)
    requires OneInThree(url, crawls, filter) && crawls != []
    ensures OneInThree(url, crawls[1..], filter)
  {
    var rest := crawls[1..];
    forall k | 0 <= k < |rest| - 2
      ensures Appears(url, rest[k], filter) || Appears(url, rest[k + 1], filter) || Appears(url, rest[k + 2], filter)
    {
      assert rest[k] == crawls[k + 1] && rest[k + 1] == crawls[k + 1 + 1] && rest[k + 2] == crawls[k + 1 + 2];
    }
  }

  // ---------------------------------------------------------------- merging the same crawl again

  /** A record the filter rejects shuts out an allowed card of the same URL. */
  predicate Blocked(stored: seq<Server>, crawl: seq<Server>, filter: Filter, url: string) {
    var record := FirstStored(stored, url);
    record.Some? && !Allowed(filter, record.value) && Card(crawl, filter, url).Some?
  }

  lemma {:induction false} FirstOfClean(ss: seq<Server>, filter: Filter, x: Server)
    requires Clean(ss, filter) && x in ss
    ensures FirstStored(ss, x.url) == Some(x) && x.url != ""
    decreases |ss|
  {
    var n := |ss| - 1;
    assert ss == ss[..n] + [ss[n]];
    UrlsAreMembers(ss[..n], x.url);
    UrlsAreStored(ss[..n], x.url);
    if x in ss[..n] {
      FirstOfClean(ss[..n], filter, x);
    }
  }

  lemma {:induction false} FillTailSorted(places: seq<Option<Server>>, candidates: seq<Server>, k: nat)
    requires Sorted(candidates) && |places| <= k <= |Fill(places, candidates)|
    ensures Sorted(Fill(places, candidates)[k..])
    decreases |places|
  {
    if places == [] {
      SortedSuffix(candidates, k);
    } else {
      var rest := places[1..];
      if places[0].Some? {
        assert Fill(places, candidates)[k..] == Fill(rest, candidates)[k - 1..];
        FillTailSorted(rest, candidates, k - 1);
      } else if candidates != [] {
        assert Fill(places, candidates)[k..] == Fill(rest, candidates[1..])[k - 1..];
        FillTailSorted(rest, candidates[1..], k - 1);
      } else {
        FillTailSorted(rest, [], k);
      }
    }
  }

  lemma {:induction false} SortedSuffix(ss: seq<Server>, k: nat)
    requires Sorted(ss) && k <= |ss|
    ensures Sorted(ss[k..])
    decreases k
  {
    if k == 0 {
      assert ss[0..] == ss;
    } else {
      SortedSuffix(ss[1..], k - 1);
      assert ss[k..] == ss[1..][k - 1..];
    }
  }

  function AllPlaced(ss: seq<Server>): (places: seq<Option<Server>>)
    ensures |places| == |ss|
    ensures forall i :: 0 <= i < |ss| ==> places[i] == Some(ss[i])
  {
    if ss == [] then [] else AllPlaced(ss[..|ss| - 1]) + [Some(ss[|ss| - 1])]
  }

  lemma {:induction false} PresentAll(ss: seq<Server>)
    ensures Present(AllPlaced(ss)) == ss
    decreases |ss|
  {
    if ss != [] {
      PresentAll(ss[..|ss| - 1]);
    }
  }

  lemma {:induction false} FillAll(ss: seq<Server>, rest: seq<Server>)
    ensures Fill(AllPlaced(ss), rest) == ss + rest
    decreases |ss|
  {
    if ss != [] {
      assert AllPlaced(ss)[1..] == AllPlaced(ss[1..]);
      FillAll(ss[1..], rest);
    }
  }

  lemma {:induction false} NoNewcomers(known: set<string>, crawl: seq<Server>, filter: Filter)
    requires forall url: string :: Card(crawl, filter, url).Some? ==> url in known
    ensures Newcomers(known, crawl, filter) == []
  {
    var out := Newcomers(known, crawl, filter);
    if out != [] {
      NewcomersAreCards(known, crawl, filter, out[0]);
      assert false;
    }
  }

  ghost predicate AllRefreshed(pool: seq<Server>, crawl: seq<Server>, filter: Filter) {
    forall x :: x in pool ==> Card(crawl, filter, x.url).Some? && Refreshed(x, Card(crawl, filter, x.url)) == x
  }

  ghost predicate AtMostOnce(pool: seq<Server>) {
    forall x: Server :: Occurrences(pool, x.url) <= 1
  }

  lemma {:induction false} SettledPlaces(pool: seq<Server>, crawl: seq<Server>, filter: Filter)
    requires Clean(pool, filter) && AllRefreshed(pool, crawl, filter)
    ensures Places(pool, crawl, filter) == AllPlaced(pool)
  {
    var places := Places(pool, crawl, filter);
    PlacesAreRanks(pool, crawl, filter);
    RankOfClean(pool, filter);
    forall i | 0 <= i < |pool|
      ensures places[i] == Some(pool[i])
    {
      assert pool[i] in pool;
      CleanPrefix(pool, filter, i);
      PlaceAtRank(pool, crawl, filter, i);
    }
  }

  lemma {:induction false} SettledTail(head: seq<Server>, tail: seq<Server>)
    requires AtMostOnce(head + tail) && Sorted(tail)
    ensures SortServers(tail) == tail
  {
    forall x: Server
      ensures Occurrences(tail, x.url) <= 1
    {
      OccurrencesConcat(head, tail, x.url);
    }
    SortOfSorted(tail);
  }

  lemma {:induction false} AllPlacedConcat(head: seq<Server>, tail: seq<Server>)
    ensures AllPlaced(head + tail) == AllPlaced(head) + AllPlaced(tail)
  {
  }

  /** A clean pool that is its own refreshed self, whose tail is sorted and that knows the whole crawl, stays. */
  lemma {:induction false} Settled(pool: seq<Server>, crawl: seq<Server>, filter: Filter)
    requires Clean(pool, filter) && AllRefreshed(pool, crawl, filter) && AtMostOnce(pool)
    requires forall url: string :: Card(crawl, filter, url).Some? ==> url in Urls(pool)
    requires |pool| > WINDOW ==> Sorted(pool[WINDOW..])
    ensures Merged(pool, crawl, filter) == pool
  {
    SettledPlaces(pool, crawl, filter);
    NoNewcomers(Urls(pool), crawl, filter);
    var head, tail := if |pool| <= WINDOW then pool else pool[..WINDOW], if |pool| <= WINDOW then [] else pool[WINDOW..];
    assert pool == head + tail;
    AllPlacedConcat(head, tail);
    assert Cut(AllPlaced(pool)) == AllPlaced(head) && Beyond(AllPlaced(pool)) == AllPlaced(tail);
    PresentAll(tail);
    SettledTail(head, tail);
    assert tail + [] == tail;
    FillAll(head, tail);
  }

  lemma {:induction false} RefreshedTwice(stored: seq<Server>, crawl: seq<Server>, filter: Filter, x: Server)
    requires Expected(stored, crawl, filter, x.url) == Some(x) && Card(crawl, filter, x.url).Some?
    ensures Refreshed(x, Card(crawl, filter, x.url)) == x
  {
    CardUrl(crawl, filter, x.url);
  }

  /** Every server of the crawl has its URL in the merged pool unless a rejected record blocks it. */
  lemma {:induction false} CrawlIsKnown(stored: seq<Server>, crawl: seq<Server>, filter: Filter, url: string)
    requires Card(crawl, filter, url).Some?
    ensures url in Urls(Merged(stored, crawl, filter)) <==> !Blocked(stored, crawl, filter, url)
  {
    MergedUrls(stored, crawl, filter, url);
    OccursSomewhere(Merged(stored, crawl, filter), url);
    UrlsAreMembers(Merged(stored, crawl, filter), url);
    CardUrl(crawl, filter, url);
  }

  /** What lets a second merge of the same crawl change nothing: all stored servers that remain are in the
      crawl, and no rejected record blocks a card. */
  ghost predicate Settles(stored: seq<Server>, crawl: seq<Server>, filter: Filter) {
    && (forall url: string :: Survives(stored, crawl, filter, url) ==> Card(crawl, filter, url).Some?)
    && (forall url: string :: !Blocked(stored, crawl, filter, url))
  }

  lemma {:induction false} SettlesThenStays(stored: seq<Server>, crawl: seq<Server>, filter: Filter)
    requires Settles(stored, crawl, filter)
    ensures Merged(Merged(stored, crawl, filter), crawl, filter) == Merged(stored, crawl, filter)
  {
    var pool := Merged(stored, crawl, filter);
    MergedIsClean(stored, crawl, filter);
    forall x | x in pool
      ensures Card(crawl, filter, x.url).Some? && Refreshed(x, Card(crawl, filter, x.url)) == x
    {
      MergedRecords(stored, crawl, filter, x);
      assert Survives(stored, crawl, filter, x.url) ==> Card(crawl, filter, x.url).Some?;
      RefreshedTwice(stored, crawl, filter, x);
    }
    forall url: string | Card(crawl, filter, url).Some?
      ensures url in Urls(pool)
    {
      CrawlIsKnown(stored, crawl, filter, url);
      assert !Blocked(stored, crawl, filter, url);
    }
    forall x: Server
      ensures Occurrences(pool, x.url) <= 1
    {
      MergedUrls(stored, crawl, filter, x.url);
    }
    BestCandidatesFirst(stored, crawl, filter);
    if |pool| > WINDOW {
      FillTailSorted(Cut(Places(stored, crawl, filter)), Candidates(stored, crawl, filter), WINDOW);
    }
    Settled(pool, crawl, filter);
  }

  lemma {:induction false} StaysThenSettles(stored: seq<Server>, crawl: seq<Server>, filter: Filter)
    requires Merged(Merged(stored, crawl, filter), crawl, filter) == Merged(stored, crawl, filter)
    ensures Settles(stored, crawl, filter)
  {
    var pool := Merged(stored, crawl, filter);
    MergedIsClean(stored, crawl, filter);
    forall url: string | Survives(stored, crawl, filter, url)
      ensures Card(crawl, filter, url).Some?
    {
      MergedUrls(stored, crawl, filter, url);
      OccursSomewhere(pool, url);
      var x :| x in pool && x.url == url;
      MergedRecords(pool, crawl, filter, x);
      FirstOfClean(pool, filter, x);
    }
    forall url: string
      ensures !Blocked(stored, crawl, filter, url)
    {
      if Card(crawl, filter, url).Some? {
        CrawlIsKnown(stored, crawl, filter, url);
        CrawlIsKnown(pool, crawl, filter, url);
        CleanBlocksNothing(pool, crawl, filter, url);
      }
    }
  }

  lemma {:induction false} CleanBlocksNothing(pool: seq<Server>, crawl: seq<Server>, filter: Filter, url: string)
    requires Clean(pool, filter)
    ensures !Blocked(pool, crawl, filter, url)
    decreases |pool|
  {
    if pool != [] {
      CleanBlocksNothing(pool[..|pool| - 1], crawl, filter, url);
    }
  }

  /** Merging the same crawl a second time changes nothing exactly when every remaining stored server is in the
      crawl and no stored record that the filter rejects has the URL of an allowed card. */
  lemma {:induction false} SecondMergeIsQuiet(stored: seq<Server>, crawl: seq<Server>, filter: Filter)
    ensures Merged(Merged(stored, crawl, filter), crawl, filter) == Merged(stored, crawl, filter) <==>
            Settles(stored, crawl, filter)
  {
    if Settles(stored, crawl, filter) {
      SettlesThenStays(stored, crawl, filter);
    }
    if Merged(Merged(stored, crawl, filter), crawl, filter) == Merged(stored, crawl, filter) {
      StaysThenSettles(stored, crawl, filter);
    }
  }

  /** The blocking is real: a record whose old title is rejected hides the renamed card once, and the
      second merge of the same crawl brings it in. */
  lemma {:induction false} RenamedServerComesBack()
    returns (stored: seq<Server>, crawl: seq<Server>, filter: Filter)
    ensures Merged(stored, crawl, filter) == [] && Merged([], crawl, filter) == crawl && crawl != []
  {
    filter := (title, url) => title != "RU";
    var card := Server("vless://a", "", "DE", 10, 0);
    stored, crawl := [card.(title := "RU")], [card];
    assert stored[..0] == [] && crawl[..0] == [];
    assert Urls(stored) == {"vless://a"};
    assert Places(stored, crawl, filter) == [];
    assert Newcomers(Urls(stored), crawl, filter) == [];
    assert Newcomers({}, crawl, filter) == crawl;
    assert SortServers(crawl) == crawl by {
      assert crawl[1..] == [];
    }
    assert [] + crawl == crawl;
  }
}

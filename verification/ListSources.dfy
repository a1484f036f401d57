/** Ownership of list sources while refreshes overlap with changes of the set of sources
    (internal/lists/manager.go). */
module ListSources {
  import opened Options

  datatype Source = Source(url: string, format: string)

  /** What is known of a source: whether content is there and whether the last attempt failed. */
  datatype State = State(cached: bool, failed: bool)

  /** Outcome of fetching one source. */
  datatype Fetched = Content(body: string, stale: bool) | Failed

  function Urls(ss: seq<Source>): set<string> {
    if ss == [] then {} else Urls(ss[..|ss| - 1]) + {ss[|ss| - 1].url}
  }

  type Tokens = map<string, nat>

  /** Ownership after one reconciliation, and the last token given out by then. */
  datatype Moment = Moment(tokens: Tokens, issued: nat)

  predicate OwnedAs(m: Moment, url: string, token: nat) {
    url in m.tokens && m.tokens[url] == token
  }

  /** A token of now that already existed at some moment was the token of the same source at that moment. */
  ghost predicate NeverReturns(log: seq<Moment>, now: Tokens) {
    log != [] ==> NeverReturns(log[..|log| - 1], now) && KeptFrom(log[|log| - 1], now)
  }

  ghost predicate KeptFrom(m: Moment, now: Tokens) {
    forall url :: url in now && now[url] <= m.issued ==> OwnedAs(m, url, now[url])
  }

  lemma {:induction false} KeptFromAt(log: seq<Moment>, now: Tokens, k: nat)
    requires NeverReturns(log, now) && k < |log|
    ensures KeptFrom(log[k], now)
    decreases |log|
  {
    if k < |log| - 1 {
      KeptFromAt(log[..|log| - 1], now, k);
    }
  }

  /** A source owned at two successive moments keeps its token, and tokens are those given out by then. */
  predicate Linked(log: seq<Moment>) {
    log != [] ==>
      && Linked(log[..|log| - 1])
      && Sane(log[|log| - 1])
      && (|log| > 1 ==> Follows(log[|log| - 2], log[|log| - 1]))
  }

  predicate Sane(m: Moment) {
    forall url :: url in m.tokens ==> 0 < m.tokens[url] <= m.issued
  }

  predicate Follows(m: Moment, n: Moment) {
    && m.issued <= n.issued
    && forall url :: url in m.tokens && url in n.tokens ==> m.tokens[url] == n.tokens[url]
  }

  /** Token number t was given out once, to `holders[t - 1]`. */
  predicate Held(tokens: Tokens, holders: seq<string>) {
    forall url :: url in tokens ==> 0 < tokens[url] <= |holders| && holders[tokens[url] - 1] == url
  }

  /** `next` keeps the tokens of sources that stay and gives later ones, up to `issued`, to new sources. */
  ghost predicate Continues(tokens: Tokens, before: nat, next: Tokens, issued: nat) {
    && before <= issued
    && forall url :: url in next ==> if url in tokens then next[url] == tokens[url] else before < next[url] <= issued
  }

  lemma {:induction false} NeverReturnsLater(log: seq<Moment>, tokens: Tokens, before: nat, next: Tokens, issued: nat)
    requires Linked(log) && NeverReturns(log, tokens) && Continues(tokens, before, next, issued)
    requires log != [] ==> log[|log| - 1].issued <= before
    ensures NeverReturns(log, next)
    decreases |log|
  {
    if log != [] {
      NeverReturnsLater(log[..|log| - 1], tokens, before, next, issued);
    }
  }

  /** Ownership as it was, up to what it is now. */
  ghost predicate Recorded(log: seq<Moment>, now: Moment) {
    log != [] && log[|log| - 1] == now && Linked(log) && NeverReturns(log, now.tokens)
  }

  lemma {:induction false} RecordedOn(log: seq<Moment>, now: Moment, next: Moment)
    requires Recorded(log, now) && Sane(next) && Continues(now.tokens, now.issued, next.tokens, next.issued)
    ensures Recorded(log + [next], next)
  {
    NeverReturnsLater(log, now.tokens, now.issued, next.tokens, next.issued);
    assert (log + [next])[..|log|] == log;
  }

  /** Ownership while it is recomputed. */
  datatype Draft = Draft(next: Tokens, sources: seq<Source>, issued: nat)

  ghost predicate IsDraft(d: Draft, tokens: Tokens, before: nat, holders: seq<string>) {
    && Urls(d.sources) == d.next.Keys
    && |holders| == d.issued && Held(tokens, holders) && Held(d.next, holders)
    && Continues(tokens, before, d.next, d.issued)
  }

  lemma {:induction false} DraftRecorded(log: seq<Moment>, tokens: Tokens, issued: nat, d: Draft, holders: seq<string>)
    requires Recorded(log, Moment(tokens, issued)) && IsDraft(d, tokens, issued, holders)
    ensures Recorded(log + [Moment(d.next, d.issued)], Moment(d.next, d.issued))
  {
    RecordedOn(log, Moment(tokens, issued), Moment(d.next, d.issued));
  }

  lemma {:induction false} UrlsSnoc(ss: seq<Source>, src: Source)
    ensures Urls(ss + [src]) == Urls(ss) + {src.url}
  {
    assert (ss + [src])[..|ss|] == ss;
  }

  /** A source that is owned already stays in the draft with its token. */
  lemma {:induction false} DraftKeeps(d: Draft, tokens: Tokens, before: nat, holders: seq<string>, src: Source)
    requires IsDraft(d, tokens, before, holders) && src.url in tokens
    ensures IsDraft(Draft(d.next[src.url := tokens[src.url]], d.sources + [src], d.issued), tokens, before, holders)
  {
    var next := d.next[src.url := tokens[src.url]];
    UrlsSnoc(d.sources, src);
    assert next.Keys == d.next.Keys + {src.url};
  }

  lemma {:induction false} HeldByMore(tokens: Tokens, holders: seq<string>, url: string)
    requires Held(tokens, holders)
    ensures Held(tokens, holders + [url])
  {
  }

  /** A new source gets the next token. */
  lemma {:induction false} DraftIssues(d: Draft, tokens: Tokens, before: nat, holders: seq<string>, src: Source)
    requires IsDraft(d, tokens, before, holders) && src.url !in d.next && src.url !in tokens
    ensures IsDraft(Draft(d.next[src.url := d.issued + 1], d.sources + [src], d.issued + 1), tokens, before, holders + [src.url])
  {
    var next := d.next[src.url := d.issued + 1];
    UrlsSnoc(d.sources, src);
    assert next.Keys == d.next.Keys + {src.url};
    HeldByMore(tokens, holders, src.url);
    HeldByMore(d.next, holders, src.url);
    assert (holders + [src.url])[d.issued] == src.url;
  }

  /** Takes the sources of one owner into the draft. */
  method Adopt(owner: seq<Source>, tokens: Tokens, draft: Draft, ghost before: nat, ghost held: seq<string>)
    returns (d: Draft, ghost holders: seq<string>)
    requires IsDraft(draft, tokens, before, held)
    ensures IsDraft(d, tokens, before, holders) && held <= holders
    ensures d.next.Keys == draft.next.Keys + Urls(owner)
  {
    d, holders := draft, held;
    for i := 0 to |owner|
      invariant IsDraft(d, tokens, before, holders) && held <= holders
      invariant d.next.Keys == draft.next.Keys + Urls(owner[..i])
    {
      assert owner[..i + 1][..i] == owner[..i];
      var src := owner[i];
      if src.url in d.next {
        continue;
      }
      if src.url in tokens {
        DraftKeeps(d, tokens, before, holders, src);
        d := Draft(d.next[src.url := tokens[src.url]], d.sources + [src], d.issued);
      } else {
        DraftIssues(d, tokens, before, holders, src);
        d := Draft(d.next[src.url := d.issued + 1], d.sources + [src], d.issued + 1);
        holders := holders + [src.url];
      }
    }
    assert owner[..|owner|] == owner;
  }

  method Recompute(requested: seq<Source>, committed: seq<Source>, tokens: Tokens, issued: nat, ghost held: seq<string>)
    returns (d: Draft, ghost holders: seq<string>)
    requires |held| == issued && Held(tokens, held)
    ensures IsDraft(d, tokens, issued, holders) && held <= holders
    ensures d.next.Keys == Urls(requested) + Urls(committed)
  {
    d, holders := Draft(map[], [], issued), held;
    d, holders := Adopt(requested, tokens, d, issued, holders);
    d, holders := Adopt(committed, tokens, d, issued, holders);
  }

  datatype Owners = Owners(requested: seq<Source>, committed: seq<Source>)

  /** Ownership is that of both owners, and all that went before is recorded. */
  ghost predicate TokensHold(owners: Owners, sources: seq<Source>, now: Moment, log: seq<Moment>, holders: seq<string>) {
    && now.tokens.Keys == Urls(owners.requested) + Urls(owners.committed)
    && Urls(sources) == now.tokens.Keys
    && |holders| == now.issued && Held(now.tokens, holders)
    && Recorded(log, now)
  }

  lemma {:induction false} DraftHolds(before: Owners, sources: seq<Source>, now: Moment, log: seq<Moment>, held: seq<string>,
                                      after: Owners, d: Draft, holders: seq<string>)
    requires TokensHold(before, sources, now, log, held) && IsDraft(d, now.tokens, now.issued, holders)
    requires d.next.Keys == Urls(after.requested) + Urls(after.committed)
    ensures TokensHold(after, d.sources, Moment(d.next, d.issued), log + [Moment(d.next, d.issued)], holders)
  {
    DraftRecorded(log, now.tokens, now.issued, d, holders);
  }

  class Manager {
    var requested: seq<Source>
    var committed: seq<Source>
    var sources: seq<Source>
    var tokens: Tokens
    var issued: nat
    var lists: map<string, string>
    var states: map<string, State>
    const isPlain: string -> bool
    ghost var log: seq<Moment>
    ghost var holders: seq<string>

    constructor (isPlain: string -> bool)
      ensures Valid() && this.isPlain == isPlain && |log| == 1 && tokens == map[] && lists == map[]
    {
      requested, committed, sources, tokens, issued := [], [], [], map[], 0;
      lists, states, this.isPlain := map[], map[], isPlain;
      log, holders := [Moment(map[], 0)], [];
    }

    ghost predicate Valid()
      reads this
    {
      Tokened() && forall url :: url in lists && isPlain(url) ==> url in tokens
    }

    ghost predicate Tokened()
      reads this
    {
      TokensHold(Owners(requested, committed), sources, Moment(tokens, issued), log, holders)
    }

    /** Recomputes ownership. Tokens follow continuous ownership: a source that stays keeps its token, one that
        appears gets a new one. */
    method Retoken(newRequested: seq<Source>, newCommitted: seq<Source>)
      requires Tokened()
      modifies `requested, `committed, `sources, `tokens, `issued, `log, `holders
      ensures Tokened() && old(holders) <= holders && requested == newRequested && committed == newCommitted
      ensures log == old(log) + [Moment(tokens, issued)]
      ensures Continues(old(tokens), old(issued), tokens, issued)
    {
      var draft, names := Recompute(newRequested, newCommitted, tokens, issued, holders);
      DraftHolds(Owners(requested, committed), sources, Moment(tokens, issued), log, holders,
                 Owners(newRequested, newCommitted), draft, names);
      requested, committed := newRequested, newCommitted;
      sources, tokens, issued := draft.sources, draft.next, draft.issued;
      log, holders := log + [Moment(tokens, issued)], names;
    }

    /** Recomputes ownership; plain sources that nobody owns any more lose their content. */
    method Reconcile(newRequested: seq<Source>, newCommitted: seq<Source>)
      requires Valid()
      modifies this
      ensures Valid() && requested == newRequested && committed == newCommitted && old(holders) <= holders
      ensures log == old(log) + [Moment(tokens, issued)]
      ensures Continues(old(tokens), old(issued), tokens, issued)
      ensures lists == map url | url in old(lists) && (url in tokens || !isPlain(url)) :: old(lists)[url]
      ensures states == map url | url in old(states) && (url in tokens || !isPlain(url)) :: old(states)[url]
    {
      Retoken(newRequested, newCommitted);
      lists := map url | url in lists && (url in tokens || !isPlain(url)) :: lists[url];
      states := map url | url in states && (url in tokens || !isPlain(url)) :: states[url];
    }

    /** Replaces the requested sources. Committed ones keep their content and their tokens. */
    method SetSources(src: seq<Source>)
      requires Valid()
      modifies this
      ensures Valid() && requested == src && committed == old(committed) && old(holders) <= holders
      ensures log == old(log) + [Moment(tokens, issued)]
      ensures forall url :: url in Urls(committed) ==>
                OwnedAs(Moment(old(tokens), 0), url, tokens[url]) && (url in old(lists) ==> url in lists && lists[url] == old(lists)[url])
    {
      Reconcile(src, committed);
    }

    /** Replaces the committed sources. */
    method SetCommittedSources(src: seq<Source>)
      requires Valid()
      modifies this
      ensures Valid() && requested == old(requested) && committed == src && old(holders) <= holders
      ensures log == old(log) + [Moment(tokens, issued)]
      ensures forall url :: url in Urls(requested) ==> OwnedAs(Moment(old(tokens), 0), url, tokens[url])
    {
      Reconcile(requested, src);
    }

    // -------------------------------------------------------------- refreshes

    /** What a refresh captured at moment `at`: sources and their tokens. */
    ghost predicate Captured(run: Tokens, at: nat)
      reads this
    {
      at < |log| && run == log[at].tokens
    }

    /** Starts a refresh. Several may run at once. */
    method Begin() returns (run: Tokens, urls: seq<Source>, ghost at: nat)
      requires Valid()
      ensures Captured(run, at) && Urls(urls) == run.Keys
    {
      run, urls, at := tokens, sources, |log| - 1;
    }

    /** The source was owned at every moment since `at`. */
    ghost predicate OwnedSince(url: string, at: nat)
      reads this
    {
      forall k :: at <= k < |log| ==> url in log[k].tokens
    }

    /** The outcome for one source of a refresh is written exactly when the source was owned at every moment
        since the refresh captured its token. */
    method Finish(run: Tokens, url: string, fetched: Fetched, ghost at: nat)
      requires Valid() && Captured(run, at) && url in run
      modifies `lists, `states
      ensures Valid() && log == old(log)
      ensures lists == if OwnedSince(url, at) && fetched.Content? then old(lists)[url := fetched.body] else old(lists)
      ensures states == if OwnedSince(url, at)
                        then old(states)[url := State(fetched.Content? || (url in old(states) && old(states)[url].cached),
                                                      fetched.Failed? || fetched.stale)]
                        else old(states)
    {
      SameTokenMeansOwned(log, url, at);
      match fetched {
        case Failed =>
          if !(url in tokens && tokens[url] == run[url]) {
            return;
          }
          states := states[url := State(url in states && states[url].cached, true)];
        case Content(body, stale) =>
          if url in tokens && tokens[url] == run[url] {
            lists := lists[url := body];
            states := states[url := State(true, stale)];
          }
      }
    }
  }

  lemma {:induction false} LinkedAt(log: seq<Moment>, k: nat)
    requires Linked(log) && k + 1 < |log|
    ensures Follows(log[k], log[k + 1])
    decreases |log|
  {
    if k + 2 < |log| {
      LinkedAt(log[..|log| - 1], k);
    }
  }

  lemma {:induction false} OwnedKeepsToken(log: seq<Moment>, url: string, at: nat, k: nat)
    requires Linked(log) && at <= k < |log| && forall j :: at <= j < |log| ==> url in log[j].tokens
    ensures log[k].tokens[url] == log[at].tokens[url]
    decreases k
  {
    if at < k {
      OwnedKeepsToken(log, url, at, k - 1);
      LinkedAt(log, k - 1);
    }
  }

  lemma {:induction false} IssuedGrows(log: seq<Moment>, i: nat, j: nat)
    requires Linked(log) && i <= j < |log|
    ensures log[i].issued <= log[j].issued
    decreases j
  {
    if i < j {
      IssuedGrows(log, i, j - 1);
      LinkedAt(log, j - 1);
    }
  }

  lemma {:induction false} SaneAt(log: seq<Moment>, k: nat)
    requires Linked(log) && k < |log|
    ensures Sane(log[k])
    decreases |log|
  {
    if k < |log| - 1 {
      SaneAt(log[..|log| - 1], k);
    }
  }

  /** A source has the token it had at some moment exactly when it was owned ever since: tokens are never reused. */
  lemma {:induction false} SameTokenMeansOwned(log: seq<Moment>, url: string, at: nat)
    requires Linked(log) && at < |log| && url in log[at].tokens
    requires NeverReturns(log, log[|log| - 1].tokens)
    ensures OwnedAs(log[|log| - 1], url, log[at].tokens[url]) <==> forall k :: at <= k < |log| ==> url in log[k].tokens
  {
    var now := log[|log| - 1].tokens;
    SaneAt(log, at);
    if OwnedAs(log[|log| - 1], url, log[at].tokens[url]) {
      forall k | at <= k < |log|
        ensures url in log[k].tokens
      {
        IssuedGrows(log, at, k);
        KeptFromAt(log, now, k);
        assert OwnedAs(log[k], url, now[url]);
      }
    }
    if forall k :: at <= k < |log| ==> url in log[k].tokens {
      OwnedKeepsToken(log, url, at, |log| - 1);
    }
  }
}

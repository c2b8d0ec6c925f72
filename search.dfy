/**
 * Post-processing of a Google Custom Search response (telegram_bot.py
 * `get_google_cse_info`, duplicated in utils.py). The HTTP exchange is replaced by
 * `provider`, which maps the effective query to the response the endpoint gave, and
 * the HEAD probe of each link by the predicate `alive`.
 */
module Search {
  import opened Wrappers
  import opened Text

  /** A result handed on to the completion prompt; every field is filled in. */
  datatype SearchResult = SearchResult(title: string, snippet: string, link: string)

  /** One entry of the provider's `items` array; any field may be missing. */
  datatype RawItem = RawItem(title: Option<string>, snippet: Option<string>, link: Option<string>)

  /** What the search call produced. */
  datatype CseResponse =
    | Unavailable                     // a non-200 status, or an exception while fetching
    | ProviderError(message: string)  // a 200 body carrying an "error" object
    | Items(items: seq<RawItem>)      // the "items" array ([] when the body has none)

  /** Phrases that ask to go deeper into the current topic. */
  const ClarificationKeywords: seq<string> := [
    "подробнее", "расскажи подробнее", "детали", "ещё", "tell me more", "details",
    "а что насчёт", "расскажи ещё", "больше", "углубись", "да, хочу"
  ]

  /** Snippet markers of a dead page. */
  const DeadLinkMarkers: seq<string> := ["404", "not found", "страница не найдена"]

  /** Python truthiness of an optional string. */
  predicate Truthy(s: Option<string>) {
    s.Some? && s.value != []
  }

  /** The query actually sent: the active topic when the text asks for more about it. */
  function EffectiveQuery(query: string, activeTopic: Option<string>): string {
    if ContainsAny(Lower(query), ClarificationKeywords) && Truthy(activeTopic) then activeTopic.value else query
  }

  /** The set of links (missing ones included) that occur in `items`. */
  function Links(items: seq<RawItem>): set<Option<string>> {
    set i | 0 <= i < |items| :: items[i].link
  }

  /** Index of the first item carrying `link`, or |items| when there is none. */
  function FirstWithLink(items: seq<RawItem>, link: Option<string>): (n: nat)
    ensures n <= |items|
    ensures n < |items| ==> items[n].link == link
    ensures forall j :: 0 <= j < n ==> items[j].link != link
  {
    if items == [] then 0
    else if items[0].link == link then 0
    else 1 + FirstWithLink(items[1..], link)
  }

  /** Deduplication by link with the links in `seen` already taken: first occurrence wins. */
  function Dedup(items: seq<RawItem>, seen: set<Option<string>>): seq<RawItem>
    decreases |items|
  {
    if items == [] then []
    else if items[0].link in seen then Dedup(items[1..], seen)
    else [items[0]] + Dedup(items[1..], seen + {items[0].link})
  }

  /** Pairwise distinct links. */
  predicate DistinctLinks(items: seq<RawItem>) {
    forall a, b :: 0 <= a < b < |items| ==> items[a].link != items[b].link
  }

  lemma LinksCons(x: RawItem, rest: seq<RawItem>)
    ensures Links([x] + rest) == {x.link} + Links(rest)
  {
    var items := [x] + rest;
    assert items[0].link == x.link;
    forall l | l in Links(items) ensures l in {x.link} + Links(rest) {
      var i :| 0 <= i < |items| && items[i].link == l;
      if i > 0 { assert rest[i - 1].link == l; }
    }
    forall l | l in Links(rest) ensures l in Links(items) {
      var i :| 0 <= i < |rest| && rest[i].link == l;
      assert items[i + 1].link == l;
    }
  }

  /** Deduplication keeps one item per link not already seen, and no other link. */
  lemma {:induction false} DedupDistinct(items: seq<RawItem>, seen: set<Option<string>>)
    ensures DistinctLinks(Dedup(items, seen))
    ensures Links(Dedup(items, seen)) + seen == Links(items) + seen
    ensures Links(Dedup(items, seen)) !! seen
    decreases |items|
  {
    if items != [] {
      var x, rest := items[0], items[1..];
      LinksCons(x, rest);
      assert items == [x] + rest;
      if x.link in seen {
        DedupDistinct(rest, seen);
      } else {
        DedupDistinct(rest, seen + {x.link});
        var tail := Dedup(rest, seen + {x.link});
        LinksCons(x, tail);
        forall k | 0 <= k < |tail| ensures tail[k].link != x.link {
          assert tail[k].link in Links(tail);
        }
      }
    }
  }

  /**
   * Each item of `out` is the first one in `items` with its link, and `out` lists them in
   * the order of those first occurrences.
   */
  predicate FirstOccurrences(out: seq<RawItem>, items: seq<RawItem>) {
    && (forall k :: 0 <= k < |out| ==>
          FirstWithLink(items, out[k].link) < |items| && items[FirstWithLink(items, out[k].link)] == out[k])
    && (forall a, b :: 0 <= a < b < |out| ==>
          FirstWithLink(items, out[a].link) < FirstWithLink(items, out[b].link))
  }

  /** Putting an item in front shifts every first occurrence of another link by one. */
  lemma ShiftFirstOccurrences(x: RawItem, rest: seq<RawItem>, tail: seq<RawItem>)
    requires FirstOccurrences(tail, rest)
    requires forall k :: 0 <= k < |tail| ==> tail[k].link != x.link
    ensures FirstOccurrences(tail, [x] + rest)
    ensures FirstOccurrences([x] + tail, [x] + rest)
  {
    var items := [x] + rest;
    assert items[1..] == rest;
    forall k | 0 <= k < |tail|
      ensures FirstWithLink(items, tail[k].link) == 1 + FirstWithLink(rest, tail[k].link)
    {
    }
    var out := [x] + tail;
    forall k | 0 <= k < |out|
      ensures FirstWithLink(items, out[k].link) < |items| && items[FirstWithLink(items, out[k].link)] == out[k]
    {
      if k > 0 { assert out[k] == tail[k - 1]; }
    }
    forall a, b | 0 <= a < b < |out|
      ensures FirstWithLink(items, out[a].link) < FirstWithLink(items, out[b].link)
    {
      assert out[b] == tail[b - 1];
      if a > 0 { assert out[a] == tail[a - 1]; }
    }
  }

  /** Each kept item is the first one in provider order with its link, and kept items keep provider order. */
  lemma {:induction false} DedupKeepsFirst(items: seq<RawItem>, seen: set<Option<string>>)
    ensures FirstOccurrences(Dedup(items, seen), items)
    decreases |items|
  {
    if items != [] {
      var x, rest := items[0], items[1..];
      assert items == [x] + rest;
      var seen' := if x.link in seen then seen else seen + {x.link};
      DedupKeepsFirst(rest, seen');
      DedupDistinct(rest, seen');
      var tail := Dedup(rest, seen');
      forall k | 0 <= k < |tail| ensures tail[k].link != x.link {
        assert tail[k].link in Links(tail);
      }
      ShiftFirstOccurrences(x, rest, tail);
    }
  }

  /** A snippet that reports a missing page. */
  predicate DeadSnippet(item: RawItem) {
    ContainsAny(Lower(item.snippet.GetOr("")), DeadLinkMarkers)
  }

  /** The HEAD probe succeeded; an item without a link fails it (the probe raises and reports False). */
  predicate Probed(item: RawItem, alive: string -> bool) {
    item.link.Some? && alive(item.link.value)
  }

  predicate Kept(item: RawItem, alive: string -> bool) {
    !DeadSnippet(item) && Probed(item, alive)
  }

  /** A surviving item with its missing fields defaulted. */
  function Normalize(item: RawItem): SearchResult {
    SearchResult(item.title.GetOr("Без заголовка"), item.snippet.GetOr("Без описания"), item.link.GetOr("Без ссылки"))
  }

  /** The items that pass the dead-snippet filter and the probe, normalized, in order. */
  function Survivors(items: seq<RawItem>, alive: string -> bool): (r: seq<SearchResult>)
    ensures |r| <= |items|
    ensures forall k :: 0 <= k < |r| ==> alive(r[k].link) && Some(r[k].link) in Links(items)
  {
    if items == [] then []
    else
      var rest := Survivors(items[1..], alive);
      LinksCons(items[0], items[1..]);
      assert items == [items[0]] + items[1..];
      (if Kept(items[0], alive) then [Normalize(items[0])] else []) + rest
  }

  /** Every survivor is the normalized form of an item that passed both filters. */
  lemma {:induction false} SurvivorsComeFromKeptItems(items: seq<RawItem>, alive: string -> bool, k: nat)
    requires k < |Survivors(items, alive)|
    ensures FromKeptItem(Survivors(items, alive)[k], items, alive)
  {
    var rest := Survivors(items[1..], alive);
    if Kept(items[0], alive) && k == 0 {
      assert Survivors(items, alive)[0] == Normalize(items[0]);
    } else {
      var k' := if Kept(items[0], alive) then k - 1 else k;
      assert Survivors(items, alive)[k] == rest[k'];
      SurvivorsComeFromKeptItems(items[1..], alive, k');
      var j :| 0 <= j < |items[1..]| && Kept(items[1..][j], alive) && rest[k'] == Normalize(items[1..][j]);
      assert items[1..][j] == items[j + 1];
    }
  }

  /** A list with distinct links loses nothing of that when its head is removed, and its head's link is not repeated. */
  lemma DistinctLinksCons(x: RawItem, rest: seq<RawItem>)
    requires DistinctLinks([x] + rest)
    ensures DistinctLinks(rest) && x.link !in Links(rest)
  {
    var items := [x] + rest;
    forall a, b | 0 <= a < b < |rest| ensures rest[a].link != rest[b].link {
      assert rest[a] == items[a + 1] && rest[b] == items[b + 1];
    }
    forall i | 0 <= i < |rest| ensures rest[i].link != x.link {
      assert rest[i] == items[i + 1] && x == items[0];
      assert items[0].link != items[i + 1].link;
    }
  }

  /** Pairwise distinct links among results. */
  predicate DistinctResultLinks(r: seq<SearchResult>) {
    forall a, b :: 0 <= a < b < |r| ==> r[a].link != r[b].link
  }

  /** A result whose link differs from every link of a list with distinct links can be put in front of it. */
  lemma DistinctResultsCons(h: SearchResult, rest: seq<SearchResult>)
    requires DistinctResultLinks(rest)
    requires forall k :: 0 <= k < |rest| ==> rest[k].link != h.link
    ensures DistinctResultLinks([h] + rest)
  {
    var r := [h] + rest;
    forall a, b | 0 <= a < b < |r| ensures r[a].link != r[b].link {
      assert r[b] == rest[b - 1];
      if a > 0 { assert r[a] == rest[a - 1]; }
    }
  }

  /** Items with pairwise distinct links give survivors with pairwise distinct links. */
  lemma {:induction false} SurvivorsDistinct(items: seq<RawItem>, alive: string -> bool)
    requires DistinctLinks(items)
    ensures DistinctResultLinks(Survivors(items, alive))
  {
    if items != [] {
      var x := items[0];
      assert items == [x] + items[1..];
      DistinctLinksCons(x, items[1..]);
      SurvivorsDistinct(items[1..], alive);
      var rest := Survivors(items[1..], alive);
      if Kept(x, alive) {
        forall k | 0 <= k < |rest| ensures rest[k].link != Normalize(x).link {
          assert Some(rest[k].link) in Links(items[1..]);
        }
        DistinctResultsCons(Normalize(x), rest);
      } else {
        assert Survivors(items, alive) == [] + rest;
      }
    }
  }

  /** The whole post-processing: `None` on an error, on no items and on no survivors. */
  function CseInfo(query: string, activeTopic: Option<string>, provider: string -> CseResponse,
                   alive: string -> bool): Option<seq<SearchResult>>
  {
    match provider(EffectiveQuery(query, activeTopic))
    case Items(items) =>
      if items == [] then None
      else
        var valid := Survivors(Dedup(items, {}), alive);
        if valid == [] then None else Some(valid)
    case _ => None
  }

  /** `res` is the normalized form of some item of `items` that passed both filters. */
  predicate FromKeptItem(res: SearchResult, items: seq<RawItem>, alive: string -> bool) {
    exists j :: 0 <= j < |items| && Kept(items[j], alive) && res == Normalize(items[j])
  }

  /**
   * Search enrichment never yields an empty list, and what it yields has pairwise distinct
   * links, each of which answered the probe and came from a provider item without a dead snippet.
   */
  lemma CseInfoShape(query: string, activeTopic: Option<string>, provider: string -> CseResponse,
                     alive: string -> bool)
    ensures var r := CseInfo(query, activeTopic, provider, alive);
      && r != Some([])
      && (r.Some? ==> provider(EffectiveQuery(query, activeTopic)).Items?)
      && (r.Some? ==> DistinctResultLinks(r.value))
      && (r.Some? ==> forall k :: 0 <= k < |r.value| ==>
            alive(r.value[k].link) && FromKeptItem(r.value[k], provider(EffectiveQuery(query, activeTopic)).items, alive))
  {
    var response := provider(EffectiveQuery(query, activeTopic));
    if response.Items? && response.items != [] {
      var items := response.items;
      var unique := Dedup(items, {});
      DedupKeepsFirst(items, {});
      DedupDistinct(items, {});
      SurvivorsDistinct(unique, alive);
      var valid := Survivors(unique, alive);
      forall k | 0 <= k < |valid| ensures FromKeptItem(valid[k], items, alive) {
        SurvivorsComeFromKeptItems(unique, alive, k);
        var j :| 0 <= j < |unique| && Kept(unique[j], alive) && valid[k] == Normalize(unique[j]);
        var f := FirstWithLink(items, unique[j].link);
        assert items[f] == unique[j];
      }
    }
  }

  /** A clarification phrase with an active topic searches for the topic itself. */
  lemma ClarificationSearchesTopic(query: string, topic: string, provider: string -> CseResponse,
                                   alive: string -> bool)
    requires ContainsAny(Lower(query), ClarificationKeywords) && topic != []
    ensures CseInfo(query, Some(topic), provider, alive) == CseInfo(topic, None, provider, alive)
  {
  }

  /** "tell me more" with active topic "вселенная" queries "вселенная", not the text itself. */
  lemma TellMeMoreExample(query: string, topic: string)
    requires query == "tell me more" && topic == "вселенная"
    ensures EffectiveQuery(query, Some(topic)) == topic
  {
    AlreadyLower(query);
    assert ClarificationKeywords[4] == query;
    assert Contains(query, query) by { assert query <= query; }
    ContainsAnyAt(Lower(query), ClarificationKeywords, 4);
  }

  lemma AlreadyLower(query: string)
    requires query == "tell me more"
    ensures Lower(query) == query
  {
  }

  /** `Dedup` takes one item at a time. */
  lemma DedupStep(items: seq<RawItem>, i: nat, seen: set<Option<string>>)
    requires i < |items|
    ensures Dedup(items[i..], seen)
            == if items[i].link in seen then Dedup(items[i + 1..], seen)
               else [items[i]] + Dedup(items[i + 1..], seen + {items[i].link})
  {
    assert items[i..][0] == items[i] && items[i..][1..] == items[i + 1..];
  }

  /** The first loop of `get_google_cse_info`: keep the first item for each link. */
  method DedupByLink(results: seq<RawItem>) returns (uniqueResults: seq<RawItem>)
    ensures uniqueResults == Dedup(results, {})
  {
    uniqueResults := [];
    var seenLinks: set<Option<string>> := {};
    ghost var all := Dedup(results, {});
    assert results[0..] == results;
    for i := 0 to |results|
      invariant uniqueResults + Dedup(results[i..], seenLinks) == all
    {
      DedupStep(results, i, seenLinks);
      var result := results[i];
      if result.link !in seenLinks {
        ConcatAssoc(uniqueResults, [result], Dedup(results[i + 1..], seenLinks + {result.link}));
        seenLinks := seenLinks + {result.link};
        uniqueResults := uniqueResults + [result];
      }
    }
    assert results[|results|..] == [];
  }

  /** `Survivors` takes one item at a time. */
  lemma SurvivorsStep(items: seq<RawItem>, i: nat, alive: string -> bool)
    requires i < |items|
    ensures Survivors(items[i..], alive)
            == (if Kept(items[i], alive) then [Normalize(items[i])] else []) + Survivors(items[i + 1..], alive)
  {
    assert items[i..][0] == items[i] && items[i..][1..] == items[i + 1..];
  }

  /** The second loop of `get_google_cse_info`: drop dead snippets and links the probe rejects. */
  method KeepAlive(uniqueResults: seq<RawItem>, alive: string -> bool) returns (validResults: seq<SearchResult>)
    ensures validResults == Survivors(uniqueResults, alive)
  {
    validResults := [];
    ghost var all := Survivors(uniqueResults, alive);
    assert uniqueResults[0..] == uniqueResults;
    for i := 0 to |uniqueResults|
      invariant validResults + Survivors(uniqueResults[i..], alive) == all
    {
      SurvivorsStep(uniqueResults, i, alive);
      var result := uniqueResults[i];
      if DeadSnippet(result) {
        assert [] + Survivors(uniqueResults[i + 1..], alive) == Survivors(uniqueResults[i + 1..], alive);
        continue;
      }
      if result.link.Some? && alive(result.link.value) {
        ConcatAssoc(validResults, [Normalize(result)], Survivors(uniqueResults[i + 1..], alive));
        validResults := validResults + [Normalize(result)];
      } else {
        assert [] + Survivors(uniqueResults[i + 1..], alive) == Survivors(uniqueResults[i + 1..], alive);
      }
    }
    assert uniqueResults[|uniqueResults|..] == [];
  }

  /**
   * `get_google_cse_info`: resolve the effective query, reject errors and empty answers,
   * deduplicate by link (first occurrence wins), drop dead snippets, keep what the probe
   * accepts, and answer `None` rather than an empty list.
   */
  method GetGoogleCseInfo(query: string, activeTopic: Option<string>, provider: string -> CseResponse,
                          alive: string -> bool)
    returns (r: Option<seq<SearchResult>>)
    ensures r == CseInfo(query, activeTopic, provider, alive)
    ensures r.Some? ==> |r.value| > 0 && DistinctResultLinks(r.value)
  {
    var q := EffectiveQuery(query, activeTopic);
    var response := provider(q);
    if !response.Items? {
      return None;
    }
    var results := response.items;
    if results == [] {
      return None;
    }
    var uniqueResults := DedupByLink(results);
    var validResults := KeepAlive(uniqueResults, alive);
    r := if validResults == [] then None else Some(validResults);
    CseInfoShape(query, activeTopic, provider, alive);
  }
}

/**
 * The relevance gate of search enrichment (telegram_bot.py `is_relevant`, duplicated in
 * utils.py): search results are used only when more than half of them mention a word
 * of the query or of the active topic.
 */
module Relevance {
  import opened Wrappers
  import opened Text
  import opened Search

  /**
   * The key terms: the `\w+` tokens of the lower-cased query, a space, and the lower-cased
   * active topic (an absent or empty topic contributes nothing). The source collects them
   * in a set; only membership matters, so a sequence with repetitions is equivalent.
   */
  function KeyTerms(query: string, activeTopic: Option<string>): (terms: seq<string>)
    ensures forall k :: 0 <= k < |terms| ==> |terms[k]| > 0
  {
    Words(Lower(query) + " " + (if Truthy(activeTopic) then Lower(activeTopic.value) else ""))
  }

  /** Some key term occurs in the lower-cased title or in the lower-cased snippet. */
  predicate Mentions(result: SearchResult, terms: seq<string>) {
    ContainsAny(Lower(result.title), terms) || ContainsAny(Lower(result.snippet), terms)
  }

  /** The number of results that mention a key term. */
  function CountRelevant(results: seq<SearchResult>, terms: seq<string>): (n: nat)
    ensures n <= |results|
  {
    if results == [] then 0
    else CountRelevant(results[..|results| - 1], terms) + (if Mentions(results[|results| - 1], terms) then 1 else 0)
  }

  /** The integer form of the gate: strictly more than half of the results mention a key term. */
  predicate MostlyRelevant(results: seq<SearchResult>, terms: seq<string>) {
    |results| > 0 && 2 * CountRelevant(results, terms) > |results|
  }

  /**
   * `is_relevant`: false on no results; otherwise count the results that mention a key
   * term and compare the ratio with 0.5, strictly.
   */
  method IsRelevant(results: seq<SearchResult>, query: string, activeTopic: Option<string>) returns (relevant: bool)
    ensures relevant <==>
      |results| > 0 && (CountRelevant(results, KeyTerms(query, activeTopic)) as real) / (|results| as real) > 0.5
    ensures relevant <==> MostlyRelevant(results, KeyTerms(query, activeTopic))
  {
    if results == [] {
      return false;
    }
    var keyTerms := KeyTerms(query, activeTopic);
    var relevantCount := 0;
    for i := 0 to |results|
      invariant relevantCount == CountRelevant(results[..i], keyTerms)
    {
      assert results[..i + 1][..i] == results[..i];
      if ContainsAny(Lower(results[i].title), keyTerms) || ContainsAny(Lower(results[i].snippet), keyTerms) {
        relevantCount := relevantCount + 1;
      }
    }
    assert results[..|results|] == results;
    var relevanceRatio := (relevantCount as real) / (|results| as real);
    relevant := relevanceRatio > 0.5;
    RatioIsHalfComparison(relevantCount, |results|);
  }

  /** For a positive total, the ratio exceeds one half exactly when twice the count exceeds the total. */
  lemma RatioIsHalfComparison(count: nat, total: nat)
    requires total > 0
    ensures (count as real) / (total as real) > 0.5 <==> 2 * count > total
  {
    var c, t := count as real, total as real;
    assert (c / t) * t == c;
    if c / t > 0.5 {
      assert c > 0.5 * t;
    } else {
      var q := c / t;
      MulNonnegative(0.5 - q, t);
      assert (0.5 - q) * t == 0.5 * t - q * t;
    }
  }

  lemma MulNonnegative(x: real, y: real)
    requires x >= 0.0 && y >= 0.0
    ensures x * y >= 0.0
  {
  }

  /** Counting over a concatenation adds up. */
  lemma {:induction false} CountRelevantAppend(a: seq<SearchResult>, b: seq<SearchResult>, terms: seq<string>)
    ensures CountRelevant(a + b, terms) == CountRelevant(a, terms) + CountRelevant(b, terms)
    decreases |b|
  {
    if b != [] {
      var b' := b[..|b| - 1];
      assert (a + b)[..|a + b| - 1] == a + b';
      CountRelevantAppend(a, b', terms);
    } else {
      assert a + b == a;
    }
  }

  /** Every result counts exactly when every result mentions a key term. */
  lemma {:induction false} CountRelevantAll(results: seq<SearchResult>, terms: seq<string>)
    ensures CountRelevant(results, terms) == |results| <==> forall k :: 0 <= k < |results| ==> Mentions(results[k], terms)
  {
    if results != [] {
      var init := results[..|results| - 1];
      CountRelevantAll(init, terms);
      forall k | 0 <= k < |init| ensures init[k] == results[k] { }
    }
  }

  /** No result counts exactly when no result mentions a key term. */
  lemma {:induction false} CountRelevantNone(results: seq<SearchResult>, terms: seq<string>)
    ensures CountRelevant(results, terms) == 0 <==> forall k :: 0 <= k < |results| ==> !Mentions(results[k], terms)
  {
    if results != [] {
      var init := results[..|results| - 1];
      CountRelevantNone(init, terms);
      forall k | 0 <= k < |init| ensures init[k] == results[k] { }
    }
  }

  /** Results that all mention the query are relevant; results none of which do are not. */
  lemma UnanimousResults(results: seq<SearchResult>, terms: seq<string>)
    requires |results| > 0
    ensures (forall k :: 0 <= k < |results| ==> Mentions(results[k], terms)) ==> MostlyRelevant(results, terms)
    ensures (forall k :: 0 <= k < |results| ==> !Mentions(results[k], terms)) ==> !MostlyRelevant(results, terms)
  {
    CountRelevantAll(results, terms);
    CountRelevantNone(results, terms);
  }

  /** When the query and the topic hold no word at all, no result can be relevant. */
  lemma NoTermsNoRelevance(results: seq<SearchResult>, query: string, activeTopic: Option<string>)
    requires KeyTerms(query, activeTopic) == []
    ensures !MostlyRelevant(results, KeyTerms(query, activeTopic))
  {
    CountRelevantNone(results, []);
  }
}

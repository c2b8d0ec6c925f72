/**
 * Topic extraction (telegram_bot.py `extract_topic`, duplicated in utils.py): a short
 * label for the subject of a text, used as the conversation's active topic.
 */
module Topic {
  import opened Wrappers
  import opened Text

  /** One row of the topic table: a label and the keywords that indicate it. */
  datatype TopicEntry = TopicEntry(name: string, keywords: seq<string>)

  /** The topic table, in the order Python iterates the dictionary literal. */
  const TopicTable: seq<TopicEntry> := [
    TopicEntry("вселенная", ["вселенная", "космос", "галактика", "тёмная материя", "тёмная энергия", "большой взрыв"]),
    TopicEntry("музыка", ["группа", "солист", "песня", "альбом", "концерт"]),
    TopicEntry("код", ["код", "программа", "python", "javascript"]),
    TopicEntry("личностный рост", ["личностный рост", "мотивация", "саморазвитие", "цели"]),
    TopicEntry("эмоции", ["эмоции", "стресс", "депрессия", "счастье", "психология"]),
    TopicEntry("технологии", ["технологии", "гаджеты", "ai", "искусственный интеллект"])
  ]

  /** The sentinel label ("general"). */
  const General: string := "общее"

  /** Apology or "no information" markers: such a text says nothing about a topic. */
  predicate IsApology(lower: string) {
    Contains(lower, "извини") || Contains(lower, "нет информации")
  }

  /** `sum(keyword in text for keyword in keywords)`: how many listed keywords occur. */
  function Hits(text: string, keywords: seq<string>): (n: nat)
    ensures n <= |keywords|
  {
    if keywords == [] then 0
    else (if Contains(text, keywords[0]) then 1 else 0) + Hits(text, keywords[1..])
  }

  /** Two different listed keywords that occur count as two hits. */
  lemma {:induction false} TwoHits(text: string, keywords: seq<string>, i: nat, j: nat)
    requires i < j < |keywords|
    requires Contains(text, keywords[i]) && Contains(text, keywords[j])
    ensures Hits(text, keywords) >= 2
  {
    if i == 0 {
      OneHit(text, keywords[1..], j - 1);
    } else {
      TwoHits(text, keywords[1..], i - 1, j - 1);
    }
  }

  lemma {:induction false} OneHit(text: string, keywords: seq<string>, j: nat)
    requires j < |keywords| && Contains(text, keywords[j])
    ensures Hits(text, keywords) >= 1
  {
    if j > 0 {
      OneHit(text, keywords[1..], j - 1);
    }
  }

  /** Table row `k` is selected by at least two distinct keyword hits. */
  predicate Matches(lower: string, k: nat)
    requires k < |TopicTable|
  {
    Hits(lower, TopicTable[k].keywords) >= 2
  }

  /** The first row at or after `from` that matches, in table order. */
  function FirstTopicFrom(lower: string, from: nat): (r: Option<nat>)
    requires from <= |TopicTable|
    ensures r.Some? ==> from <= r.value < |TopicTable| && Matches(lower, r.value)
    ensures r.Some? ==> forall j :: from <= j < r.value ==> !Matches(lower, j)
    ensures r.None? ==> forall j :: from <= j < |TopicTable| ==> !Matches(lower, j)
    decreases |TopicTable| - from
  {
    if from == |TopicTable| then None
    else if Matches(lower, from) then Some(from)
    else FirstTopicFrom(lower, from + 1)
  }

  /**
   * The topic of `content`, decided in this order: an apology gives "общее"; otherwise
   * the first table row with two keyword hits; otherwise the first two `\w+` tokens
   * joined by a space; otherwise "общее".
   */
  function ExtractTopic(content: string): (r: string)
    ensures |r| > 0
    ensures IsApology(Lower(content)) ==> r == General
    ensures !IsApology(Lower(content)) && (exists k :: 0 <= k < |TopicTable| && Matches(Lower(content), k)) ==>
              exists k :: 0 <= k < |TopicTable| && Matches(Lower(content), k) && r == TopicTable[k].name
                          && forall j :: 0 <= j < k ==> !Matches(Lower(content), j)
    ensures !IsApology(Lower(content)) && (forall k :: 0 <= k < |TopicTable| ==> !Matches(Lower(content), k)) ==>
              var words := Words(Lower(content));
              r == if |words| >= 2 then words[0] + " " + words[1] else General
  {
    var lower := Lower(content);
    if IsApology(lower) then General
    else match FirstTopicFrom(lower, 0)
      case Some(k) => TopicTable[k].name
      case None =>
        var words := Words(lower);
        if |words| >= 2 then words[0] + " " + words[1] else General
  }

  /** Two keywords of the first row are enough: "космос" and "большой взрыв" give "вселенная". */
  lemma CosmosExample(content: string)
    requires !IsApology(Lower(content))
    requires Contains(Lower(content), "космос") && Contains(Lower(content), "большой взрыв")
    ensures ExtractTopic(content) == "вселенная"
  {
    var lower := Lower(content);
    TwoHits(lower, TopicTable[0].keywords, 1, 5);
    assert Matches(lower, 0);
  }
}

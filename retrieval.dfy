/** The content retrieval matcher run on a finished voice question, and the corpus it runs on. */
module Retrieval {
  import opened Wrappers
  import opened Seqs
  import opened Text
  import opened Content

  /** Some tag of the item, lower-cased, occurs inside the (lower-cased) query. */
  predicate SomeTagInQuery(query: string, tags: seq<string>) {
    exists t :: t in tags && Contains(query, ToLower(t))
  }

  /** The relevance test: the lower-cased transcript occurs inside the lower-cased title,
      description (when there is one) or category, or some lower-cased tag occurs inside
      the lower-cased transcript (the reverse direction). */
  predicate IsRelevant(transcript: string, item: ContentItem) {
    var q := ToLower(transcript);
    || Contains(ToLower(item.title), q)
    || (item.description.Some? && Contains(ToLower(item.description.value), q))
    || Contains(ToLower(item.category), q)
    || SomeTagInQuery(q, item.tags)
  }

  /** The relevant items of the corpus: exactly those that pass the relevance test,
      as a subsequence of the corpus (corpus order, no ranking, no cap). */
  function MatchContent(transcript: string, corpus: seq<ContentItem>): (r: seq<ContentItem>)
    ensures IsSubsequence(r, corpus)
    ensures forall item :: item in r <==> item in corpus && IsRelevant(transcript, item)
  {
    FilterIsSubsequence(item => IsRelevant(transcript, item), corpus);
    Filter(item => IsRelevant(transcript, item), corpus)
  }

  /** Each item's verdict is independent of the others: matching a concatenated corpus
      matches the two halves and concatenates, which fixes the output order. */
  lemma MatchContentConcat(transcript: string, a: seq<ContentItem>, b: seq<ContentItem>)
    ensures MatchContent(transcript, a + b) == MatchContent(transcript, a) + MatchContent(transcript, b)
  {
    FilterConcat(item => IsRelevant(transcript, item), a, b);
  }

  /** An item carrying an empty tag matches every transcript, because every string
      contains the empty string. */
  lemma EmptyTagMatchesEverything(transcript: string, item: ContentItem, corpus: seq<ContentItem>)
    requires "" in item.tags && item in corpus
    ensures item in MatchContent(transcript, corpus)
  {
    ContainsTrivial(ToLower(transcript));
    assert ToLower("") == "";
  }

  /** The query is searched for inside the title: a title equal to the transcript
      up to ASCII case always matches. */
  lemma TitleEqualToQueryMatches(transcript: string, item: ContentItem, corpus: seq<ContentItem>)
    requires item in corpus && ToLower(item.title) == ToLower(transcript)
    ensures item in MatchContent(transcript, corpus)
  {
    ContainsTrivial(ToLower(transcript));
  }

  /** The corpus the matcher receives: the first ten active library items (all of them when
      there are fewer), in library order. */
  function ActiveCorpus(library: seq<ContentItem>): (r: seq<ContentItem>)
    ensures |r| <= 10
    ensures forall item :: item in r ==> item in library && item.active
    ensures |r| == if |Filter(IsActive, library)| < 10 then |Filter(IsActive, library)| else 10
    ensures r == Filter(IsActive, library)[..|r|]
  {
    Take(Filter(IsActive, library), 10)
  }

  /** The retrieval step of a voice turn: a transcript that is empty or all whitespace
      retrieves nothing (the matcher is not run); otherwise the result is exactly the
      matches within the active corpus, so at most ten items come back. */
  function Retrieve(transcript: string, library: seq<ContentItem>): (r: Option<seq<ContentItem>>)
    ensures r.None? <==> forall k :: 0 <= k < |transcript| ==> IsWhitespace(transcript[k])
    ensures r.Some? ==> |r.value| <= 10
    ensures r.Some? ==> forall item :: item in r.value ==> item.active && IsRelevant(transcript, item)
    ensures r.Some? ==> r.value == MatchContent(transcript, ActiveCorpus(library))
  {
    if Trim(transcript) == [] then None
    else Some(MatchContent(transcript, ActiveCorpus(library)))
  }

  // A worked scenario: a corpus of two items and a spoken question that names the first
  // item's subject. Because titles are searched for the whole transcript (not the other
  // way round), and neither tag occurs in the transcript, nothing is retrieved.

  const ScenarioQuery := "pneumothorax protocol"

  lemma ScenarioQueryLower()
    ensures ToLower(ScenarioQuery) == ScenarioQuery
  {
    forall i | 0 <= i < |ScenarioQuery| ensures ToLower(ScenarioQuery)[i] == ScenarioQuery[i] {
    }
  }

  lemma TitleMisses()
    ensures !Contains(ToLower("Pneumothorax Management"), ScenarioQuery)
  {
    var ta := ToLower("Pneumothorax Management");
    assert |ta| == 23;
    forall i | 0 <= i <= 2 ensures !OccursAt(ta, ScenarioQuery, i) {
      assert ScenarioQuery[13] == 'p';
      assert ta[i + 13] != 'p';
      assert ta[i..i + |ScenarioQuery|][13] == ta[i + 13];
    }
  }

  lemma TraumaMisses()
    ensures !Contains(ScenarioQuery, "trauma")
  {
    forall i | 0 <= i <= |ScenarioQuery| - 6 ensures !OccursAt(ScenarioQuery, "trauma", i) {
      assert ScenarioQuery[i..i + 6][0] == ScenarioQuery[i] && ScenarioQuery[i..i + 6][1] == ScenarioQuery[i + 1];
    }
  }

  lemma VatsMisses()
    ensures !Contains(ScenarioQuery, "vats")
  {
    forall i | 0 <= i <= |ScenarioQuery| - 4 ensures !OccursAt(ScenarioQuery, "vats", i) {
      assert ScenarioQuery[i..i + 4][0] == ScenarioQuery[i];
    }
  }

  function ScenarioItem(title: string, category: string, tag: string): ContentItem {
    ContentItem(title, title, Text, "", None, [tag], category, None, None, true)
  }

  /** The transcript "pneumothorax protocol" retrieves neither "Pneumothorax Management"
      (tag "trauma") nor "VATS Overview" (tag "vats"): the result is empty. */
  lemma PneumothoraxScenario()
    ensures MatchContent(ScenarioQuery,
      [ScenarioItem("Pneumothorax Management", "Emergency Procedures", "trauma"),
       ScenarioItem("VATS Overview", "VATS Techniques", "vats")]) == []
  {
    var a := ScenarioItem("Pneumothorax Management", "Emergency Procedures", "trauma");
    var b := ScenarioItem("VATS Overview", "VATS Techniques", "vats");
    ScenarioQueryLower();
    TitleMisses();
    TraumaMisses();
    VatsMisses();
    assert ToLower("trauma") == "trauma";
    assert ToLower("vats") == "vats";
    assert !Contains(ToLower(a.category), ScenarioQuery) by {
      if Contains(ToLower(a.category), ScenarioQuery) { ContainsShorter(ToLower(a.category), ScenarioQuery); }
    }
    assert !Contains(ToLower(b.title), ScenarioQuery) by {
      if Contains(ToLower(b.title), ScenarioQuery) { ContainsShorter(ToLower(b.title), ScenarioQuery); }
    }
    assert !Contains(ToLower(b.category), ScenarioQuery) by {
      if Contains(ToLower(b.category), ScenarioQuery) { ContainsShorter(ToLower(b.category), ScenarioQuery); }
    }
    assert !IsRelevant(ScenarioQuery, a);
    assert !IsRelevant(ScenarioQuery, b);
  }
}

/**
 * The search tool: `mapToResults`, which turns an Instant Answer object into
 * an ordered list of `{title, url, snippet}` records, and `search.run`, which
 * fetches and then maps.
 */
module Search {
  import opened Wrappers
  import opened JsText
  import opened HtmlTags
  import opened DuckDuckGo

  datatype SearchResult = SearchResult(title: string, url: string, snippet: string)

  // ---------------------------------------------------------------------------
  // The record each field group contributes

  predicate AnswerQualifies(d: Response) {
    Truthy(d.Answer) && Truthy(d.AnswerType)
  }

  predicate AbstractQualifies(d: Response) {
    Truthy(d.Abstract) && Truthy(d.AbstractURL)
  }

  predicate DefinitionQualifies(d: Response) {
    Truthy(d.Definition) && Truthy(d.DefinitionURL)
  }

  function AnswerRecords(d: Response): seq<SearchResult> {
    if AnswerQualifies(d) then
      [SearchResult(OrElse(d.Heading, "Instant Answer"), OrElse(d.AbstractURL, ""), d.Answer.value)]
    else []
  }

  function AbstractRecords(d: Response): seq<SearchResult> {
    if AbstractQualifies(d) then
      [SearchResult(OrElse(d.Heading, "Summary"), d.AbstractURL.value, d.Abstract.value)]
    else []
  }

  function DefinitionRecords(d: Response): seq<SearchResult> {
    if DefinitionQualifies(d) then
      [SearchResult("Definition", d.DefinitionURL.value, d.Definition.value)]
    else []
  }

  /** An entry with both a text and a link is listed. */
  predicate Listed(e: Entry) {
    Truthy(e.Text) && Truthy(e.FirstURL)
  }

  /** The record of a listed `Results` entry; its snippet is not stripped. */
  function FlatRecord(e: Entry): SearchResult
    requires Listed(e)
  {
    SearchResult(e.Text.value, e.FirstURL.value, OrElse(e.Result, e.Text.value))
  }

  /** The records of the flat `Results` list, in list order. */
  function FlatRecords(es: seq<Entry>): seq<SearchResult> {
    if es == [] then []
    else
      var e := es[|es| - 1];
      FlatRecords(es[..|es| - 1]) + (if Listed(e) then [FlatRecord(e)] else [])
  }

  predicate DirectQualifies(t: Topic) {
    Truthy(t.Text) && Truthy(t.FirstURL)
  }

  predicate GroupQualifies(t: Topic) {
    Truthy(t.Name) && t.Topics.Some? && |t.Topics.value| > 0
  }

  /** The record of a topic that itself carries a text and a link. */
  function DirectRecords(t: Topic): seq<SearchResult> {
    if DirectQualifies(t) then
      [SearchResult(t.Text.value, t.FirstURL.value, StripTags(OrElse(t.Result, t.Text.value)))]
    else []
  }

  /** The record of a listed sub-topic of the group `name`. */
  function SubTopicRecord(name: string, e: Entry): SearchResult
    requires Listed(e)
  {
    SearchResult(name + ": " + e.Text.value, e.FirstURL.value, StripTags(OrElse(e.Result, e.Text.value)))
  }

  function SubTopicRecords(name: string, es: seq<Entry>): seq<SearchResult> {
    if es == [] then []
    else
      var e := es[|es| - 1];
      SubTopicRecords(name, es[..|es| - 1]) + (if Listed(e) then [SubTopicRecord(name, e)] else [])
  }

  /** The records of a named group's sub-topics. */
  function GroupRecords(t: Topic): seq<SearchResult> {
    if GroupQualifies(t) then SubTopicRecords(t.Name.value, t.Topics.value) else []
  }

  /** The records of the `RelatedTopics` list: per topic, its direct record, then its group's. */
  function TopicRecords(ts: seq<Topic>): seq<SearchResult> {
    if ts == [] then []
    else
      var t := ts[|ts| - 1];
      TopicRecords(ts[..|ts| - 1]) + DirectRecords(t) + GroupRecords(t)
  }

  function ListOf<T>(field: Option<seq<T>>): seq<T> {
    if field.Some? then field.value else []
  }

  /** The normalised list: answer, abstract, definition, results, related topics. */
  function Normalize(d: Response): seq<SearchResult> {
    AnswerRecords(d) + AbstractRecords(d) + DefinitionRecords(d)
      + FlatRecords(ListOf(d.Results)) + TopicRecords(ListOf(d.RelatedTopics))
  }

  // ---------------------------------------------------------------------------
  // mapToResults

  /** `mapToResults`: pushes the records of each field group in turn. */
  method MapToResults(data: Response) returns (results: seq<SearchResult>)
    ensures results == Normalize(data)
  {
    results := [];
    if Truthy(data.Answer) && Truthy(data.AnswerType) {
      results := results + [SearchResult(OrElse(data.Heading, "Instant Answer"), OrElse(data.AbstractURL, ""), data.Answer.value)];
    }
    assert results == AnswerRecords(data);
    if Truthy(data.Abstract) && Truthy(data.AbstractURL) {
      results := results + [SearchResult(OrElse(data.Heading, "Summary"), data.AbstractURL.value, data.Abstract.value)];
    }
    assert results == AnswerRecords(data) + AbstractRecords(data);
    if Truthy(data.Definition) && Truthy(data.DefinitionURL) {
      results := results + [SearchResult("Definition", data.DefinitionURL.value, data.Definition.value)];
    }
    assert results == AnswerRecords(data) + AbstractRecords(data) + DefinitionRecords(data);
    if data.Results.Some? && |data.Results.value| > 0 {
      results := PushResults(results, data.Results.value);
    } else {
      assert FlatRecords(ListOf(data.Results)) == [];
      assert results + [] == results;
    }
    assert results == AnswerRecords(data) + AbstractRecords(data) + DefinitionRecords(data)
      + FlatRecords(ListOf(data.Results));
    if data.RelatedTopics.Some? && |data.RelatedTopics.value| > 0 {
      results := PushRelatedTopics(results, data.RelatedTopics.value);
    } else {
      assert TopicRecords(ListOf(data.RelatedTopics)) == [];
      assert results + [] == results;
    }
  }

  /** The `Results` loop of `mapToResults`: one record per listed entry. */
  method PushResults(before: seq<SearchResult>, rs: seq<Entry>) returns (results: seq<SearchResult>)
    ensures results == before + FlatRecords(rs)
  {
    results := before;
    for i := 0 to |rs|
      invariant results == before + FlatRecords(rs[..i])
    {
      var result := rs[i];
      if Truthy(result.Text) && Truthy(result.FirstURL) {
        results := results + [SearchResult(result.Text.value, result.FirstURL.value, OrElse(result.Result, result.Text.value))];
      }
      assert rs[..i + 1][..i] == rs[..i];
    }
    assert rs[..|rs|] == rs;
  }

  /** The `RelatedTopics` loop of `mapToResults`: a topic's direct record, then its group's. */
  method PushRelatedTopics(before: seq<SearchResult>, ts: seq<Topic>) returns (results: seq<SearchResult>)
    ensures results == before + TopicRecords(ts)
  {
    results := before;
    for i := 0 to |ts|
      invariant results == before + TopicRecords(ts[..i])
    {
      var topic := ts[i];
      ghost var start := results;
      if Truthy(topic.Text) && Truthy(topic.FirstURL) {
        var cleanSnippet := StripTags(OrElse(topic.Result, topic.Text.value));
        results := results + [SearchResult(topic.Text.value, topic.FirstURL.value, cleanSnippet)];
      }
      if Truthy(topic.Name) && topic.Topics.Some? && |topic.Topics.value| > 0 {
        results := PushSubTopics(results, topic.Name.value, topic.Topics.value);
      }
      assert results == start + DirectRecords(topic) + GroupRecords(topic);
      TopicRecordsSnoc(ts, i);
      Assoc(before, TopicRecords(ts[..i]), DirectRecords(topic), GroupRecords(topic));
    }
    assert ts[..|ts|] == ts;
  }

  /** The inner `Topics` loop: one record per listed sub-topic, titled "Name: Text". */
  method PushSubTopics(before: seq<SearchResult>, name: string, subs: seq<Entry>) returns (results: seq<SearchResult>)
    ensures results == before + SubTopicRecords(name, subs)
  {
    results := before;
    for k := 0 to |subs|
      invariant results == before + SubTopicRecords(name, subs[..k])
    {
      var subTopic := subs[k];
      if Truthy(subTopic.Text) && Truthy(subTopic.FirstURL) {
        var cleanSnippet := StripTags(OrElse(subTopic.Result, subTopic.Text.value));
        results := results + [SearchResult(name + ": " + subTopic.Text.value, subTopic.FirstURL.value, cleanSnippet)];
      }
      assert subs[..k + 1][..k] == subs[..k];
    }
    assert subs[..|subs|] == subs;
  }

  lemma Assoc<T>(a: seq<T>, b: seq<T>, c: seq<T>, d: seq<T>)
    ensures a + b + c + d == a + (b + c + d)
  {
  }

  lemma TopicRecordsSnoc(ts: seq<Topic>, i: nat)
    requires i < |ts|
    ensures TopicRecords(ts[..i + 1]) == TopicRecords(ts[..i]) + DirectRecords(ts[i]) + GroupRecords(ts[i])
  {
    assert ts[..i + 1][..i] == ts[..i];
  }

  // ---------------------------------------------------------------------------
  // Properties of the normalised list

  /** The `Results` list is mapped entry by entry, so the records keep the list order. */
  lemma {:induction false} FlatRecordsAppend(a: seq<Entry>, b: seq<Entry>)
    ensures FlatRecords(a + b) == FlatRecords(a) + FlatRecords(b)
    decreases |b|
  {
    if b == [] {
      assert a + b == a;
    } else {
      var e := b[|b| - 1];
      assert (a + b)[..|a + b| - 1] == a + b[..|b| - 1];
      FlatRecordsAppend(a, b[..|b| - 1]);
    }
  }

  /** A `Results` entry gives exactly one record, in place, when it has a text and a link, and none otherwise. */
  lemma FlatRecordsSplit(a: seq<Entry>, e: Entry, b: seq<Entry>)
    ensures FlatRecords(a + [e] + b)
      == FlatRecords(a) + (if Listed(e) then [FlatRecord(e)] else []) + FlatRecords(b)
  {
    FlatRecordsAppend(a + [e], b);
    FlatRecordsAppend(a, [e]);
    assert [e][..0] == [];
  }

  lemma {:induction false} SubTopicRecordsAppend(name: string, a: seq<Entry>, b: seq<Entry>)
    ensures SubTopicRecords(name, a + b) == SubTopicRecords(name, a) + SubTopicRecords(name, b)
    decreases |b|
  {
    if b == [] {
      assert a + b == a;
    } else {
      assert (a + b)[..|a + b| - 1] == a + b[..|b| - 1];
      SubTopicRecordsAppend(name, a, b[..|b| - 1]);
    }
  }

  /** A sub-topic gives one record, titled "Name: Text", exactly when it has a text and a link. */
  lemma SubTopicRecordsSplit(name: string, a: seq<Entry>, e: Entry, b: seq<Entry>)
    ensures SubTopicRecords(name, a + [e] + b)
      == SubTopicRecords(name, a) + (if Listed(e) then [SubTopicRecord(name, e)] else []) + SubTopicRecords(name, b)
  {
    SubTopicRecordsAppend(name, a + [e], b);
    SubTopicRecordsAppend(name, a, [e]);
    assert [e][..0] == [];
  }

  lemma {:induction false} TopicRecordsAppend(a: seq<Topic>, b: seq<Topic>)
    ensures TopicRecords(a + b) == TopicRecords(a) + TopicRecords(b)
    decreases |b|
  {
    if b == [] {
      assert a + b == a;
    } else {
      var t := b[|b| - 1];
      assert (a + b)[..|a + b| - 1] == a + b[..|b| - 1];
      TopicRecordsAppend(a, b[..|b| - 1]);
      Assoc(TopicRecords(a), TopicRecords(b[..|b| - 1]), DirectRecords(t), GroupRecords(t));
    }
  }

  /**
   * A related topic contributes, in place, its own record and then one record
   * per listed sub-topic of its group; the two checks are independent.
   */
  lemma TopicRecordsSplit(a: seq<Topic>, t: Topic, b: seq<Topic>)
    ensures TopicRecords(a + [t] + b) == TopicRecords(a) + DirectRecords(t) + GroupRecords(t) + TopicRecords(b)
  {
    TopicRecordsAppend(a + [t], b);
    TopicRecordsAppend(a, [t]);
    assert [t][..0] == [];
    Assoc(TopicRecords(a), DirectRecords(t), GroupRecords(t), TopicRecords(b));
  }

  /** One entry that is both a direct topic and a named group gives both kinds of record. */
  lemma DirectAndGroupedTogether(text: string, url: string, name: string, sub: Entry)
    requires text != "" && url != "" && name != "" && Listed(sub)
    ensures var t := Topic(None, Some(url), Some(text), Some(name), Some([sub]));
      TopicRecords([t]) == [
        SearchResult(text, url, StripTags(text)),
        SearchResult(name + ": " + sub.Text.value, sub.FirstURL.value, StripTags(OrElse(sub.Result, sub.Text.value)))]
  {
    var t := Topic(None, Some(url), Some(text), Some(name), Some([sub]));
    assert [t][..0] == [];
    assert [sub][..0] == [];
    assert DirectRecords(t) == [SearchResult(text, url, StripTags(text))];
    assert SubTopicRecords(name, [sub]) == [SubTopicRecord(name, sub)];
    assert GroupRecords(t) == [SubTopicRecord(name, sub)];
    assert TopicRecords([t]) == [] + DirectRecords(t) + GroupRecords(t);
  }

  /** The flat records are empty exactly when no entry has both a text and a link. */
  lemma {:induction false} FlatRecordsEmpty(es: seq<Entry>)
    ensures FlatRecords(es) == [] <==> forall i :: 0 <= i < |es| ==> !Listed(es[i])
  {
    if es != [] {
      var init := es[..|es| - 1];
      FlatRecordsEmpty(init);
      assert forall i :: 0 <= i < |init| ==> init[i] == es[i];
    }
  }

  lemma {:induction false} SubTopicRecordsEmpty(name: string, es: seq<Entry>)
    ensures SubTopicRecords(name, es) == [] <==> forall i :: 0 <= i < |es| ==> !Listed(es[i])
  {
    if es != [] {
      var init := es[..|es| - 1];
      SubTopicRecordsEmpty(name, init);
      assert forall i :: 0 <= i < |init| ==> init[i] == es[i];
    }
  }

  /** A topic yields a record when it is a direct topic or a group with a listed sub-topic. */
  predicate TopicYields(t: Topic) {
    DirectQualifies(t) ||
    (GroupQualifies(t) && exists j :: 0 <= j < |t.Topics.value| && Listed(t.Topics.value[j]))
  }

  lemma {:induction false} TopicRecordsEmpty(ts: seq<Topic>)
    ensures TopicRecords(ts) == [] <==> forall i :: 0 <= i < |ts| ==> !TopicYields(ts[i])
  {
    if ts != [] {
      var init, t := ts[..|ts| - 1], ts[|ts| - 1];
      TopicRecordsEmpty(init);
      assert forall i :: 0 <= i < |init| ==> init[i] == ts[i];
      assert DirectRecords(t) == [] <==> !DirectQualifies(t);
      if GroupQualifies(t) {
        SubTopicRecordsEmpty(t.Name.value, t.Topics.value);
      }
      assert GroupRecords(t) == [] <==>
        !(GroupQualifies(t) && exists j :: 0 <= j < |t.Topics.value| && Listed(t.Topics.value[j]));
      assert TopicRecords(ts) == [] <==>
        TopicRecords(init) == [] && DirectRecords(t) == [] && GroupRecords(t) == [];
    }
  }

  /** Some field group of the response qualifies for a record. */
  predicate HasContent(d: Response) {
    AnswerQualifies(d) || AbstractQualifies(d) || DefinitionQualifies(d) ||
    (exists i :: 0 <= i < |ListOf(d.Results)| && Listed(ListOf(d.Results)[i])) ||
    (exists i :: 0 <= i < |ListOf(d.RelatedTopics)| && TopicYields(ListOf(d.RelatedTopics)[i]))
  }

  /** The list is empty exactly when no field group qualifies. */
  lemma NormalizeEmptyIff(d: Response)
    ensures Normalize(d) == [] <==> !HasContent(d)
  {
    FlatRecordsEmpty(ListOf(d.Results));
    TopicRecordsEmpty(ListOf(d.RelatedTopics));
  }

  /** A response whose every field is absent or empty normalises to the empty list. */
  lemma EmptyResponse(d: Response)
    requires !Truthy(d.Answer) && !Truthy(d.Abstract) && !Truthy(d.Definition)
    requires ListOf(d.Results) == [] && ListOf(d.RelatedTopics) == []
    ensures Normalize(d) == []
  {
    NormalizeEmptyIff(d);
  }

  /** A record a reader can use: a title and a link. */
  predicate Linked(r: SearchResult) {
    r.title != "" && r.url != ""
  }

  lemma {:induction false} FlatRecordsLinked(es: seq<Entry>)
    ensures forall r :: r in FlatRecords(es) ==> Linked(r) && r.snippet != ""
  {
    if es != [] {
      FlatRecordsLinked(es[..|es| - 1]);
    }
  }

  lemma {:induction false} SubTopicRecordsLinked(name: string, es: seq<Entry>)
    ensures forall r :: r in SubTopicRecords(name, es) ==> Linked(r) && NoTag(r.snippet)
  {
    if es != [] {
      var e := es[|es| - 1];
      SubTopicRecordsLinked(name, es[..|es| - 1]);
      if Listed(e) {
        StripTagsNoTag(OrElse(e.Result, e.Text.value));
      }
    }
  }

  /** Every related-topic record has a title and a link, and its snippet holds no tag. */
  lemma {:induction false} TopicRecordsLinked(ts: seq<Topic>)
    ensures forall r :: r in TopicRecords(ts) ==> Linked(r) && NoTag(r.snippet)
  {
    if ts != [] {
      var t := ts[|ts| - 1];
      TopicRecordsLinked(ts[..|ts| - 1]);
      if DirectQualifies(t) {
        StripTagsNoTag(OrElse(t.Result, t.Text.value));
      }
      if GroupQualifies(t) {
        SubTopicRecordsLinked(t.Name.value, t.Topics.value);
      }
    }
  }

  /**
   * Every record has a non-empty title; every record has a non-empty url
   * except possibly the answer record, which is always first.
   */
  lemma NormalizeWellFormed(d: Response)
    ensures forall k :: 0 <= k < |Normalize(d)| ==> Normalize(d)[k].title != ""
    ensures forall k :: 0 <= k < |Normalize(d)| && (k > 0 || !AnswerQualifies(d)) ==> Normalize(d)[k].url != ""
  {
    var flat, topics := FlatRecords(ListOf(d.Results)), TopicRecords(ListOf(d.RelatedTopics));
    FlatRecordsLinked(ListOf(d.Results));
    TopicRecordsLinked(ListOf(d.RelatedTopics));
    var n := Normalize(d);
    var head := AnswerRecords(d) + AbstractRecords(d) + DefinitionRecords(d);
    assert n == head + flat + topics;
    forall k | 0 <= k < |n|
      ensures n[k].title != ""
      ensures k > 0 || !AnswerQualifies(d) ==> n[k].url != ""
    {
      if k < |head| {
      } else if k < |head| + |flat| {
        assert n[k] == flat[k - |head|];
      } else {
        assert n[k] == topics[k - |head| - |flat|];
      }
    }
  }

  /** The answer record, when present, comes first, with its fallbacks. */
  lemma AnswerFirst(d: Response)
    ensures AnswerQualifies(d) ==>
      (|Normalize(d)| >= 1 &&
       Normalize(d)[0] == SearchResult(OrElse(d.Heading, "Instant Answer"), OrElse(d.AbstractURL, ""), d.Answer.value))
    ensures !AnswerQualifies(d) ==> Normalize(d) == Normalize(d.(Answer := None))
  {
  }

  /**
   * The abstract record follows the answer record and needs both `Abstract`
   * and `AbstractURL`, titled by the heading or `Summary`; the definition
   * record follows them and needs both `Definition` and `DefinitionURL`.
   * A group that does not qualify contributes nothing.
   */
  lemma AbstractThenDefinition(d: Response)
    ensures AbstractQualifies(d) ==>
      (|Normalize(d)| > |AnswerRecords(d)| &&
       Normalize(d)[|AnswerRecords(d)|] == SearchResult(OrElse(d.Heading, "Summary"), d.AbstractURL.value, d.Abstract.value))
    ensures DefinitionQualifies(d) ==>
      (|Normalize(d)| > |AnswerRecords(d)| + |AbstractRecords(d)| &&
       Normalize(d)[|AnswerRecords(d)| + |AbstractRecords(d)|] == SearchResult("Definition", d.DefinitionURL.value, d.Definition.value))
    ensures !AbstractQualifies(d) ==> Normalize(d) == Normalize(d.(Abstract := None))
    ensures !DefinitionQualifies(d) ==> Normalize(d) == Normalize(d.(Definition := None))
  {
  }

  /**
   * Without a heading the answer record is titled `Instant Answer` and the
   * abstract record `Summary`; with no other content these are the only two.
   */
  lemma MissingTitles(d: Response)
    requires AnswerQualifies(d) && AbstractQualifies(d) && d.Heading.None?
    requires !DefinitionQualifies(d) && FlatRecords(ListOf(d.Results)) == [] && TopicRecords(ListOf(d.RelatedTopics)) == []
    ensures |Normalize(d)| == 2
    ensures Normalize(d)[0].title == "Instant Answer" && Normalize(d)[1].title == "Summary"
  {
    AbstractThenDefinition(d);
  }

  /**
   * The all-fields case: answer, abstract and definition qualify, two listed
   * results, two direct topics. Seven records, in priority order, with the
   * heading as title of the first two.
   */
  lemma AllFieldsSevenRecords(d: Response, r1: Entry, r2: Entry, t1: Topic, t2: Topic)
    requires AnswerQualifies(d) && AbstractQualifies(d) && DefinitionQualifies(d) && Truthy(d.Heading)
    requires d.Results == Some([r1, r2]) && Listed(r1) && Listed(r2)
    requires d.RelatedTopics == Some([t1, t2])
    requires DirectQualifies(t1) && !GroupQualifies(t1) && DirectQualifies(t2) && !GroupQualifies(t2)
    ensures |Normalize(d)| == 7
    ensures Normalize(d)[0] == SearchResult(d.Heading.value, d.AbstractURL.value, d.Answer.value)
    ensures Normalize(d)[1] == SearchResult(d.Heading.value, d.AbstractURL.value, d.Abstract.value)
    ensures Normalize(d)[2] == SearchResult("Definition", d.DefinitionURL.value, d.Definition.value)
    ensures Normalize(d)[3] == FlatRecord(r1) && Normalize(d)[4] == FlatRecord(r2)
    ensures Normalize(d)[5].title == t1.Text.value && Normalize(d)[6].title == t2.Text.value
  {
    FlatRecordsSplit([r1], r2, []);
    FlatRecordsSplit([], r1, []);
    assert [r1] + [r2] + [] == [r1, r2];
    assert [] + [r1] + [] == [r1];
    TopicRecordsSplit([t1], t2, []);
    TopicRecordsSplit([], t1, []);
    assert [t1] + [t2] + [] == [t1, t2];
    assert [] + [t1] + [] == [t1];
  }

  /** A related-topic snippet can strip to nothing, so snippets are not always non-empty. */
  lemma RelatedSnippetMayBeEmpty(url: string)
    requires url != ""
    ensures DirectRecords(Topic(None, Some(url), Some("<b></b>"), None, None))
      == [SearchResult("<b></b>", url, "")]
  {
    StripTagsToEmpty();
  }

  // ---------------------------------------------------------------------------
  // search.run

  /** `search.run`: fetch, then map; a fetch failure propagates unchanged. */
  method Run(query: string, network: seq<Outcome>) returns (r: Result<seq<SearchResult>, string>)
    requires |network| >= MaxRetries
    ensures r.Failure? <==> AllFail(network)
    ensures r.Failure? ==> r.error == ExhaustedMessage(Attempt(network[MaxRetries - 1]).error)
    ensures r.Success? ==> exists k: nat :: SucceedsAt(network, k) && r.value == Normalize(network[k].body.data)
  {
    var data, fetched, delays := SearchInstantAnswer(query, network);
    if data.Failure? {
      return Failure(data.error);
    }
    var results := MapToResults(data.value);
    r := Success(results);
  }
}

/**
 * The DuckDuckGo Instant Answer client: the loosely shaped response, the fixed
 * request URL, and the bounded retry loop. The network is an oracle: the i-th
 * call to `fetch` yields `network[i]`; the waits are recorded instead of slept.
 */
module DuckDuckGo {
  import opened Wrappers
  import opened JsText
  import UriComponent

  /** An entry of `Results`, or a sub-topic of a grouped related topic. */
  datatype Entry = Entry(Result: Option<string>, FirstURL: Option<string>, Text: Option<string>)

  /** An entry of `RelatedTopics`: a direct topic, a named group, or both. */
  datatype Topic = Topic(
    Result: Option<string>, FirstURL: Option<string>, Text: Option<string>,
    Name: Option<string>, Topics: Option<seq<Entry>>)

  /** The Instant Answer object; no field is guaranteed to be present. */
  datatype Response = Response(
    Abstract: Option<string>, AbstractText: Option<string>, AbstractSource: Option<string>,
    AbstractURL: Option<string>, Image: Option<string>, Heading: Option<string>,
    Answer: Option<string>, AnswerType: Option<string>, Definition: Option<string>,
    DefinitionSource: Option<string>, DefinitionURL: Option<string>,
    RelatedTopics: Option<seq<Topic>>, Results: Option<seq<Entry>>, Type: Option<string>)

  const MaxRetries: nat := 3
  const RetryDelayMs: nat := 1000

  const Endpoint := "https://api.duckduckgo.com/?q="
  const Flags := "&format=json&no_html=1&skip_disambig=1"

  /** The one URL every attempt fetches. */
  function RequestUrl(query: string): (url: string)
    ensures |url| >= |Endpoint| + |Flags|
    ensures url[..|Endpoint|] == Endpoint && url[|url| - |Flags|..] == Flags
    ensures UriComponent.PercentDecode(url[|Endpoint|..|url| - |Flags|]) == Some(UriComponent.Utf8String(query))
    ensures forall i :: |Endpoint| <= i < |url| - |Flags| ==> url[i] != '&' && url[i] != '#' && url[i] != ' '
  {
    var q := UriComponent.Encode(query);
    var url := Endpoint + q + Flags;
    assert url[|Endpoint|..|url| - |Flags|] == q;
    UriComponent.DecodeEncode(query);
    url
  }

  /** The request URL for the query "test query": the space is sent as `%20`. */
  lemma RequestUrlExample()
    ensures RequestUrl("test query") == Endpoint + "test%20query" + Flags
  {
    UriComponent.EncodeTestQuery();
  }

  /** What `response.json()` yields on a response: the parsed object, or a parse error. */
  datatype JsonBody = Parsed(data: Response) | Unparsable(message: string)

  /** What one `fetch` does: resolve with a response, or reject with an error message. */
  datatype Outcome = Responded(status: nat, body: JsonBody) | Rejected(message: string)

  /** `response.ok`: the status is in the 2xx range. */
  predicate Ok(status: nat) {
    200 <= status <= 299
  }

  function HttpErrorMessage(status: nat): string {
    "HTTP error! status: " + NumberToString(status)
  }

  /** The body of one `try` block: the parsed response, or the message of the error it throws. */
  function Attempt(o: Outcome): (r: Result<Response, string>)
    ensures r.Success? <==> o.Responded? && Ok(o.status) && o.body.Parsed?
    ensures r.Success? ==> r.value == o.body.data
    ensures o.Responded? && !Ok(o.status) ==> r == Failure(HttpErrorMessage(o.status))
    ensures o.Rejected? ==> r == Failure(o.message)
    ensures o.Responded? && Ok(o.status) && o.body.Unparsable? ==> r == Failure(o.body.message)
  {
    match o
    case Rejected(message) => Failure(message)
    case Responded(status, body) =>
      if !Ok(status) then Failure(HttpErrorMessage(status))
      else
        match body
        case Parsed(data) => Success(data)
        case Unparsable(message) => Failure(message)
  }

  /** The status of a failed response can be read back from its error message. */
  lemma HttpErrorMessageNamesStatus(status: nat)
    ensures var m := HttpErrorMessage(status);
      |m| > 20 && m[..20] == "HTTP error! status: " && DecimalValue(m[20..]) == status
  {
    var m := HttpErrorMessage(status);
    assert m[20..] == NumberToString(status);
    NumberToStringRoundTrip(status);
  }

  function ExhaustedMessage(lastError: string): string {
    "Failed to fetch DuckDuckGo results after " + NumberToString(MaxRetries) + " attempts: " + lastError
  }

  /** The aggregated error names the attempt count, 3, and ends with the last error. */
  lemma ExhaustedMessageText(lastError: string)
    ensures ExhaustedMessage(lastError) == "Failed to fetch DuckDuckGo results after 3 attempts: " + lastError
  {
  }

  /** Attempt `k` is the first one that succeeds. */
  predicate SucceedsAt(network: seq<Outcome>, k: nat)
    requires |network| >= MaxRetries
  {
    k < MaxRetries && Attempt(network[k]).Success? &&
    forall j :: 0 <= j < k ==> Attempt(network[j]).Failure?
  }

  /** Every attempt the client is allowed fails. */
  predicate AllFail(network: seq<Outcome>)
    requires |network| >= MaxRetries
  {
    forall j :: 0 <= j < MaxRetries ==> Attempt(network[j]).Failure?
  }

  /** Exactly one of the two cases holds, and the successful attempt is unique. */
  lemma SearchCases(network: seq<Outcome>)
    requires |network| >= MaxRetries
    ensures AllFail(network) <==> forall k :: 0 <= k < MaxRetries ==> !SucceedsAt(network, k)
    ensures forall k1, k2 :: SucceedsAt(network, k1) && SucceedsAt(network, k2) ==> k1 == k2
  {
    if !AllFail(network) {
      var k :| 0 <= k < MaxRetries && Attempt(network[k]).Success?;
      if SucceedsAt(network, 0) {
      } else if SucceedsAt(network, 1) {
      } else {
        assert SucceedsAt(network, 2);
      }
    }
  }

  /**
   * `searchInstantAnswer`: up to `MaxRetries` fetches of the same URL; the
   * first success is returned at once; after the k-th failure (from 0) the
   * client waits `RetryDelayMs * (k + 1)` unless it was the last attempt;
   * after the last failure it reports the last error.
   */
  method SearchInstantAnswer(query: string, network: seq<Outcome>)
    returns (r: Result<Response, string>, fetched: seq<string>, delays: seq<nat>)
    requires |network| >= MaxRetries
    ensures 1 <= |fetched| <= MaxRetries
    ensures forall i :: 0 <= i < |fetched| ==> fetched[i] == RequestUrl(query)
    ensures forall j :: 0 <= j < |delays| ==> delays[j] == RetryDelayMs * (j + 1)
    ensures r.Success? ==> SucceedsAt(network, |fetched| - 1) && r.value == network[|fetched| - 1].body.data
    ensures r.Success? ==> |delays| == |fetched| - 1
    ensures r.Failure? ==> AllFail(network) && |fetched| == MaxRetries && |delays| == MaxRetries - 1
    ensures r.Failure? ==> r.error == ExhaustedMessage(Attempt(network[MaxRetries - 1]).error)
  {
    var url := RequestUrl(query);
    var lastError := "";
    fetched, delays := [], [];
    for attempt := 0 to MaxRetries
      invariant |fetched| == attempt
      invariant forall i :: 0 <= i < attempt ==> fetched[i] == url
      invariant forall j :: 0 <= j < attempt ==> Attempt(network[j]).Failure?
      invariant attempt > 0 ==> lastError == Attempt(network[attempt - 1]).error
      invariant |delays| == if attempt == MaxRetries then MaxRetries - 1 else attempt
      invariant forall j :: 0 <= j < |delays| ==> delays[j] == RetryDelayMs * (j + 1)
    {
      fetched := fetched + [url];
      var outcome := Attempt(network[attempt]);
      if outcome.Success? {
        return outcome, fetched, delays;
      }
      lastError := outcome.error;
      if attempt < MaxRetries - 1 {
        delays := delays + [RetryDelayMs * (attempt + 1)];
      }
    }
    r := Failure(ExhaustedMessage(lastError));
  }

  /** When every attempt fails the client waits 1000 ms, then 2000 ms: 3000 ms in all. */
  lemma BackoffIsLinear(delays: seq<nat>)
    requires |delays| == MaxRetries - 1
    requires forall j :: 0 <= j < |delays| ==> delays[j] == RetryDelayMs * (j + 1)
    ensures delays == [1000, 2000]
    ensures delays[0] + delays[1] == 3000
  {
  }

  /** Three network errors: three fetches, waits of 1000 and 2000 ms, and the aggregated error. */
  method NetworkDown(query: string, message: string)
    returns (r: Result<Response, string>, fetched: seq<string>, delays: seq<nat>)
    ensures r == Failure("Failed to fetch DuckDuckGo results after 3 attempts: " + message)
    ensures |fetched| == 3 && delays == [1000, 2000]
  {
    var network := [Rejected(message), Rejected(message), Rejected(message)];
    r, fetched, delays := SearchInstantAnswer(query, network);
    ExhaustedMessageText(message);
  }

  /** A failure and then a success: two fetches, one wait of 1000 ms, and the body of the second. */
  method RecoversOnSecondAttempt(query: string, message: string, data: Response, later: Outcome)
    returns (r: Result<Response, string>, fetched: seq<string>, delays: seq<nat>)
    ensures r == Success(data)
    ensures |fetched| == 2 && delays == [1000]
  {
    var network := [Rejected(message), Responded(200, Parsed(data)), later];
    r, fetched, delays := SearchInstantAnswer(query, network);
    assert SucceedsAt(network, 1);
  }
}

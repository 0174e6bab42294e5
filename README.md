# freesearch-mcpserver core, modelled in Dafny

This project models the logic at the centre of a small MCP server that offers
web search through the DuckDuckGo Instant Answer API and builds summarisation
prompts from templates. It has three parts:

- **Result normaliser** (`Search`, with `HtmlTags`): `mapToResults` turns a
  loosely shaped Instant Answer object into an ordered list of
  `{title, url, snippet}` records. The order is answer, abstract, definition,
  the flat `Results`, then the `RelatedTopics` (direct entries and grouped
  sub-topics). Related-topic snippets have `<...>` tags removed.
  `search.run` fetches and then maps.
- **Search client** (`DuckDuckGo`, with `UriComponent` and `JsText`):
  `searchInstantAnswer` builds the request URL with `encodeURIComponent`,
  makes up to 3 fetch attempts, and waits 1000 ms then 2000 ms between them.
  When every attempt fails it reports one aggregated error.
- **Template store** (`Prompts`): the `PromptManager` class. It holds the
  merged prompt texts (defaults overlaid by an optional override file), one
  compiled template per prompt, and the override path. Its operations are
  load, compile, lookup, render, reload and set-override.

Modelling choices:

- Every JSON field is an `Option`. JavaScript truthiness of a string field is
  `JsText.Truthy`: present and not `""`. `a || b` is `JsText.OrElse`.
- `fetch` is an oracle. The i-th call yields `network[i]`: either a response
  (status and parsed or unparsable JSON body) or a rejection with a message.
  A response is ok when its status is 200–299. The oracle must offer one
  outcome for each of the three attempts the client may make. Waits are
  returned as a list of milliseconds instead of being slept.
- The file system is a map from path to file content. `existsSync(p)` is
  `p in fs`. A file holds either a parsed YAML mapping or a read/parse error
  text. A missing default file gives Node's ENOENT message.
- Handlebars compilation is the opaque total function `compile` that the
  store is created with. A compiled template is a function from a JSON-like
  `Value` to text.
- `mapToResults` is one function in the source. Here it is one method per
  source loop (`PushResults`, `PushRelatedTopics`, `PushSubTopics`), each
  proved against the specification functions `FlatRecords`, `TopicRecords`
  and `SubTopicRecords`. `MapToResults` is proved equal to `Normalize`.
- Snippets are not always non-empty: a related topic whose text is
  `"<b></b>"` gets the snippet `""` (`Search.RelatedSnippetMayBeEmpty`).
- `PromptManager.Valid()` is the store's invariant. It holds after
  construction and after every reload: the compiled map has exactly the
  prompt keys, each mapped to that prompt's compiled text.

## Model

| member | source | states |
|---|---|---|
| `JsText.OrElse` | src/mcp/tools/search.ts:21-22 | `field \|\| fallback` is the field when it is truthy and the fallback otherwise; the result is non-empty iff the field is truthy or the fallback is non-empty |
| `JsText.NumberToString` | src/mcp/resources/duckduckgo.ts:68 | the decimal numeral of a status is non-empty, all digits, and starts with `0` only for 0 |
| `JsText.NumberToStringRoundTrip` | src/mcp/resources/duckduckgo.ts:68 | reading the numeral back gives the number |
| `JsText.NumberToStringInjective` | src/mcp/resources/duckduckgo.ts:68 | distinct statuses give distinct numerals |
| `UriComponent.Utf8` | src/mcp/resources/duckduckgo.ts:59 | a character encodes to 1–4 UTF-8 bytes; exactly the ASCII characters take one byte, which is the character's code |
| `UriComponent.Utf8RoundTrip` | src/mcp/resources/duckduckgo.ts:59 | decoding a character's UTF-8 bytes gives its code point back |
| `UriComponent.Escape` | src/mcp/resources/duckduckgo.ts:59 | escaping bytes gives three characters per byte, all `%` or unreserved |
| `UriComponent.Encode` | src/mcp/resources/duckduckgo.ts:59 | `encodeURIComponent` leaves only unreserved characters and `%` in its output, and never shortens the text |
| `UriComponent.DecodeEscape` | src/mcp/resources/duckduckgo.ts:59 | percent-decoding escaped bytes followed by any text yields those bytes first |
| `UriComponent.DecodeEncodeChar` | src/mcp/resources/duckduckgo.ts:59 | percent-decoding one encoded character yields its UTF-8 bytes |
| `UriComponent.DecodeEncode` | src/mcp/resources/duckduckgo.ts:59 | percent-decoding the encoded query yields exactly the UTF-8 bytes of the query |
| `UriComponent.EncodeUnescaped` | src/mcp/resources/duckduckgo.ts:59 | a text of unreserved characters is its own encoding |
| `UriComponent.EncodeAppend` | src/mcp/resources/duckduckgo.ts:59 | encoding distributes over concatenation |
| `UriComponent.EncodeSpace` | src/mcp/resources/duckduckgo.ts:59 | a space is encoded as `%20` |
| `UriComponent.EncodeTestQuery` | tests/duckduckgo.test.ts:36-38 | `"test query"` is encoded as `"test%20query"` |
| `UriComponent.EncodeNonAscii` | src/mcp/resources/duckduckgo.ts:59 | `é` is encoded as `%C3%A9`, its UTF-8 bytes |
| `DuckDuckGo.RequestUrl` | src/mcp/resources/duckduckgo.ts:59 | the URL is the fixed endpoint, then the encoded query, then the fixed flags; the query part holds no `&`, `#` or space, and percent-decodes to the query's UTF-8 bytes |
| `DuckDuckGo.RequestUrlExample` | tests/duckduckgo.test.ts:36-38 | the URL for `"test query"` is `https://api.duckduckgo.com/?q=test%20query&format=json&no_html=1&skip_disambig=1` |
| `DuckDuckGo.Attempt` | src/mcp/resources/duckduckgo.ts:64-75 | one attempt succeeds iff the response is ok and its JSON parses, and then returns the parsed body; a non-ok status fails with `HTTP error! status: <status>`; a rejection or parse failure fails with its own message |
| `DuckDuckGo.HttpErrorMessageNamesStatus` | src/mcp/resources/duckduckgo.ts:67-69 | the HTTP error message starts with `HTTP error! status: ` and the status can be read back from the rest |
| `DuckDuckGo.ExhaustedMessageText` | src/mcp/resources/duckduckgo.ts:85 | the final error is `Failed to fetch DuckDuckGo results after 3 attempts: ` followed by the last attempt's message |
| `DuckDuckGo.SearchCases` | src/mcp/resources/duckduckgo.ts:63-85 | either all three attempts fail or exactly one attempt is the first success, never both |
| `DuckDuckGo.SearchInstantAnswer` | src/mcp/resources/duckduckgo.ts:58-86 | 1 to 3 fetches, all of the one request URL; on success the first successful attempt's body is returned after exactly that many fetches and one wait fewer; on failure all 3 attempts failed, 2 waits were issued, and the error embeds the last failure's message; the j-th wait is 1000·(j+1) ms |
| `DuckDuckGo.BackoffIsLinear` | src/mcp/resources/duckduckgo.ts:77-80 | on full failure the waits are exactly 1000 then 2000 ms, 3000 ms in total |
| `DuckDuckGo.NetworkDown` | tests/duckduckgo.test.ts:65-74 | three network errors give three fetches, waits of 1000 and 2000 ms, and `Failed to fetch DuckDuckGo results after 3 attempts: <message>` |
| `DuckDuckGo.RecoversOnSecondAttempt` | tests/duckduckgo.test.ts:76-95 | a failure followed by a success gives two fetches, one wait of 1000 ms, and the second response's body |
| `HtmlTags.StripTags` | src/mcp/tools/search.ts:64 | removing `<...>` matches never lengthens the text |
| `HtmlTags.StripTagsChars` | src/mcp/tools/search.ts:64 | every character of the stripped text occurs in the input |
| `HtmlTags.StripTagsNoTag` | src/mcp/tools/search.ts:64-77 | the stripped text holds no `<` that is later followed by a `>` |
| `HtmlTags.StripTagsIdentity` | src/mcp/tools/search.ts:64 | a text without such a pair is unchanged |
| `HtmlTags.StripTagsIdempotent` | src/mcp/tools/search.ts:64-77 | stripping twice is the same as stripping once |
| `HtmlTags.StripTagsFixpoint` | src/mcp/tools/search.ts:64 | stripping leaves a text unchanged iff it holds no tag |
| `HtmlTags.StripTagsKeep` | src/mcp/tools/search.ts:64 | text without `<` in front of the rest is kept as it is |
| `HtmlTags.StripTagsDrop` | src/mcp/tools/search.ts:64 | a complete tag in front of the rest is deleted |
| `HtmlTags.StripTagsElement` | src/mcp/tools/search.ts:64 | an opening tag, plain text, a closing tag and plain text strip to the two texts, as `<b>bold</b> text` becomes `bold text` |
| `HtmlTags.StripTagsBold` | src/mcp/tools/search.ts:64 | `<b>bold</b> text` strips to `bold text` |
| `HtmlTags.StripTagsLoneAngle` | src/mcp/tools/search.ts:64 | a `<` with no later `>` is kept: `1 < 2` is unchanged |
| `HtmlTags.StripTagsToEmpty` | src/mcp/tools/search.ts:64 | `<b></b>` strips to the empty string |
| `Search.MapToResults` | src/mcp/tools/search.ts:15-90 | the records pushed are exactly `Normalize(data)`: answer, abstract, definition, results, related topics |
| `Search.PushResults` | src/mcp/tools/search.ts:46-56 | the `Results` loop appends exactly the flat records of the list |
| `Search.PushRelatedTopics` | src/mcp/tools/search.ts:59-87 | the `RelatedTopics` loop appends exactly the topic records of the list |
| `Search.PushSubTopics` | src/mcp/tools/search.ts:73-85 | the `Topics` loop appends exactly the sub-topic records of the group |
| `Search.FlatRecordsAppend` | src/mcp/tools/search.ts:47-55 | the flat records of two lists are those of the first, then those of the second |
| `Search.FlatRecordsSplit` | src/mcp/tools/search.ts:47-55 | a `Results` entry gives exactly one record, in place, iff `Text` and `FirstURL` are non-empty; its snippet is `Result` or else `Text`, not stripped |
| `Search.SubTopicRecordsAppend` | src/mcp/tools/search.ts:74-84 | the sub-topic records of two lists are those of the first, then those of the second |
| `Search.SubTopicRecordsSplit` | src/mcp/tools/search.ts:74-84 | a sub-topic gives exactly one record, in place, titled `Name: Text`, iff it has a text and a link |
| `Search.TopicRecordsAppend` | src/mcp/tools/search.ts:60-86 | the topic records of two lists are those of the first, then those of the second |
| `Search.TopicRecordsSplit` | src/mcp/tools/search.ts:60-86 | a related topic contributes, in place, its direct record and then its group's records |
| `Search.DirectAndGroupedTogether` | src/mcp/tools/search.ts:62-85 | one entry that is both a direct topic and a named group gives both records, direct first |
| `Search.FlatRecordsEmpty` | src/mcp/tools/search.ts:46-56 | the flat records are empty iff no entry has both a text and a link |
| `Search.SubTopicRecordsEmpty` | src/mcp/tools/search.ts:74-84 | a group's records are empty iff no sub-topic has both a text and a link |
| `Search.TopicRecordsEmpty` | src/mcp/tools/search.ts:59-87 | the topic records are empty iff no topic is direct or a group with a listed sub-topic |
| `Search.NormalizeEmptyIff` | src/mcp/tools/search.ts:15-89 | the result list is empty iff no field group qualifies |
| `Search.EmptyResponse` | tests/search.test.ts:99-107 | a response with every field absent or empty gives the empty list |
| `Search.FlatRecordsLinked` | src/mcp/tools/search.ts:48-53 | every flat record has a non-empty title, url and snippet |
| `Search.SubTopicRecordsLinked` | src/mcp/tools/search.ts:75-82 | every sub-topic record has a non-empty title and url, and a tag-free snippet |
| `Search.TopicRecordsLinked` | src/mcp/tools/search.ts:59-87 | every related-topic record has a non-empty title and url, and a tag-free snippet |
| `Search.NormalizeWellFormed` | src/mcp/tools/search.ts:19-85 | every title is non-empty; every url is non-empty except possibly the answer record's, which is first |
| `Search.AnswerFirst` | src/mcp/tools/search.ts:19-25 | when `Answer` and `AnswerType` are non-empty the first record is titled `Heading` or `Instant Answer`, links `AbstractURL` or `""`, and has the answer as snippet; otherwise `Answer` has no effect |
| `Search.AbstractThenDefinition` | src/mcp/tools/search.ts:28-43 | the abstract record, titled `Heading` or `Summary`, comes right after the answer record and needs both `Abstract` and `AbstractURL`; the definition record, titled `Definition`, comes next and needs both `Definition` and `DefinitionURL`; a group that does not qualify has no effect |
| `Search.MissingTitles` | tests/search.test.ts:83-97 | without a heading, an answer and an abstract give exactly two records, titled `Instant Answer` and `Summary` |
| `Search.AllFieldsSevenRecords` | tests/search.test.ts:14-63 | answer, abstract and definition plus two results and two direct topics give 7 records in priority order, the first two titled by the heading, the third `Definition` |
| `Search.RelatedSnippetMayBeEmpty` | src/mcp/tools/search.ts:62-69 | a direct topic with text `<b></b>` gets the empty snippet |
| `Search.Run` | src/mcp/tools/search.ts:109-112 | the search fails iff all attempts fail, with the client's error unchanged; otherwise it is the normalised body of the first successful attempt |
| `Prompts.LoadYamlFile` | src/mcp/prompts/promptManager.ts:36-43 | reading succeeds iff the file exists and parses, giving its mapping; otherwise `Failed to load prompts from <path>: <error>` |
| `Prompts.Merge` | src/mcp/prompts/promptManager.ts:30 | the merged keys are the union; an override entry wins; a default the override lacks is kept |
| `Prompts.LoadPrompts` | src/mcp/prompts/promptManager.ts:22-34 | without a configured, existing override file the defaults alone are loaded; a failing default file fails the load; otherwise the override file is read and merged over the defaults, or its error is reported |
| `Prompts.OverrideWins` | src/mcp/prompts/promptManager.ts:28-30 | with a readable override, every override entry is in effect, every default it does not name is kept, and nothing else appears |
| `Prompts.CompileAll` | src/mcp/prompts/promptManager.ts:45-49 | one compiled template per prompt key, each compiled from that key's text |
| `Prompts.PromptManager.Create` | src/mcp/prompts/promptManager.ts:16-20 | construction fails iff loading fails; otherwise the store holds the loaded prompts, the given path and a valid compiled map |
| `Prompts.PromptManager.constructor` | src/mcp/prompts/promptManager.ts:16-20 | the new store holds the given path and prompts, and every prompt is compiled |
| `Prompts.PromptManager.CompileTemplates` | src/mcp/prompts/promptManager.ts:45-49 | every prompt's compiled template is set; keys already in the map and not among the prompts stay |
| `Prompts.PromptManager.GetTemplate` | src/mcp/prompts/promptManager.ts:51-57 | succeeds iff the name is a loaded prompt, with exactly that prompt's compiled template; otherwise fails with `Template '<name>' not found` |
| `Prompts.PromptManager.Render` | src/mcp/prompts/promptManager.ts:59-62 | succeeds iff the name is a loaded prompt, applying exactly that prompt's compiled template to the context; otherwise the not-found error |
| `Prompts.PromptManager.GenerateSummarizePrompt` | src/mcp/prompts/summarizePrompt.ts:4-6 | succeeds iff a `summarize` prompt is loaded, rendering it with the query and results; otherwise fails with `Template 'summarize' not found` |
| `Prompts.PromptManager.ReloadPrompts` | src/mcp/prompts/promptManager.ts:64-68 | a failed load changes nothing and reports its error; a successful one replaces the prompts and leaves exactly their compiled templates, with no stale keys |
| `Prompts.PromptManager.SetCustomPromptPath` | src/mcp/prompts/promptManager.ts:70-73 | the path is stored even when the reload fails; the reload then behaves as `ReloadPrompts` with that path |
| `Prompts.SwitchToCustomSummarize` | tests/summarize.test.ts:62-85 | after setting an override path whose file defines `summarize`, the next summarize prompt is rendered from the override's text |

## Left out

- I/O and scheduling: real `fetch`, `setTimeout`, `readFileSync`, `existsSync` and the async scheduler are replaced by the oracle, the delay list and the file map. Timing, concurrency and reloads that interleave with renders are not modelled.
- YAML parsing: a file is given as a parsed mapping or an error. A YAML document that is not a mapping of strings is not modelled.
- Handlebars: interpolation, `{{#each}}`, HTML-entity escaping and render-time errors are library behaviour. `compile` and the compiled templates are opaque and total. The wording of the bundled default prompt file is not part of this model.
- JSON shape at run time: fields holding a non-string value (a number, an object) are not modelled; every field is a string, a list or absent. `Icon` fields are never read and are left out.
- `DuckDuckGo.SearchInstantAnswer`: requires the oracle to offer an outcome for each of the 3 possible attempts. The source has no such demand; the oracle simply stands for the network.
- `DuckDuckGo.RequestUrlExample`: the expected URL is written as the endpoint constant, `test%20query` and the flags constant, not as one literal.
- Queries with an unpaired surrogate: `encodeURIComponent` throws `URIError` on them before the retry loop starts, so the call rejects with that error after no fetch. A Dafny `string` cannot hold such a query, so this path is not modelled.
- A `null` JSON body: a 2xx response whose body parses to `null` is returned as it is, and `mapToResults` then throws a `TypeError` when it reads `data.Answer`. `JsonBody.Parsed` always holds a response object, so this path is not modelled.
- Transport glue (`src/server.ts`, `src/mcp-stdio.ts`, `src/index.ts`), the `summarize` tool and its external completion call, and the type declarations are not part of this model.

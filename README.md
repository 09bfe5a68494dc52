# metacrawl core in Dafny

This project models the core of metacrawl, a Go service. A client posts a list of URLs, and the service creates a crawl task for them. The task fetches every page and extracts four fields from its `<head>`: the title, the `description` and `keywords` meta tags, and the `og:image` meta tag. The task collects one CSV row per URL. The client polls the task by ID and downloads the CSV once the task is completed.

The project is made of these modules:

- **`wrappers.dfy`** (module `Wrappers`): the `Option` type.
- **`html.dfy`** (module `HtmlTokens`): the token stream of golang.org/x/net/html, which implements the tokenization stage of the WHATWG HTML standard, section 13.2.5.
  - A document is the sequence of tokens the tokenizer yields.
  - Past the end, the tokenizer keeps returning an error token.
- **`gostrings.dfy`** (module `GoStrings`): the pieces of Go's standard library the core depends on.
  - `unicode.IsSpace` and `strings.TrimSpace`.
  - `strings.Split` with a one-character separator, and `strings.Join` as its inverse.
  - `strconv.Itoa`, with a decimal reader as its inverse.
- **`extract.dfy`** (module `MetaExtract`): the meta-tag extractor of `services/metacrawl/task.go`.
  - `extractMetaContent` and `parseMetaAttributes` are pure first-match searches.
  - `parseMetaTags` is modelled by two methods with one loop each: `ParseMetaTags` holds the outer loop, which looks for the `head` tag, and `ParseHead` the inner loop over the head section. Together they are proved equal to a specification function that returns `None` exactly where the Go loops never end.
- **`metacrawl.dfy`** (module `Metacrawl`): the task lifecycle and the service registry of package metacrawl.
  - `MCTask` models `NewMetaCrawlTask`, `setStatus`, `Status`, `Render`, `processURL` and `Process`.
  - `MetaCrawl` models `AddTask`, `RateLimitterForDomain`, `TaskByID` and `DeleteTaskByID`.
  - The outside world of one URL is given as a `Probe`. It holds the `govalidator.IsURL` verdict, the host that `url.Parse` finds, and the fetched page (status code, charset success and tokens).
- **`services.dfy`** (module `Services`): the near-identical registry of package services, which has no delete.
- **`handlers.dfy`** (module `Controllers`): `GetTask` and `PostTask` of the v1 HTTP controller, with responses as a datatype.

In several places the code does something other than what a user of the service would expect. The model follows the code:

- **The extractor does not stop at the end of the input.** One would expect a page that ends early to yield the fields captured so far. In the code, the outer loop sets `complete` on an error token and then spins. The inner switch has no error case, so the inner loop keeps calling `Next` (task.go:112-156).
  - The model returns `None` for these inputs (`NoHeadNeverReturns`, `NoHeadEndNeverReturns`).
  - A `processURL` call on such a page never returns, so the task never reaches "completed".
- **The last title and the last matching meta tag win.** A later title overwrites an earlier one (`LaterTitleOverwrites`, for instance `<title>a</title><title>b</title>` in `SecondTitleAfterTitleEnd`). A later meta tag for the same field overwrites an earlier one, whatever lies between them in the head section. `LaterMetaOverwrites` proves this on any token stream when only tokens other than titles lie between, such as white space and other meta tags. `LaterMetaOverwritesRaw` proves it on the tokenizer's output (`RawTitleText`) with titles between too, for instance `<meta name="description" content="a"><title>T</title><meta name="description" content="b">` in `MetaAcrossTitle`.
- **The token after a `title` tag is consumed whatever it is** (task.go:130-136). On the tokenizer's output this does no harm: the tokenizer reads the content of a `title` element as raw text up to `</title>`, so the next token is text, the `title` end tag or the end of the input (`RawTitleText`). `<title></head>` therefore puts `</head>` into the title text, and with no `</title>` at all the text runs to the end of the input and the call never returns. `TitleSwallowsHeadEnd` states the loop's behaviour on an arbitrary token stream, which the tokenizer does not produce.
- **A URL can yield no row.** One would expect one row per submitted URL. In the code a failed `url.Parse` or charset conversion appends nothing, and a page the extractor cannot finish appends nothing and blocks completion.
- **An empty body is not rejected.** The handler has a 400 branch for an empty URL list, but `strings.Split` always returns at least one piece, so the branch is never taken. An empty body becomes a task with the single URL "".
- **A task that has not started gets no response.** `GetTask` handles only "in progress" and "completed". A "not started" task gets no response written by the handler.
- **The handler calls a method its service type lacks.** `v1.go` types the controller's service as `services.MetaCrawlSvc`, which has no `DeleteTaskByID`. `GetTask` calls `DeleteTaskByID` and compares against the constants of package metacrawl. The controller is therefore modelled against `Metacrawl.MetaCrawl`, the registry that has a delete.

## Model

| member | source | states |
|---|---|---|
| GoStrings.TrimSpace | services/metacrawl/task.go:83 | The result is the slice of the input that follows its leading white space. It is followed only by white space and neither starts nor ends with white space (`strings.TrimSpace`). |
| GoStrings.TrimSpaceIdempotent | services/metacrawl/task.go:135 | Trimming twice equals trimming once. |
| GoStrings.TrimSpaceOfTrimmed | services/metacrawl/task.go:83 | A string that neither starts nor ends with white space is returned unchanged. |
| GoStrings.TrimSpaceOfBlank | services/metacrawl/task.go:135 | A string of only white space trims to "". |
| GoStrings.Split | transformers/gateways/http/controllers/v1_handlers.go:80 | `strings.Split` with a one-character separator yields one piece more than there are separators, and no piece contains the separator. |
| GoStrings.JoinSplit | transformers/gateways/http/controllers/v1_handlers.go:80 | Joining the pieces with the separator gives back the split string. |
| GoStrings.SplitJoin | transformers/gateways/http/controllers/v1_handlers.go:80 | Splitting a join of separator-free pieces gives back those pieces. |
| GoStrings.SplitTrailingSeparator | transformers/gateways/http/controllers/v1_handlers.go:80 | A trailing separator adds exactly one empty piece at the end. |
| GoStrings.NatDigits | services/metacrawl/task.go:197 | The decimal text of a natural number is non-empty, all digits, and has no leading zero. |
| GoStrings.Itoa | services/metacrawl/task.go:197 | `strconv.Itoa` writes a non-empty text that starts with `-` exactly for a negative number; the rest is all digits. |
| GoStrings.ItoaRoundTrip | services/metacrawl/task.go:197 | The text `strconv.Itoa` writes reads back as the same integer. |
| GoStrings.ItoaInjective | services/metacrawl/task.go:197 | Different integers get different texts. |
| HtmlTokens.NextToken | services/metacrawl/task.go:114 | The i-th call of `Next` yields the i-th token, and an error token once the input is exhausted. |
| MetaExtract.MetaAttrRegistry | services/metacrawl/task.go:62-66 | The registry every task installs has exactly the keys `name` and `property`, with the values description and keywords under `name` and og:image under `property`. |
| MetaExtract.ExtractMetaContent | services/metacrawl/task.go:80-88 | The result is "" when no attribute has the key `content`, and it is always trimmed. |
| MetaExtract.ContentOfFirstContent | services/metacrawl/task.go:80-88 | When the first `content` attribute is at index k, the result is the trimmed value of that attribute, not of any later one. |
| MetaExtract.ParseMetaAttributes | services/metacrawl/task.go:90-105 | The result is ("", "") when no attribute's key is registered with exactly its value, and the content part is always trimmed. |
| MetaExtract.MetaOfFirstRegistered | services/metacrawl/task.go:90-105 | When the first attribute, in order, whose key is registered with exactly its value is at index k, the result is that value and the tag's content. |
| MetaExtract.RegisteredThenContent | services/metacrawl/task.go:80-105 | A tag with a registered attribute followed by a `content` attribute gives that attribute's value and the trimmed content. |
| MetaExtract.RegisteredInTaskRegistry | services/metacrawl/task.go:63-66 | With the task's registry, exactly name=description, name=keywords and property=og:image select a tag. |
| MetaExtract.TaskRegistryKeys | services/metacrawl/task.go:63-66 | With the task's registry a meta tag yields one of "description", "keywords", "og:image", or the unused key "". |
| MetaExtract.HeadStep | services/metacrawl/task.go:122-152 | One pass of the inner loop that goes on moves exactly two tokens forward after a `title` tag and exactly one otherwise, never past the end of the input. |
| MetaExtract.ParseMetaTags | services/metacrawl/task.go:107-157 | The outer loop returns exactly what the specification `MetaTagsOf` gives: `None` where the Go code never returns, otherwise the four fields. |
| MetaExtract.ParseHead | services/metacrawl/task.go:122-152 | The inner loop, entered after a `head` tag with an empty title and map, returns exactly what `ScanHead` gives from there. |
| MetaExtract.HeadStepFromDocument | services/metacrawl/task.go:128-147 | One pass of the inner loop keeps every stored value trimmed and taken from the document, and a return yields a well-formed result. |
| MetaExtract.ScanHeadWellFormed | services/metacrawl/task.go:122-152 | When the inner loop returns, it returns four trimmed fields, each "" or read from a `title` or `meta` tag of the document. |
| MetaExtract.HeadStepReadsNoError | services/metacrawl/task.go:124-147 | A pass that goes on has read no error token. A pass that returns has just read the `head` end tag. |
| MetaExtract.ScanHeadReachesEnd | services/metacrawl/task.go:143-147 | The inner loop returns only at a `head` end tag that no error token precedes. |
| MetaExtract.ScanForHeadReturns | services/metacrawl/task.go:112-156 | A return means a well-formed result, the first `head` start tag, and a later `head` end tag, with no end of input before them. |
| MetaExtract.MetaTagsOfReturns | services/metacrawl/task.go:107-157 | When `parseMetaTags` returns, it returns title, description, keywords and og:image, all trimmed and read from the document. It has passed the first `head` start tag and then a `head` end tag. |
| MetaExtract.NoHeadNeverReturns | services/metacrawl/task.go:112-118 | A document with no `head` start or self-closing tag never makes `parseMetaTags` return. |
| MetaExtract.NoHeadEndNeverReturns | services/metacrawl/task.go:122-148 | A document with no `head` end tag never makes `parseMetaTags` return. |
| MetaExtract.ScanForHeadSkips | services/metacrawl/task.go:112-121 | The outer loop skips every token before the first `head` start tag and enters the inner loop right after it. |
| MetaExtract.ScanHeadPlainBody | services/metacrawl/task.go:122-152 | A head section with no error and no earlier `head` end tag reaches its `head` end tag and returns, provided the token right before that end tag is not a `title` tag. |
| MetaExtract.ReturnsAtHeadEnd | services/metacrawl/task.go:112-156 | Conversely, `parseMetaTags` returns when a `head` end tag follows the first `head` start tag, with no end of input and no other `head` end tag between them and no `title` tag right before it. |
| MetaExtract.ReturnsAtHeadEndOfRawTitles | services/metacrawl/task.go:112-156 | On a token stream where every `title` tag is followed by text, the `title` end tag or the end of input, as the tokenizer yields, `parseMetaTags` returns whenever a `head` end tag follows the first `head` start tag with no end of input and no other `head` end tag between them. |
| MetaExtract.HeadStepDependsOnFields | services/metacrawl/task.go:139-150 | One pass of the inner loop depends on its state only through the four fields it returns. |
| MetaExtract.ScanHeadDependsOnFields | services/metacrawl/task.go:139-150 | So does the whole inner loop. |
| MetaExtract.UnmatchedMetaIgnored | services/metacrawl/task.go:139-142 | A meta tag that matches nothing only writes the unused key "", so the result is as if the tag were absent. |
| MetaExtract.LaterMetaOverwrites | services/metacrawl/task.go:139-142 | Of two meta tags for the same field, with only text, comments, `meta` and other non-title tags between them, the earlier makes no difference. A matching tag without `content` therefore clears the field. |
| MetaExtract.MetaOverwrittenLater | services/metacrawl/task.go:139-142 | Up to a meta tag that writes a key, with only pass-through tokens before it, two states that differ only at that key lead to the same result. |
| MetaExtract.LaterMetaOverwritesRaw | services/metacrawl/task.go:127-148 | On a token stream where a `title` tag is followed by text or `</title>`, as the tokenizer yields, of two meta tags for the same field with any tokens of the head section between them (no error, no `head` end tag), titles included, the earlier makes no difference. |
| MetaExtract.MetaOverwrittenLaterRaw | services/metacrawl/task.go:127-148 | On such a stream, up to a meta tag that writes a key, with any tokens of the head section before it, two states that differ only at that key lead to the same result. |
| MetaExtract.MetaAcrossTitle | services/metacrawl/task.go:130-142 | In `<meta name="description" content="a"><title>T</title><meta name="description" content="b"></head>` the first description makes no difference. |
| MetaExtract.PassThroughStep | services/metacrawl/task.go:127-148 | A token that is not an error, a `title` tag or the `head` end tag moves the inner loop one token forward; only a `meta` tag changes the state. |
| MetaExtract.MetaStep | services/metacrawl/task.go:139-142 | A `meta` tag stores under its key what `parseMetaAttributes` gives for it. |
| MetaExtract.TitleStep | services/metacrawl/task.go:130-136 | A `title` tag followed by text stores the trimmed text as the title and consumes both tokens. |
| MetaExtract.TitleSwallowsHeadEnd | services/metacrawl/task.go:130-137 | On an arbitrary token stream, the token after a `title` tag is consumed whatever it is, so a `head` end tag there would not end the section. The tokenizer never yields that stream. |
| MetaExtract.LaterTitleOverwrites | services/metacrawl/task.go:130-137 | Of two `title` tags each followed by text, with only pass-through tokens such as `</title>`, white space and meta tags between them, the earlier title makes no difference. |
| MetaExtract.TitleOverwrittenLater | services/metacrawl/task.go:130-142 | Up to a `title` tag followed by text, with only pass-through tokens before it, two states that differ only in the title lead to the same result. |
| MetaExtract.SecondTitleAfterTitleEnd | services/metacrawl/task.go:130-137 | In `<title>a</title><title>b</title>` the first title makes no difference. |
| MetaExtract.SkipStep | services/metacrawl/task.go:127-148 | Text, comments, doctypes and end tags other than `head` are skipped. |
| MetaExtract.HeadEndStep | services/metacrawl/task.go:143-150 | The `head` end tag returns the fields stored so far. |
| MetaExtract.ErrorStep | services/metacrawl/task.go:122-127 | A tokenizer error in the head section means the inner loop never returns, since no case of its switch handles it. |
| MetaExtract.TitleErrorStep | services/metacrawl/task.go:130-136 | A `title` tag as the last token means the inner loop never returns. |
| MetaExtract.TitleNonTextStep | services/metacrawl/task.go:130-136 | A `title` tag followed by a token that is not text consumes both and stores nothing. |
| MetaExtract.OtherStartStep | services/metacrawl/task.go:128-142 | A start or self-closing tag other than `title` and `meta` is skipped. |
| MetaExtract.MinimalDocumentDescription | services/metacrawl/task.go:90-105 | The first meta tag of the minimal document selects description "D". |
| MetaExtract.MinimalDocumentImage | services/metacrawl/task.go:90-105 | The second meta tag of the minimal document selects og:image "I". |
| MetaExtract.MinimalDocumentFields | services/metacrawl/task.go:107-157 | The minimal document `<html><head><title>T</title><meta name="description" content="D"><meta property="og:image" content="I"></head></html>` yields ["T", "D", "", "I"]. |
| MetaExtract.HeadlessDocumentNeverReturns | services/metacrawl/task.go:112-118 | A document without a head section never makes `parseMetaTags` return. |
| Metacrawl.UrlOutcomeOf | services/metacrawl/task.go:165-204 | An appended row has six fields, and its second field is the raw URL. The URL is dropped exactly when `url.Parse` or the charset conversion fails. The call hangs exactly when the extractor never returns. |
| Metacrawl.FailureRows | services/metacrawl/task.go:167-186 | An invalid URL appends exactly ["-1", url, "", "", "", ""], and a URL whose fetch fails appends exactly ["0", url, "", "", "", ""]. |
| Metacrawl.StatusFieldReadsBack | services/metacrawl/task.go:167-197 | The first field reads back as -1 for an invalid URL, 0 for a failed fetch, and the HTTP status code otherwise. |
| Metacrawl.FetchedRowHoldsMetaTags | services/metacrawl/task.go:197-203 | A row for a fetched page is the status code, the URL and the extractor's four fields. With a positive status code its first field is neither "-1" nor "0". |
| Metacrawl.CrawlRowsAtMostOnePerUrl | services/metacrawl/task.go:215-222 | The URLs add at most one row each. |
| Metacrawl.CrawlRowsShape | services/metacrawl/task.go:165-204 | Every row the URLs add has six fields, and its second field is one of the task's URLs. |
| Metacrawl.CrawlRowsOnePerUrl | services/metacrawl/task.go:215-222 | When every URL appends, the k-th row belongs to the k-th URL. |
| Metacrawl.InvalidUrlsReported | services/metacrawl/task.go:167-171 | Every URL that fails validation gets its ["-1", url, "", "", "", ""] row. |
| Metacrawl.MCTask.constructor | services/metacrawl/task.go:44-78 | A new task is "not started", has an empty result, and uses the registry name→{description, keywords}, property→{og:image}. |
| Metacrawl.MCTask.SetStatus | services/metacrawl/task.go:230-234 | `Status` returns the value last set. |
| Metacrawl.MCTask.Status | services/metacrawl/task.go:244-250 | It returns the task's current status, the value `setStatus` last stored. |
| Metacrawl.MCTask.Render | services/metacrawl/task.go:236-242 | It returns the rows written to the result so far, in order; the bytes and the CSV quoting are left out. |
| Metacrawl.MCTask.AppendToResult | services/metacrawl/task.go:159-163 | The row is added at the end of the result. |
| Metacrawl.MCTask.ProcessURL | services/metacrawl/task.go:165-204 | The result gains exactly the rows of the URL's outcome, and the call returns unless the outcome is a hang. The limiter map gains the URL's host only when the URL is valid and parses, and the service stays valid. |
| Metacrawl.MCTask.Process | services/metacrawl/task.go:207-228 | The result gains the header and then the rows of every URL in order. The status is "completed" exactly when every URL's call returned, and "in progress" otherwise. The error is nil, and the limiter map gains exactly the crawled hosts. |
| Metacrawl.MCTask.ProcessURLs | services/metacrawl/task.go:214-222 | Running every URL's `processURL` adds their rows in order. `wg.Wait` returns exactly when every call returns. The task map is unchanged, the limiter map gains exactly the crawled hosts, and the service stays valid. |
| Metacrawl.MetaCrawl.constructor | services/metacrawl/metacrawl.go:19-25 | A new service has no task and no limiter. |
| Metacrawl.MetaCrawl.AddTask | services/metacrawl/metacrawl.go:28-39 | A fresh not-started task for the URLs, with a five-second timeout, belonging to this service and using the description/keywords/og:image registry, is stored under the returned ID. No other entry changes, and `TaskByID` then finds it. |
| Metacrawl.MetaCrawl.RateLimitterForDomain | services/metacrawl/metacrawl.go:42-51 | On a hit it returns the stored limiter and stores nothing. On a miss it stores a fresh one-second limiter under the domain and returns it. Other entries are unchanged. |
| Metacrawl.MetaCrawl.TaskByID | services/metacrawl/metacrawl.go:54-60 | It returns the task stored under the ID, or null when none is. |
| Metacrawl.MetaCrawl.DeleteTaskByID | services/metacrawl/metacrawl.go:63-65 | Only that ID is removed. `TaskByID` then returns null for it, and unchanged results for every other ID. |
| Metacrawl.SameLimiterForSameDomain | services/metacrawl/metacrawl.go:42-51 | Two requests for the same domain get the same limiter. |
| Services.MetaCrawl.constructor | services/metacrawl.go:19-25 | A new service has no task and no limiter. |
| Services.MetaCrawl.AddTask | services/metacrawl.go:28-39 | A fresh task for the URLs, with a five-second timeout, is stored under the returned ID, and no other entry changes. |
| Services.MetaCrawl.RateLimitterForDomain | services/metacrawl.go:42-51 | On a hit it returns the stored limiter and stores nothing. On a miss it stores a fresh one-second limiter under the domain and returns it. |
| Services.MetaCrawl.TaskByID | services/metacrawl.go:53-59 | It returns the task stored under the ID, or null when none is. |
| Controllers.DecideGetTask | transformers/gateways/http/controllers/v1_handlers.go:46-69 | "Not found" exactly for an unknown ID, and "in progress" exactly for a running task. A delivery happens exactly for a completed task, and a deletion exactly when the task is completed and `delete` is "1". |
| Controllers.GetResponse | transformers/gateways/http/controllers/v1_handlers.go:53-68 | "Not found" writes exactly 404 {"error": "task not found"}, "in progress" exactly 204 "task in progress", a delivery exactly 200 with the rendered result as `<taskID>.csv`, and an unanswered request nothing. |
| Controllers.NotStartedUnanswered | transformers/gateways/http/controllers/v1_handlers.go:59-69 | A task that has not started matches no case. |
| Controllers.OnlyCompletedDelivered | transformers/gateways/http/controllers/v1_handlers.go:63-68 | Only a completed task gets a 200, and the 200 is the rendered result as `<taskID>.csv`. |
| Controllers.TaskUrls | transformers/gateways/http/controllers/v1_handlers.go:80-85 | The URL list of a body is never empty, holds no line break, and joins back to the body. |
| Controllers.EmptyBodyOneEmptyUrl | transformers/gateways/http/controllers/v1_handlers.go:80 | An empty body posts the single URL "". |
| Controllers.TrailingNewlineEmptyUrl | transformers/gateways/http/controllers/v1_handlers.go:80 | A trailing line break adds an empty last URL. |
| Controllers.LinesArePostedAsUrls | transformers/gateways/http/controllers/v1_handlers.go:80 | Lines without line breaks, joined by line breaks, are posted as exactly those URLs. |
| Controllers.V1.GetTask | transformers/gateways/http/controllers/v1_handlers.go:44-70 | The response is the one the decision selects: 404 "task not found", 204 "task in progress", 200 with the CSV, or nothing. The task is removed exactly on a delivery with deletion, and the service stays valid. |
| Controllers.V1.PostTask | transformers/gateways/http/controllers/v1_handlers.go:73-91 | A failed body read gives 400 "bad request" and changes nothing. Otherwise 201 carries {"taskID": id}, and a fresh not-started task for the body's lines is stored under that ID, with an empty result, a five-second timeout, the description/keywords/og:image registry and this service as its owner. The service stays valid. |

## Left out

- Concurrency: the goroutines of `Process` and `AddTask`, `sync.WaitGroup`, the mutexes and `sync.Map` are not modelled.
  - URLs are handled one after another, in list order. In Go the rows arrive in any order.
  - A URL whose call never returns adds no row, and the others still add theirs, as the goroutines would.
  - The non-atomic Load-then-Store in `RateLimitterForDomain`, where two first callers can create two limiters, is not modelled.
- Metacrawl.MetaCrawl.AddTask: does not start `Process`. Running the task is a separate call of `MCTask.Process`, with the outside world's answers given as probes.
- Timing: a limiter is an object with its period, and the receive from its channel (task.go:179) is not modelled. Timeouts are recorded as a number of milliseconds but have no effect.
- Foreign libraries: `govalidator.IsURL`, `url.Parse`, `http.Client.Get`, `charset.NewReader` and the HTML tokenizer's internals are not modelled. They are inputs: a `Probe` per URL, and a document given as its tokens.
- CSV encoding and buffering: the result is the list of rows handed to the CSV writer, so `Render` returns rows rather than bytes. RFC 4180 quoting is not modelled. Nor is the fact that bytes reach the buffer only when the writer's buffer fills or on `Flush` (task.go:223).
- ID generation: the `xid` value is a parameter of `AddTask` and `PostTask`. An existing entry under the same ID would be replaced.
- Logging with zap, JSON marshalling, the response-writing helpers (v1_handlers.go:15-41), routing, and server start and stop are not modelled.
- Services.MetaCrawl.AddTask: the task type and `NewMetaCrawlTask` of package services are not part of this model. A task there records only the service, URLs and timeout it is created with.
- The empty-list check of `PostTask` (v1_handlers.go:82-85) is modelled, but no input reaches it.
- net/http's default reply when a handler writes nothing is not modelled. That outcome is `NoResponse`.

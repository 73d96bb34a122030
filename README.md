# elasticfixtures in Dafny

A model of the Go package `elasticfixtures`, which loads test fixtures
into a search service over HTTP and removes them again.

- A `Loader` holds the service's base URL and a list of fixture files.
- Each file's index name is its base name with the first occurrence of
  its extension removed (`example.json` gives `example`).
- `Load` does the following for each fixture:
  - splits the content into JSON documents;
  - posts all of them in one bulk request;
  - when the service answers that request with neither 200 nor 201, posts
    the documents one at a time to a type-qualified or typeless endpoint.
- `Clean` posts one delete-by-query request per fixture.

Modules:

- `Types`: bytes, `Option` and `Result`, and the loader's errors.
- `Text`: the Go library functions the core relies on, over `string`:
  - `strings.Index`, as `IndexOf`;
  - `strings.Replace(s, p, "", 1)`, as `RemoveFirst`;
  - `strings.Split(s, sep)[0]`, as `FirstSegment`;
  - `filepath.Ext` and `filepath.Base` with `/` as separator, as `Ext` and `Base`.
- `Json`: fixture content split into documents.
  - Decoding and encoding belong to `encoding/json`, which the model does not include.
  - A `Codec` value stands for those calls.
- `Fixtures`: the fixture file, its index name, and the reading of the named files.
  - File reading is a parameter `readFile`.
- `Http`: requests, responses and a `Client` class.
  - The client records every request in `log`.
  - A server oracle answers each request. It sees all earlier requests, so a stateful service is covered.
- `Loading`: the bulk payload, the endpoints, the request sequences, and
  the `Loader` class with `Load`, `Clean` and the constructor function `New`.

How the request sequences are modelled:

- A `Run` is the requests sent plus the error returned.
- `Fallback`, `PostFixture`, `LoadFixture` and `LoadRun` give the run of
  the fallback, of one fixture and of `Load`.
- `PostEach` over `DeleteRequests` gives the run of `Clean`.
- The methods `Load`, `LoadFile`, `PostDocuments` and `Clean` mirror the Go
  loops; `LoadFile` is the body of `Load`'s loop and `PostDocuments` its
  fallback loop. Each
  ensures that the client's new log and the returned error are exactly
  what these functions give.
- The lemmas prove the properties of the functions.
- `TransportAborts` states that the first transport failure is the last
  request sent and is returned unchanged.

The Go code's error semantics come from variable shadowing, and the model
keeps them:

- The loop body of `Load` declares its own `err` (line 73). The named
  result is never assigned, so line 130 returns nil.
- Every single-document POST reassigns that `err`. So the fallback's
  outcome depends on the last document alone: a rejection is cleared by a
  later success.
- The fixture's error is checked right after the fixture (lines 125-127).
  A rejected last document therefore stops `Load` before the next fixture.

Consequences of the code that a reader might not expect:

- **Fallback errors.** A later successful document clears an earlier
  rejection, because `err` is reassigned on every POST (lines 106, 114,
  119-121). See `FallbackLastDecides`.
- **When an error is returned.** `Load` returns right after the fixture
  whose fallback failed (lines 125-127); later fixtures are not loaded.
  See `LoadRunConcat`.
- **An index name without `_index`.** The inner type is then the whole
  name, so `items` falls back to `base/items/items?refresh=true`
  (lines 99-104). See `DocumentUrlOfPlainIndex`.
- **A failed read in `New`.** The loader returned alongside the error holds
  the files read before the failure (lines 35, 143).
- **The action line.** It is `{"index": {}}` followed by a newline: 14
  bytes, so 15 per document with the newline after the document.
- **An extension that occurs earlier.** Only the first occurrence of the
  extension is removed, even when it is not the suffix: `x.jsonfoo.json`
  gives `xfoo.json`.

## Model

| member | source | states |
|---|---|---|
| Text.IndexOf | elasticfixtures.go:20 | It is -1 exactly when the pattern does not occur. Otherwise the pattern occurs there and at no earlier position. |
| Text.RemoveFirst | elasticfixtures.go:20 | With an empty or absent pattern the string is unchanged. Otherwise the result is the string with the pattern cut out at its first occurrence: one pattern length shorter, and the original is the result's prefix before that position, the pattern, and the rest. |
| Text.FirstSegment | elasticfixtures.go:99-100 | It is a prefix without the separator. It is the whole string exactly when the separator is absent; otherwise it is followed by the separator, and the separator occurs at no earlier position. |
| Text.Ext | elasticfixtures.go:20 | It is a suffix of the path. A non-empty result starts with '.' and has no later '.' or '/'. An empty result means every '.' is followed by a '/'. A path with no '.' has no extension. |
| Text.ExtIsSuffixFromLastDot | elasticfixtures.go:20 | For a '.' with no '.' or '/' after it, the extension is the suffix from that '.'. |
| Text.ExtOfDotSuffix | elasticfixtures.go:20 | For any stem, the extension of stem + ".ext" (with no further '.' or '/') is ".ext". |
| Text.Base | elasticfixtures.go:138 | It is never empty. It is "/" or has no '/'. The empty path gives ".". |
| Text.BaseOfJoin | elasticfixtures.go:136-139 | The base name of dir/name is name. |
| Text.BaseOfPlainName | elasticfixtures.go:138 | A non-empty name without '/' is its own base name. |
| Fixtures.FixtureFile.FileNameWithoutExtension | elasticfixtures.go:19-23 | A name without '.', or without an extension, is unchanged. Otherwise the result is one extension length shorter, and the name is the result with the extension put back at the extension's first occurrence. |
| Fixtures.StripsOnlyExtension | elasticfixtures.go:19-23 | For stem.ext with no '.' in the stem, the extension is .ext and the index name is the stem. |
| Fixtures.ExampleIndexName | elasticfixtures.go:42-43 | The index name of example.json is example. |
| Fixtures.RemovesEarlierOccurrence | elasticfixtures.go:20 | In pre.ext mid .ext the earlier .ext is removed and the suffix stays. |
| Fixtures.FirstOccurrenceNotSuffix | elasticfixtures.go:20 | The index name of x.jsonfoo.json is xfoo.json. |
| Fixtures.ParseFilesContent | elasticfixtures.go:134-149 | The files are read in order. Each keeps its path, its base name and its content. Reading stops at the first failure, which is returned with that path. No error means every file was read. |
| Json.SplitJSONIntoJSONCollection | elasticfixtures.go:153-180 | An array of n objects gives their n encodings in order. A single object gives exactly one encoding. Anything else gives an invalid-JSON error carrying the content and the single-object decoding error. |
| Loading.BulkPayloadLength | elasticfixtures.go:78-83 | The payload has 15 bytes per document plus the documents' total length, so zero documents give an empty payload. |
| Loading.BulkPayloadConcat | elasticfixtures.go:79-83 | The payload of two runs of documents is their two payloads in a row. |
| Loading.BulkPayloadAt | elasticfixtures.go:79-83 | Document k's entry (action line, document, newline) lies between the entries of the documents before it and those after it. |
| Loading.BuildBulkPayload | elasticfixtures.go:78-83 | The loop builds exactly the bulk payload of the documents. |
| Loading.InnerType | elasticfixtures.go:99-100 | It is the prefix of the index name before the first "_index", or the whole name when "_index" is absent. It is empty exactly when the name is empty or starts with "_index". |
| Loading.DocumentUrlOfTypedIndex | elasticfixtures.go:103-104 | An index t_index, with t free of "_index", posts single documents to base/t_index/t?refresh=true. |
| Loading.DocumentUrlOfPlainIndex | elasticfixtures.go:99-104 | A non-empty index without "_index" posts single documents to base/index/index?refresh=true. |
| Loading.DocumentUrlWithoutType | elasticfixtures.go:110-112 | An index that is empty or starts with "_index" posts single documents to base/index?refresh=true. |
| Loading.PostEachAborts | elasticfixtures.go:54-57 | A transport failure on any delete request is the last request sent and is returned unchanged. |
| Loading.PostEachRequests | elasticfixtures.go:46-62 | The requests go out in order, stopping at the first transport failure. The only possible error is a transport error, and without one every request is sent. |
| Loading.CleanOutcome | elasticfixtures.go:44-63 | Clean sends one delete-by-query request per fixture, in fixture order, up to the first transport failure, and returns that failure unchanged. Otherwise it returns nil after all fixtures, whatever the statuses. |
| Loading.PostEachIgnoresStatus | elasticfixtures.go:54-59 | Two services that agree on transport failures give Clean the same outcome: the status is never inspected. |
| Loading.FallbackAborts | elasticfixtures.go:106-117 | A transport failure in the fallback is its last request and is returned unchanged. |
| Loading.FallbackRequests | elasticfixtures.go:97-118 | The fallback sends one request per document, in document order, up to a transport failure, and all of them without one. |
| Loading.FallbackLastDecides | elasticfixtures.go:119-121 | Without a transport failure, the fallback's error is nil or a rejection of the file, decided by the last document's status alone. |
| Loading.FallbackOutcome | elasticfixtures.go:96-124 | This combines the three fallback lemmas above, stated over the recorded log. |
| Loading.FallbackSeesOnlyAcceptance | elasticfixtures.go:119-121 | Only transport failures and whether a status is 200 or 201 affect the fallback. |
| Loading.FixtureOutcome | elasticfixtures.go:85-127 | PostedFixture holds: for parsed content, exactly one bulk request goes first. Single-document requests follow, in order, exactly when the bulk status is neither 200 nor 201 (and there are documents). Without a transport failure there is one per document. The error is a transport error or a rejection, and a rejection exactly when the last document was rejected. |
| Loading.LoadFixtureOutcome | elasticfixtures.go:73-127 | Content that does not parse sends nothing and returns the invalid-data error naming the file. Parsed content behaves as FixtureOutcome states, with the fixture's bulk URL and document URL. |
| Loading.PostFixtureBulks | elasticfixtures.go:85-124 | A fixture's only bulk request is its first one. |
| Loading.FixtureBulks | elasticfixtures.go:85-88 | A fixture that ends without error has sent exactly one ndjson bulk request, to base/index/_bulk?refresh=true, carrying its payload. |
| Loading.LoadRunAborts | elasticfixtures.go:88-117 | Across all of Load, the first transport failure is the last request sent and is returned unchanged. |
| Loading.LoadRunConcat | elasticfixtures.go:72-128 | A fixture that ends in an error stops Load: later fixtures send nothing. The requests of earlier fixtures are kept. |
| Loading.LoadRunParsesAll | elasticfixtures.go:73-76 | If Load returns nil, every fixture's content parsed. |
| Loading.LoadRunBulks | elasticfixtures.go:72-88 | If Load returns nil, the bulk requests it sent are one per fixture, in fixture order, each with that fixture's URL and payload. |
| Loading.LoadRunSeesOnlyAcceptance | elasticfixtures.go:96-121 | Two services that agree on transport failures and on whether each status is 200 or 201 give Load the same outcome. |
| Loading.Loader.Load | elasticfixtures.go:69-131 | The requests sent and the error returned are those of LoadRun. |
| Loading.Loader.LoadFile | elasticfixtures.go:73-127 | One iteration of Load's loop sends the requests and returns the error of LoadFixture: its own err shadows the result, and the fallback runs through PostDocuments. |
| Loading.Loader.PostDocuments | elasticfixtures.go:96-124 | The fallback loop posts each document to its single-document URL and returns the error of Fallback, with err reassigned on every POST. |
| Loading.Loader.Clean | elasticfixtures.go:44-63 | The requests sent and the error returned are those of PostEach over the fixtures' delete requests. |
| Loading.New | elasticfixtures.go:32-38 | The loader has the given URL and the files read in order, up to the first read error, which is returned. |
| Http.Client.Post | elasticfixtures.go:88 | A POST appends its request to the log, and its response is the server's answer given the earlier requests. |

## Left out

- The network and `http.DefaultClient` are replaced by the server oracle
  and the request log. Request bodies are modelled as byte sequences
  rather than streams.
- `Body.Close` is left out: it releases a connection and changes nothing
  the loader observes.
- `ioutil.ReadFile` is the parameter `readFile`. The file system is not
  modelled.
- The internals of `encoding/json` are left out. `Codec` stands for the two
  `Unmarshal` calls and `Marshal`. No claim is made about what a given
  text decodes to.
- Json.SplitJSONIntoJSONCollection: the `json.Marshal` error returns
  (lines 164-166, 173-175) are not modelled. `Marshal` is total, because
  values produced by `Unmarshal` into maps always re-encode.
- Error message text from `fmt.Errorf` and the response bodies embedded in
  it are left out. Each error case keeps the values the message names: the
  path, the file name, the content, or the wrapped cause. Go `error` values
  that come from outside the loader (a read failure, a decoding failure, a
  transport failure) are kept as their text only.
- Go strings are byte sequences; the model's `string` is a sequence of
  Unicode characters. `.`, `/` and `_index` are ASCII, so `Text.Ext`,
  `Text.Base`, `Text.IndexOf`, `Text.RemoveFirst` and `Text.FirstSegment`
  agree with Go on every valid UTF-8 name; a file or index name that is
  not valid UTF-8 cannot be represented.
- Text.Ext and Text.Base use `/` as the only separator. Windows volume
  names and `\` separators are not modelled.
- Status codes are unbounded integers. Only their comparison with 200 and
  201 matters, so the width of Go's `int` is not modelled.
- Concurrency is not modelled: the loader is sequential, and the shared
  default client only carries requests.

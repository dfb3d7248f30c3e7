# hurl, modelled in Dafny

hurl is a command-line HTTP client. This project models two parts of it.

The first is its error taxonomy (`src/errors.rs`): eleven error kinds and their `Display` messages. `Debug` writes the `Display` text (src/errors.rs:42-46), so `DebugMessage` is `Message` by definition. It also covers `source()` and the conversions from the transport (reqwest), JSON (serde_json), IO and URL failure domains. The transport conversion is a fixed-precedence decision: decode, then timeout, then carried status, then other.

The second is the driver (`src/main.rs`):

- **Default method.** Without a method subcommand the request is POST exactly when some parameter is a data parameter.
- **`handle_response`.** It does these steps in order:
  1. renders the status line;
  2. pushes one `Name: value` line per header;
  3. synchronises the session, unless it is read-only or absent;
  4. reads the body;
  5. appends a `Content-Length` line;
  6. sorts the lines and prints them under the status line as the "HTTP" block;
  7. prints a blank line;
  8. prints the body, as a pretty-printed JSON object with ordered keys or verbatim.

## Modules

- `Wrappers`: Option, Result, Unit.
- `Strings`: decimal rendering of integers and its inverse, the UTF-8 byte length of a string, `replace(' ', "-")`, and `join("\n")` with its inverse `split('\n')`.
- `Ordering`: the lexicographic order of `String` and `Vec::sort`, modelled as an insertion sort.
  - The model proves that any sorted permutation equals the sort's result. So the algorithm the standard library uses does not matter.
- `Http`: `http::Version` and `http::StatusCode` as far as hurl observes them.
- `Errors`: `src/errors.rs`.
- `Json`: JSON values and how `serde_json` fills a `BTreeMap<String, Value>`. This map is the `OrderedJson` of `src/main.rs:17`.
- `Hurl`: `src/main.rs`.
  - **Pure parts.** Functions give the method choice, the status line, the header lines, the header block and the body output.
  - **Whole run.** `ResponseRun` states everything `handle_response` does as a sequence of events and a result.
  - **Imperative parts.** The header loop is a method that returns the pushed lines; it is proved equal to its specification function. `handle_response` and the request path of `main` are methods that append to an `Effects` log. Each is proved equal to its specification function.

Outside calls are replaced as follows:

- **Foreign libraries.** heck's title-casing and serde_json's parse and pretty-print are oracles, held in a `Libraries` value.
- **I/O outcomes.** The outcome of saving the session and of reading the body are parameters.
- **Observable steps.** The session update and save, the body read, highlighting and printing are events in the log.

## Model

| member | source | states |
|---|---|---|
| Errors.Message | src/errors.rs:19-40 | `Display::fmt`: a fixed sentence per kind, or a fixed prefix and the payload. Its properties are stated by MissingSeparatorMessage and MessageIdentifiesKind |
| Errors.MissingSeparatorMessage | src/errors.rs:22-24 | The missing-separator message is the fixed prefix followed by the offending token verbatim |
| Errors.MessageIdentifiesKind | src/errors.rs:19-40 | Reading a message back gives the kind of the error that produced it, so no two kinds share a message |
| Errors.Source | src/errors.rs:48-55 | `source()` is present exactly for a URL parse error, and is then the wrapped parser error |
| Errors.OnlyUrlErrorsHaveSource | src/errors.rs:48-55 | No error from the transport, JSON or IO conversion has a source |
| Errors.FromTransport | src/errors.rs:57-71 | Every transport failure converts to one of the four client kinds |
| Errors.TransportClassification | src/errors.rs:57-71 | Full classification, each direction an iff: decode gives ClientSerialization; else timeout gives ClientTimeout; else a carried status gives ClientWithStatus with exactly that status; otherwise ClientOther |
| Errors.DecodeMasksTimeoutAndStatus | src/errors.rs:60-63 | Any two decode failures classify alike as ClientSerialization, whatever their timeout and status facts |
| Errors.TimeoutMasksStatus | src/errors.rs:64-66 | A non-decode timeout is ClientTimeout whether or not a status is carried |
| Errors.FirstApplicable | src/errors.rs:57-71 | A priority table selects the outcome of the first rule that applies, and ClientOther when none applies |
| Errors.TransportMatchesPriorityTable | src/errors.rs:57-71 | The nested conversion agrees with the decode, timeout, status priority table on every input |
| Errors.FromJson | src/errors.rs:74-79 | A JSON failure converts to SerdeJson carrying its category |
| Errors.FromJsonKeepsExactlyCategory | src/errors.rs:74-79 | Two JSON failures convert alike exactly when their categories agree |
| Errors.FromIo | src/errors.rs:81-86 | An IO failure converts to IO carrying its kind |
| Errors.FromIoKeepsExactlyKind | src/errors.rs:81-86 | Two IO failures convert alike exactly when their kinds agree; the raw OS code is forgotten |
| Errors.FromUrl | src/errors.rs:88-93 | A URL parse failure converts to UrlParseError carrying it unchanged |
| Errors.UrlSourceRoundTrip | src/errors.rs:88-93 | The source of a converted URL error is the original parser error |
| Http.VersionText | src/main.rs:69 | The `{:?}` text of a version is non-empty and holds no space or line break |
| Strings.DecimalDigits | src/main.rs:70 | `{}` of an integer is a non-empty run of digits without a leading zero |
| Strings.DecimalRoundTrip | src/main.rs:70 | The value of the decimal text of n is n |
| Strings.DecimalInjective | src/main.rs:70 | Different numbers render differently |
| Strings.DecimalHasNoSeparator | src/main.rs:67-72 | Decimal text holds no space and no newline |
| Strings.Utf8Width | src/main.rs:92 | A character takes 1 to 4 UTF-8 bytes, exactly 1 when it is ASCII |
| Strings.Utf8LengthBounds | src/main.rs:92 | `len()` of a string lies between its character count and four times it |
| Strings.Utf8LengthAppend | src/main.rs:92 | The byte length of a concatenation is the sum of the byte lengths |
| Strings.Utf8LengthIsCharCountIffAscii | src/main.rs:92 | The byte length equals the character count exactly when every character is ASCII |
| Strings.ReplaceSpacesSpec | src/main.rs:75 | `replace(' ', "-")` keeps the length and every other character in place, turns each space into a hyphen, and leaves no space |
| Strings.SplitJoin | src/main.rs:96 | Splitting the joined text at newlines gives the lines back, when no line holds a newline |
| Ordering.LexLeqReflexive | src/main.rs:95 | The order of `String` is reflexive |
| Ordering.LexLeqTotal | src/main.rs:95 | Any two strings are comparable |
| Ordering.LexLeqAntisymmetric | src/main.rs:95 | Strings that are each at most the other are equal |
| Ordering.LexLeqTransitive | src/main.rs:95 | The order is transitive |
| Ordering.InsertPermutation | src/main.rs:95 | Inserting adds exactly one occurrence of the element |
| Ordering.InsertSorted | src/main.rs:95 | Inserting into a sorted sequence keeps it sorted |
| Ordering.Sort | src/main.rs:95 | `sort` of the lines. SortCharacterised states that it is the one sorted permutation of its input |
| Ordering.SortPermutation | src/main.rs:95 | `sort` keeps every element as often as it occurs |
| Ordering.SortSorted | src/main.rs:95 | `sort` leaves the lines in ascending order |
| Ordering.SortedPermutationUnique | src/main.rs:95 | Two sorted sequences with the same elements are equal |
| Ordering.SortSameElements | src/main.rs:95 | An element is in the sorted lines exactly when it is in the input |
| Ordering.SortCharacterised | src/main.rs:95 | The sort result is the one sorted permutation of the input, in both directions |
| Json.Keys | src/main.rs:17 | The key set holds exactly the keys of the entries |
| Json.Lookup | src/main.rs:17 | Lookup finds a value exactly when the key is present |
| Json.InsertMember | src/main.rs:17 | `BTreeMap::insert` adds the key, maps it to the new value and leaves every other key's value unchanged |
| Json.Collect | src/main.rs:99 | Deserialising an object into `OrderedJson`: each member inserted in document order. CollectAscending and CollectLastWins state its properties |
| Json.InsertMemberAscending | src/main.rs:17 | Inserting keeps the entries in strictly ascending key order |
| Json.LastValue | src/main.rs:99 | A key's last value exists exactly when some member has that key |
| Json.CollectAscending | src/main.rs:99 | The parsed object's entries are in strictly ascending key order, one per key |
| Json.CollectLastWins | src/main.rs:99 | In the parsed object each key maps to the value of its last occurrence in the document |
| Json.LookupAt | src/main.rs:17 | In an ascending entry list, looking up an entry's key finds that entry's value |
| Hurl.HasData | src/main.rs:47 | True exactly when some parameter is a data parameter |
| Hurl.DefaultMethod | src/main.rs:47-52 | The default method is GET or POST, and POST exactly when some parameter is a data parameter |
| Hurl.RequestMethod | src/main.rs:40-52 | The subcommand's method when one is given, otherwise the default |
| Hurl.StatusLine | src/main.rs:67-72 | The status line. StatusLineRoundTrip and StatusLineSingle state its properties |
| Hurl.CodeAndReasonRoundTrip | src/main.rs:67-72 | The code and reason can be read back from the text after the version |
| Hurl.StatusLineRoundTrip | src/main.rs:67-72 | The status line reads back as the version, the numeric code and the canonical reason, or "unknown" when there is none |
| Hurl.NormalizeName | src/main.rs:75 | The displayed header name. DisplayedNamesHaveNoSpace states its property |
| Hurl.HeaderLines | src/main.rs:73-81 | The lines the header loop pushes. HeaderLinesAt states what each line is |
| Hurl.HeaderLinesAt | src/main.rs:73-81 | The loop pushes one line per header, the i-th rendering the i-th header |
| Hurl.DisplayedNamesHaveNoSpace | src/main.rs:74-80 | Each pushed line is the title-cased name with spaces hyphenated (so no space), ": ", and the value text or BAD HEADER VALUE |
| Hurl.ContentLengthDisplayed | src/main.rs:88-94 | The Content-Length line shows the transport's length when reported, otherwise the body's UTF-8 byte length, which lies between 1 and 4 times its character count |
| Hurl.SortedHeaderLines | src/main.rs:88-95 | The lines after the Content-Length line is pushed and the list sorted. SortedHeaderLinesContents and ContentLengthDisplayed state its properties |
| Hurl.ReportedLengthShownTwice | src/main.rs:88-95 | As written, when the transport reports length n and a header already shows `Content-Length: n`, the sorted lines hold that line at least twice |
| Hurl.IntendedSortedHeaderLines | src/main.rs:88-95 | The header lines as designed, with a Content-Length line only when no length is reported. IntendedLengthShownOnce states its property |
| Hurl.IntendedLengthShownOnce | src/main.rs:88-95 | As designed, the sorted lines are the header lines plus the body's byte length only when no length was reported, so a reported length is never added again |
| Hurl.SortedHeaderLinesContents | src/main.rs:73-95 | The sorted list has one more line than there are headers, is sorted, and is a permutation of the header lines plus the Content-Length line |
| Hurl.HeaderLineNoNewline | src/main.rs:76-80 | A header line has no line break when its name and value have none |
| Hurl.UnsortedLinesSingle | src/main.rs:73-94 | No pushed line, including the Content-Length line, holds a line break when no name, value or reason does |
| Hurl.SortKeepsSingleLines | src/main.rs:95 | Sorting keeps lines free of line breaks |
| Hurl.SortedLinesSingle | src/main.rs:94-95 | The sorted lines hold no line break when no name, value or reason does |
| Hurl.StatusLineSingle | src/main.rs:67-72 | The status line ends in its only newline when the reason has none |
| Hurl.HeaderBlock | src/main.rs:96-97 | The text highlighted as "HTTP". HeaderBlockLines states how it splits into lines |
| Hurl.HeaderBlockLines | src/main.rs:96 | Split at newlines, the HTTP block is the status line followed by the sorted header lines, one per line |
| Hurl.BodyOutput | src/main.rs:99-109 | The body's output: pretty-printed JSON, the verbatim body, or the pretty-print error. BodyClassification states its property |
| Hurl.BodyClassification | src/main.rs:99-109 | A body is printed other than verbatim exactly when it parses as a JSON object. Only a JSON object is pretty-printed, from entries in strictly ascending key order with the last duplicate winning; a pretty-print failure becomes SerdeJson of its category; any other body is printed verbatim without error |
| Hurl.ReadAndRender | src/main.rs:88-110 | What happens after the session sync. ReadAndRenderShape, BodyReadFailure and SuccessfulRunOutput state its properties |
| Hurl.ResponseRun | src/main.rs:82-111 | Everything handle_response does. The session lemmas below and HandleResponse state its properties |
| Hurl.ReadAndRenderShape | src/main.rs:88-109 | After the session sync the body is read first, and the session is never touched again |
| Hurl.ReadOnlyNeverTouchesSession | src/main.rs:82-87 | In read-only mode the session is neither updated nor saved |
| Hurl.SessionSyncOrder | src/main.rs:82-89 | The session is saved exactly when present and not read-only, right after its update, and before the body is read |
| Hurl.SaveFailureStopsEarly | src/main.rs:85 | A failed save ends the run with its error before the body is read or anything is printed |
| Hurl.BodyReadFailure | src/main.rs:89 | A body that cannot be read fails with the classified transport error after the session sync, printing nothing |
| Hurl.SuccessfulRunOutput | src/main.rs:96-110 | A successful run reads the body, then prints the HTTP block, a blank line and the body, in that order |
| Hurl.CollectHeaderLines | src/main.rs:73-81 | The header loop yields the specified header lines |
| Hurl.RenderBody | src/main.rs:99-110 | Prints the body as its specification says, or returns the pretty-print error without printing |
| Hurl.ReadAndPrint | src/main.rs:88-110 | Reading, pushing Content-Length, sorting and printing produce exactly the specified events and result |
| Hurl.HandleResponse | src/main.rs:59-111 | `handle_response` appends exactly the events of ResponseRun and returns its result |
| Hurl.Invoke | src/main.rs:40-56 | A failed request returns its error unchanged with nothing logged; otherwise the run is handle_response on the response |

## Left out

- The async runtime, `App::from_args`, `validate` and `process_config_file` (src/main.rs:21-25): argument and bootstrap plumbing.
- Setting `RUST_LOG` and initialising the logger (src/main.rs:27-30): a process-wide side effect. The `trace!` of a JSON parse failure is dropped.
- syntect: loading the syntax set and theme (src/main.rs:32-33) and `highlight_string` (src/main.rs:113-126) are not modelled. Highlighting is an event carrying the syntax name and the text. Its panic when a syntax is missing is not modelled.
- The network. `client::perform` and `perform_method` are a function from the method to a response or an `Error`. The URL, the parameters sent and the session mutation are not passed to it. The outcome of `resp.text()` is a parameter.
- Title-casing and serde_json's parser and pretty-printer are uninterpreted oracles. A `reqwest::Error`, `serde_json::Error`, `io::Error` and `url::ParseError` are each reduced to the facts hurl reads from them.
- The `app`, `session`, `client`, `config`, `directories` and `syntax` modules are not part of this model. Session update and save are events; whether saving fails is a parameter.
- `app.url.take().unwrap()` (src/main.rs:46) panics when there is no URL. The model assumes `validate` has ruled that out.
- `Vec::sort` is modelled on values, by a function whose result is proved to be the unique sorted permutation. The in-place rearrangement is not modelled.
- Integer widths: the status code is a number from 100 to 999 and lengths are unbounded naturals. `u64` and `u16` limits are not modelled.

## Findings

| source | as written | input that shows it | evidently intended | confidence | as-written member | corrected member |
|---|---|---|---|---|---|---|
| src/main.rs:88-95 | A `Content-Length` line is pushed on every response | A response whose headers include `content-length: 5`, with `content_length()` reporting 5, shows `Content-Length: 5` twice | A `Content-Length` line is added only when the transport reports no length | medium, not executed | Hurl.ReportedLengthShownTwice | Hurl.IntendedLengthShownOnce |

The handle_response methods model the code as written. They therefore use SortedHeaderLines. IntendedSortedHeaderLines is the designed behaviour, kept beside it.

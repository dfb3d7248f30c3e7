/**
 * The driver of hurl (src/main.rs): the default request method, and
 * `handle_response`, which prints the status line and the sorted header
 * block, synchronises the session, reads the body and prints it either as a
 * pretty-printed JSON object or verbatim.
 *
 * Title-casing (`heck`), JSON parsing and pretty-printing (`serde_json`) are
 * oracles held in a Libraries value; the outcome of saving the session and of
 * reading the body are parameters; every observable step is appended to an
 * Effects log.
 */
module Hurl {
  import opened Wrappers
  import opened Strings
  import opened Ordering
  import opened Http
  import opened Errors
  import opened Json

  // ---------------------------------------------------------------------
  // The request method (main)
  // ---------------------------------------------------------------------

  /**
   * A command-line parameter, reduced to its raw token and whether it is a
   * data parameter (`is_data()`); parsing parameters is not part of this model.
   */
  datatype Parameter = Parameter(token: string, isData: bool)

  datatype Method = Get | Post | Named(name: string)

  /** `parameters.iter().any(|p| p.is_data())`. */
  function HasData(params: seq<Parameter>): (b: bool)
    ensures b <==> exists i :: 0 <= i < |params| && params[i].isData
  {
    if params == [] then false else params[0].isData || HasData(params[1..])
  }

  /** Without a method subcommand: POST exactly when some parameter is a data parameter, otherwise GET. */
  function DefaultMethod(params: seq<Parameter>): (m: Method)
    ensures m == Get || m == Post
    ensures m == Post <==> exists i :: 0 <= i < |params| && params[i].isData
  {
    if HasData(params) then Post else Get
  }

  /** The subcommand's method when one is given, else the default. */
  function RequestMethod(cmd: Option<Method>, params: seq<Parameter>): (m: Method)
    ensures cmd.Some? ==> m == cmd.value
    ensures cmd.None? ==> m == DefaultMethod(params)
  {
    match cmd
    case Some(chosen) => chosen
    case None => DefaultMethod(params)
  }

  // ---------------------------------------------------------------------
  // The response as the renderer sees it
  // ---------------------------------------------------------------------

  /** A header value: text when `to_str()` succeeds, opaque bytes when it fails. */
  datatype HeaderValue = Visible(text: string) | Opaque

  datatype Header = Header(name: string, value: HeaderValue)

  /** `reqwest::Response` before its body is read; `contentLength` is `content_length()`. */
  datatype Response = Response(
    version: Version,
    status: StatusCode,
    headers: seq<Header>,
    contentLength: Option<nat>)

  /** The foreign library functions the renderer calls. */
  datatype Libraries = Libraries(
    titleCase: string -> string,                               // heck::TitleCase::to_title_case
    parseJson: string -> Option<JsonValue>,                    // serde_json::from_str (None: not JSON)
    prettyPrint: seq<Member> -> Result<string, JsonFailure>)   // serde_json::to_string_pretty

  /** What handle_response does that can be observed from outside, in order. */
  datatype Event =
    | SessionUpdated            // Session::update_with_response
    | SessionSaved              // Session::save
    | BodyRead                  // Response::text
    | Highlighted(syntax: string, text: string)   // highlight_string
    | Printed(line: string)     // println!

  datatype Settings = Settings(readOnly: bool, hasSession: bool)

  // ---------------------------------------------------------------------
  // The header block
  // ---------------------------------------------------------------------

  const UnknownReason := "unknown"
  const BadHeaderValue := "BAD HEADER VALUE"
  const ContentLengthPrefix := "Content-Length: "

  /** `"{:?} {} {}\n"` of the version, the numeric code and the canonical reason. */
  function StatusLine(resp: Response): string
  {
    VersionText(resp.version) + " " + Decimal(resp.status.code) + " "
      + resp.status.canonicalReason.GetOr(UnknownReason) + "\n"
  }

  /** Reads the code and the reason back from what follows the version in a status line. */
  function ParseCodeAndReason(rest: string): Option<(nat, string)>
  {
    var j := FirstIndex(rest, ' ');
    if j == |rest| || rest[|rest| - 1] != '\n' || !AllDigits(rest[..j]) then None
    else Some((DecimalValue(rest[..j]), rest[j + 1..|rest| - 1]))
  }

  /** Reads the version text, the code and the reason back from a status line. */
  function ParseStatusLine(line: string): Option<(string, nat, string)>
  {
    var i := FirstIndex(line, ' ');
    if i == |line| then None
    else
      match ParseCodeAndReason(line[i + 1..])
      case Some((code, reason)) => Some((line[..i], code, reason))
      case None => None
  }

  lemma CodeAndReasonRoundTrip(code: nat, reason: string)
    ensures ParseCodeAndReason(Decimal(code) + " " + reason + "\n") == Some((code, reason))
  {
    var d := Decimal(code);
    var rest := d + " " + reason + "\n";
    assert rest == d + [' '] + (reason + "\n");
    DecimalHasNoSeparator(code);
    FirstIndexAfter(d, ' ', reason + "\n");
    assert rest[..|d|] == d;
    assert rest[|d| + 1..|rest| - 1] == reason;
    DecimalRoundTrip(code);
  }

  /** The status line carries the version, the numeric status and its reason ("unknown" when it has none). */
  lemma StatusLineRoundTrip(resp: Response)
    ensures ParseStatusLine(StatusLine(resp))
      == Some((VersionText(resp.version), resp.status.code as nat,
               resp.status.canonicalReason.GetOr(UnknownReason)))
  {
    var v := VersionText(resp.version);
    var rest := Decimal(resp.status.code) + " " + resp.status.canonicalReason.GetOr(UnknownReason) + "\n";
    var line := StatusLine(resp);
    assert line == v + [' '] + rest;
    FirstIndexAfter(v, ' ', rest);
    assert line[..|v|] == v && line[|v| + 1..] == rest;
    CodeAndReasonRoundTrip(resp.status.code, resp.status.canonicalReason.GetOr(UnknownReason));
  }

  /** A header name for display: title-cased, then every space turned into a hyphen. */
  function NormalizeName(titleCase: string -> string, name: string): string
  {
    ReplaceSpaces(titleCase(name))
  }

  function ValueText(v: HeaderValue): string
  {
    match v
    case Visible(t) => t
    case Opaque => BadHeaderValue
  }

  /** One `"Name: value"` line of the header block. */
  function HeaderLine(titleCase: string -> string, h: Header): string
  {
    NormalizeName(titleCase, h.name) + ": " + ValueText(h.value)
  }

  /** The lines the loop pushes, one per transport header, in transport order. */
  function HeaderLines(titleCase: string -> string, hs: seq<Header>): seq<string>
  {
    if hs == [] then []
    else HeaderLines(titleCase, hs[..|hs| - 1]) + [HeaderLine(titleCase, hs[|hs| - 1])]
  }

  /** One line per header, the i-th line rendering the i-th header. */
  lemma {:induction false} HeaderLinesAt(titleCase: string -> string, hs: seq<Header>)
    ensures |HeaderLines(titleCase, hs)| == |hs|
    ensures forall i :: 0 <= i < |hs| ==> HeaderLines(titleCase, hs)[i] == HeaderLine(titleCase, hs[i])
  {
    if hs != [] {
      var init := hs[..|hs| - 1];
      HeaderLinesAt(titleCase, init);
      assert forall i :: 0 <= i < |init| ==> init[i] == hs[i];
    }
  }

  function ContentLengthLine(n: nat): string
  {
    ContentLengthPrefix + Decimal(n)
  }

  /** The length displayed: the one the transport reports, else the body's size in UTF-8 bytes. */
  function DisplayedLength(resp: Response, body: string): nat
  {
    resp.contentLength.GetOr(Utf8Length(body))
  }

  /** The header lines after the Content-Length line is pushed and the vector sorted. */
  function SortedHeaderLines(titleCase: string -> string, resp: Response, body: string): seq<string>
  {
    Sort(HeaderLines(titleCase, resp.headers) + [ContentLengthLine(DisplayedLength(resp, body))])
  }

  /** The text highlighted as "HTTP": the status line, then the sorted lines joined by newlines. */
  function HeaderBlock(titleCase: string -> string, resp: Response, body: string): string
  {
    StatusLine(resp) + JoinLines(SortedHeaderLines(titleCase, resp, body))
  }

  /**
   * The sorted lines are the transport's header lines plus one Content-Length
   * line, each kept as often as it occurs, in ascending order. A
   * Content-Length line is appended even when the transport already listed one.
   */
  lemma SortedHeaderLinesContents(titleCase: string -> string, resp: Response, body: string)
    ensures var lines := SortedHeaderLines(titleCase, resp, body);
      && |lines| == |resp.headers| + 1
      && Sorted(lines)
      && multiset(lines) == multiset(HeaderLines(titleCase, resp.headers))
                            + multiset{ContentLengthLine(DisplayedLength(resp, body))}
  {
    HeaderLinesAt(titleCase, resp.headers);
    SortPermutation(HeaderLines(titleCase, resp.headers) + [ContentLengthLine(DisplayedLength(resp, body))]);
    SortSorted(HeaderLines(titleCase, resp.headers) + [ContentLengthLine(DisplayedLength(resp, body))]);
  }

  /** `name` is `t` with every space turned into a hyphen and every other character kept. */
  predicate Hyphenates(t: string, name: string)
  {
    |name| == |t| && forall j :: 0 <= j < |t| ==> name[j] == (if t[j] == ' ' then '-' else t[j])
  }

  /**
   * The i-th pushed line shows the i-th header: its title-cased name with
   * spaces turned into hyphens (so it holds no space), ": ", and the value
   * text or BAD HEADER VALUE.
   */
  lemma DisplayedNamesHaveNoSpace(titleCase: string -> string, resp: Response, i: nat)
    requires i < |resp.headers|
    ensures i < |HeaderLines(titleCase, resp.headers)|
    ensures exists name ::
      && ' ' !in name
      && Hyphenates(titleCase(resp.headers[i].name), name)
      && HeaderLines(titleCase, resp.headers)[i] == name + ": " + ValueText(resp.headers[i].value)
  {
    HeaderLinesAt(titleCase, resp.headers);
    var name := NormalizeName(titleCase, resp.headers[i].name);
    ReplaceSpacesSpec(titleCase(resp.headers[i].name));
    assert HeaderLines(titleCase, resp.headers)[i] == name + ": " + ValueText(resp.headers[i].value);
  }

  lemma AppendedSurvivesSort(lines: seq<string>, x: string)
    ensures x in Sort(lines + [x])
  {
    assert (lines + [x])[|lines|] == x;
    SortSameElements(lines + [x], x);
  }

  /**
   * The Content-Length line shows the length the transport reports, or when
   * it reports none the body's size in UTF-8 bytes, which is between one and
   * four times its character count.
   */
  lemma ContentLengthDisplayed(titleCase: string -> string, resp: Response, body: string)
    ensures resp.contentLength.Some? ==>
      ContentLengthLine(resp.contentLength.value) in SortedHeaderLines(titleCase, resp, body)
    ensures resp.contentLength.None? ==>
      && ContentLengthLine(Utf8Length(body)) in SortedHeaderLines(titleCase, resp, body)
      && |body| <= Utf8Length(body) <= 4 * |body|
  {
    AppendedSurvivesSort(HeaderLines(titleCase, resp.headers), ContentLengthLine(DisplayedLength(resp, body)));
    Utf8LengthBounds(body);
  }

  /**
   * As written, a length the transport reports is shown a second time when a
   * transport header already shows it: the Content-Length line is pushed
   * whether or not the transport reported a length.
   */
  lemma ReportedLengthShownTwice(titleCase: string -> string, resp: Response, body: string, i: nat)
    requires resp.contentLength.Some?
    requires i < |resp.headers|
    requires HeaderLine(titleCase, resp.headers[i]) == ContentLengthLine(resp.contentLength.value)
    ensures multiset(SortedHeaderLines(titleCase, resp, body))[ContentLengthLine(resp.contentLength.value)] >= 2
  {
    var line := ContentLengthLine(resp.contentLength.value);
    var transport := HeaderLines(titleCase, resp.headers);
    HeaderLinesAt(titleCase, resp.headers);
    assert transport[i] == line;
    assert multiset(transport)[line] >= 1;
    SortPermutation(transport + [line]);
  }

  /** The header lines as designed: a Content-Length line is added only when the transport reports no length. */
  function IntendedSortedHeaderLines(titleCase: string -> string, resp: Response, body: string): seq<string>
  {
    var extra := if resp.contentLength.None? then [ContentLengthLine(Utf8Length(body))] else [];
    Sort(HeaderLines(titleCase, resp.headers) + extra)
  }

  /**
   * As designed, the sorted lines are the transport's header lines, plus the
   * body's byte length only when the transport reported none; a reported
   * length is never shown twice.
   */
  lemma IntendedLengthShownOnce(titleCase: string -> string, resp: Response, body: string)
    ensures Sorted(IntendedSortedHeaderLines(titleCase, resp, body))
    ensures resp.contentLength.Some? ==>
      multiset(IntendedSortedHeaderLines(titleCase, resp, body)) == multiset(HeaderLines(titleCase, resp.headers))
    ensures resp.contentLength.None? ==>
      multiset(IntendedSortedHeaderLines(titleCase, resp, body))
        == multiset(HeaderLines(titleCase, resp.headers)) + multiset{ContentLengthLine(Utf8Length(body))}
  {
    var extra := if resp.contentLength.None? then [ContentLengthLine(Utf8Length(body))] else [];
    SortPermutation(HeaderLines(titleCase, resp.headers) + extra);
    SortSorted(HeaderLines(titleCase, resp.headers) + extra);
    assert HeaderLines(titleCase, resp.headers) + [] == HeaderLines(titleCase, resp.headers);
  }

  /** No line break can enter the header block other than the separators. */
  predicate SingleLineHeaders(titleCase: string -> string, resp: Response)
  {
    && NoNewline(resp.status.canonicalReason.GetOr(UnknownReason))
    && forall i :: 0 <= i < |resp.headers| ==>
         NoNewline(titleCase(resp.headers[i].name)) && NoNewline(ValueText(resp.headers[i].value))
  }

  lemma HeaderLineNoNewline(titleCase: string -> string, h: Header)
    requires NoNewline(titleCase(h.name)) && NoNewline(ValueText(h.value))
    ensures NoNewline(HeaderLine(titleCase, h))
  {
    ReplaceSpacesSpec(titleCase(h.name));
  }

  lemma UnsortedLinesSingle(titleCase: string -> string, resp: Response, n: nat, all: seq<string>)
    requires SingleLineHeaders(titleCase, resp)
    requires all == HeaderLines(titleCase, resp.headers) + [ContentLengthLine(n)]
    ensures forall k :: 0 <= k < |all| ==> NoNewline(all[k])
  {
    var transport := HeaderLines(titleCase, resp.headers);
    HeaderLinesAt(titleCase, resp.headers);
    forall k | 0 <= k < |all| ensures NoNewline(all[k]) {
      if k < |transport| {
        HeaderLineNoNewline(titleCase, resp.headers[k]);
      } else {
        DecimalHasNoSeparator(n);
      }
    }
  }

  lemma SortKeepsSingleLines(all: seq<string>)
    requires forall k :: 0 <= k < |all| ==> NoNewline(all[k])
    ensures forall k :: 0 <= k < |Sort(all)| ==> NoNewline(Sort(all)[k])
  {
    var lines := Sort(all);
    SortPermutation(all);
    forall k | 0 <= k < |lines| ensures NoNewline(lines[k]) {
      SortSameElements(all, lines[k]);
      var j :| 0 <= j < |all| && all[j] == lines[k];
    }
  }

  lemma SortedLinesSingle(titleCase: string -> string, resp: Response, body: string)
    requires SingleLineHeaders(titleCase, resp)
    ensures forall k :: 0 <= k < |SortedHeaderLines(titleCase, resp, body)| ==>
      NoNewline(SortedHeaderLines(titleCase, resp, body)[k])
  {
    var all := HeaderLines(titleCase, resp.headers) + [ContentLengthLine(DisplayedLength(resp, body))];
    var lines := SortedHeaderLines(titleCase, resp, body);
    UnsortedLinesSingle(titleCase, resp, DisplayedLength(resp, body), all);
    SortKeepsSingleLines(all);
  }

  lemma StatusLineSingle(resp: Response)
    requires NoNewline(resp.status.canonicalReason.GetOr(UnknownReason))
    ensures StatusLine(resp) == StatusLine(resp)[..|StatusLine(resp)| - 1] + "\n"
    ensures NoNewline(StatusLine(resp)[..|StatusLine(resp)| - 1])
  {
    var v, d := VersionText(resp.version), Decimal(resp.status.code);
    var reason := resp.status.canonicalReason.GetOr(UnknownReason);
    var status := StatusLine(resp);
    var head := status[..|status| - 1];
    assert head == v + " " + d + " " + reason;
    DecimalHasNoSeparator(resp.status.code);
  }

  /**
   * Read back line by line, the header block is the status line without its
   * newline followed by the sorted header lines.
   */
  lemma HeaderBlockLines(titleCase: string -> string, resp: Response, body: string)
    requires SingleLineHeaders(titleCase, resp)
    ensures SplitLines(HeaderBlock(titleCase, resp, body))
      == [StatusLine(resp)[..|StatusLine(resp)| - 1]] + SortedHeaderLines(titleCase, resp, body)
  {
    var lines := SortedHeaderLines(titleCase, resp, body);
    SortedLinesSingle(titleCase, resp, body);
    StatusLineSingle(resp);
    var status := StatusLine(resp);
    var head := status[..|status| - 1];
    var joined := JoinLines(lines);
    var block := head + ['\n'] + joined;
    assert HeaderBlock(titleCase, resp, body) == block;
    FirstIndexAfter(head, '\n', joined);
    assert block[..|head|] == head && block[|head| + 1..] == joined;
    SplitJoin(lines);
  }

  // ---------------------------------------------------------------------
  // The body
  // ---------------------------------------------------------------------

  /** `serde_json::from_str::<OrderedJson>`: succeeds exactly on a JSON object, giving its entries in key order. */
  function ParseOrdered(lib: Libraries, body: string): Option<seq<Member>>
  {
    match lib.parseJson(body)
    case Some(Object(members)) => Some(Collect(members))
    case _ => None
  }

  /** The last thing handle_response prints, or the error pretty-printing raised. */
  function BodyOutput(lib: Libraries, body: string): Result<Event, Error>
  {
    match ParseOrdered(lib, body)
    case Some(entries) =>
      (match lib.prettyPrint(entries)
       case Ok(pretty) => Ok(Highlighted("JSON", pretty))
       case Err(e) => Err(FromJson(e)))
    case None => Ok(Printed(body))
  }

  /**
   * A body that parses as a JSON object is pretty-printed from entries in
   * strictly ascending key order, one per distinct key, each with the value
   * of the key's last occurrence; anything else, valid JSON arrays and
   * scalars included, is printed verbatim without error.
   */
  lemma BodyClassification(lib: Libraries, body: string)
    ensures (exists members :: lib.parseJson(body) == Some(Object(members)))
            <==> BodyOutput(lib, body) != Ok(Printed(body))
    ensures ParseOrdered(lib, body).None? ==> BodyOutput(lib, body) == Ok(Printed(body))
    ensures lib.parseJson(body).Some? && lib.parseJson(body).value.Object? ==>
      var members := lib.parseJson(body).value.members;
      var entries := Collect(members);
      && ParseOrdered(lib, body) == Some(entries)
      && StrictlyAscending(entries)
      && (forall k :: Lookup(entries, k) == LastValue(members, k))
      && BodyOutput(lib, body) == match lib.prettyPrint(entries)
           case Ok(pretty) => Ok(Highlighted("JSON", pretty))
           case Err(e) => Err(SerdeJson(e.category))
  {
    match lib.parseJson(body)
    case Some(Object(members)) =>
      CollectAscending(members);
      forall k ensures Lookup(Collect(members), k) == LastValue(members, k) {
        CollectLastWins(members, k);
      }
    case _ =>
  }

  // ---------------------------------------------------------------------
  // handle_response as a whole
  // ---------------------------------------------------------------------

  datatype Run = Run(events: seq<Event>, result: Result<Unit, Error>)

  /** Whether handle_response touches the session: only one that is present and not read-only. */
  predicate Syncs(settings: Settings)
  {
    !settings.readOnly && settings.hasSession
  }

  /** The session steps: update then save, only for a writable session. */
  function SessionEvents(settings: Settings): seq<Event>
  {
    if Syncs(settings) then [SessionUpdated, SessionSaved] else []
  }

  /** The steps after the session sync: read the body, print the header block, a blank line and the body. */
  function ReadAndRender(lib: Libraries, resp: Response, text: Result<string, TransportFailure>): Run
  {
    match text
    case Err(f) => Run([BodyRead], Err(FromTransport(f)))
    case Ok(body) =>
      var shown := [BodyRead, Highlighted("HTTP", HeaderBlock(lib.titleCase, resp, body)), Printed("")];
      match BodyOutput(lib, body)
      case Ok(last) => Run(shown + [last], Ok(Unit))
      case Err(e) => Run(shown, Err(e))
  }

  /** After the session sync the body is read first, and the session is not touched again. */
  lemma ReadAndRenderShape(lib: Libraries, resp: Response, text: Result<string, TransportFailure>)
    ensures var ev := ReadAndRender(lib, resp, text).events;
      && |ev| >= 1 && ev[0] == BodyRead
      && forall i :: 0 <= i < |ev| ==> !ev[i].SessionUpdated? && !ev[i].SessionSaved?
  {
  }

  /**
   * Everything handle_response does, given the outcome of saving the session
   * (None: saved) and of reading the body.
   */
  function ResponseRun(settings: Settings, lib: Libraries, resp: Response,
                       saveOutcome: Option<Error>, text: Result<string, TransportFailure>): Run
  {
    if Syncs(settings) && saveOutcome.Some? then Run(SessionEvents(settings), Err(saveOutcome.value))
    else
      var rest := ReadAndRender(lib, resp, text);
      Run(SessionEvents(settings) + rest.events, rest.result)
  }

  /** Read-only mode never updates or saves the session, whatever the response. */
  lemma ReadOnlyNeverTouchesSession(settings: Settings, lib: Libraries, resp: Response,
                                    saveOutcome: Option<Error>, text: Result<string, TransportFailure>)
    requires settings.readOnly
    ensures SessionSaved !in ResponseRun(settings, lib, resp, saveOutcome, text).events
    ensures SessionUpdated !in ResponseRun(settings, lib, resp, saveOutcome, text).events
  {
  }

  /**
   * The session is saved exactly when it is present and not read-only; it is
   * updated just before, and both happen before the body is read.
   */
  lemma SessionSyncOrder(settings: Settings, lib: Libraries, resp: Response,
                         saveOutcome: Option<Error>, text: Result<string, TransportFailure>)
    ensures var ev := ResponseRun(settings, lib, resp, saveOutcome, text).events;
      && (SessionSaved in ev <==> !settings.readOnly && settings.hasSession)
      && (SessionSaved in ev ==> ev[0] == SessionUpdated && ev[1] == SessionSaved)
      && (forall i, j :: 0 <= i < |ev| && 0 <= j < |ev| && ev[i] == SessionSaved && ev[j] == BodyRead ==> i < j)
  {
    var ev := ResponseRun(settings, lib, resp, saveOutcome, text).events;
    var session := SessionEvents(settings);
    ReadAndRenderShape(lib, resp, text);
    assert ev[..|session|] == session;
    forall i | |session| <= i < |ev| ensures ev[i] != SessionSaved && ev[i] != SessionUpdated {
    }
  }

  /** A failed save ends the run with that error before the body is read or anything is printed. */
  lemma SaveFailureStopsEarly(settings: Settings, lib: Libraries, resp: Response,
                              e: Error, text: Result<string, TransportFailure>)
    requires !settings.readOnly && settings.hasSession
    ensures ResponseRun(settings, lib, resp, Some(e), text) == Run([SessionUpdated, SessionSaved], Err(e))
  {
  }

  /** A body that cannot be read fails with the classified transport error, after the session sync and before any output. */
  lemma BodyReadFailure(settings: Settings, lib: Libraries, resp: Response,
                        saveOutcome: Option<Error>, f: TransportFailure)
    requires settings.readOnly || !settings.hasSession || saveOutcome.None?
    ensures ResponseRun(settings, lib, resp, saveOutcome, Err(f))
      == Run(SessionEvents(settings) + [BodyRead], Err(FromTransport(f)))
  {
  }

  /** A run that succeeds prints the header block, a blank line and then the body, in that order. */
  lemma SuccessfulRunOutput(settings: Settings, lib: Libraries, resp: Response,
                            saveOutcome: Option<Error>, text: Result<string, TransportFailure>)
    requires ResponseRun(settings, lib, resp, saveOutcome, text).result.Ok?
    ensures text.Ok?
    ensures var ev := ResponseRun(settings, lib, resp, saveOutcome, text).events;
      && BodyOutput(lib, text.value).Ok?
      && ev == SessionEvents(settings)
               + [BodyRead, Highlighted("HTTP", HeaderBlock(lib.titleCase, resp, text.value)), Printed(""),
                  BodyOutput(lib, text.value).value]
  {
  }

  // ---------------------------------------------------------------------
  // The imperative code
  // ---------------------------------------------------------------------

  /** The outside world as handle_response changes it: the log of what it did. */
  class Effects {
    var events: seq<Event>

    constructor ()
      ensures events == []
    {
      events := [];
    }

    method Emit(e: Event)
      modifies this
      ensures events == old(events) + [e]
    {
      events := events + [e];
    }
  }

  /** The loop that pushes one display line per transport header. */
  method CollectHeaderLines(titleCase: string -> string, hs: seq<Header>) returns (lines: seq<string>)
    ensures lines == HeaderLines(titleCase, hs)
  {
    lines := [];
    for i := 0 to |hs|
      invariant lines == HeaderLines(titleCase, hs[..i])
    {
      var niceKey := NormalizeName(titleCase, hs[i].name);
      lines := lines + [niceKey + ": " + ValueText(hs[i].value)];
      assert hs[..i + 1][..i] == hs[..i];
    }
    assert hs[..|hs|] == hs;
  }

  /** The last step of handle_response: the body as a pretty-printed JSON object, or verbatim. */
  method RenderBody(lib: Libraries, result: string, fx: Effects) returns (r: Result<Unit, Error>)
    modifies fx
    ensures BodyOutput(lib, result).Ok? ==> r == Ok(Unit) && fx.events == old(fx.events) + [BodyOutput(lib, result).value]
    ensures BodyOutput(lib, result).Err? ==> r == Err(BodyOutput(lib, result).error) && fx.events == old(fx.events)
  {
    match ParseOrdered(lib, result) {
      case Some(entries) =>
        var pretty := lib.prettyPrint(entries);
        if pretty.Err? {
          return Err(FromJson(pretty.error));
        }
        fx.Emit(Highlighted("JSON", pretty.value));
      case None =>
        fx.Emit(Printed(result));
    }
    return Ok(Unit);
  }

  /**
   * The part of handle_response after the session sync: read the body, push
   * the Content-Length line, sort, print the header block, then the body.
   */
  method ReadAndPrint(lib: Libraries, resp: Response, s: string, headers: seq<string>,
                      text: Result<string, TransportFailure>, fx: Effects)
    returns (r: Result<Unit, Error>)
    requires s == StatusLine(resp) && headers == HeaderLines(lib.titleCase, resp.headers)
    modifies fx
    ensures fx.events == old(fx.events) + ReadAndRender(lib, resp, text).events
    ensures r == ReadAndRender(lib, resp, text).result
  {
    var contentLength := resp.contentLength;
    fx.Emit(BodyRead);
    if text.Err? {
      return Err(FromTransport(text.error));
    }
    var result := text.value;
    var length := match contentLength
      case Some(len) => len
      case None => Utf8Length(result);
    var lines := headers + [ContentLengthLine(length)];
    lines := Sort(lines);
    var block := s + JoinLines(lines);
    fx.Emit(Highlighted("HTTP", block));
    fx.Emit(Printed(""));
    r := RenderBody(lib, result, fx);
  }

  /** handle_response: prints the response and keeps the session in step with it. */
  method HandleResponse(settings: Settings, lib: Libraries, resp: Response,
                        saveOutcome: Option<Error>, text: Result<string, TransportFailure>, fx: Effects)
    returns (r: Result<Unit, Error>)
    modifies fx
    ensures fx.events == old(fx.events) + ResponseRun(settings, lib, resp, saveOutcome, text).events
    ensures r == ResponseRun(settings, lib, resp, saveOutcome, text).result
  {
    var s := StatusLine(resp);
    var headers := CollectHeaderLines(lib.titleCase, resp.headers);
    if !settings.readOnly && settings.hasSession {
      fx.Emit(SessionUpdated);
      fx.Emit(SessionSaved);
      if saveOutcome.Some? {
        return Err(saveOutcome.value);
      }
    }
    r := ReadAndPrint(lib, resp, s, headers, text, fx);
  }

  /**
   * The request path of main once the session is looked up: choose the
   * method, perform the request (whose error is returned unchanged, as `?`
   * does), and hand the response to handle_response.
   */
  method Invoke(cmd: Option<Method>, params: seq<Parameter>, settings: Settings, lib: Libraries,
                perform: Method -> Result<Response, Error>,
                saveOutcome: Option<Error>, text: Result<string, TransportFailure>, fx: Effects)
    returns (r: Result<Unit, Error>)
    modifies fx
    ensures perform(RequestMethod(cmd, params)).Err? ==>
      r == Err(perform(RequestMethod(cmd, params)).error) && fx.events == old(fx.events)
    ensures perform(RequestMethod(cmd, params)).Ok? ==>
      var resp := perform(RequestMethod(cmd, params)).value;
      && r == ResponseRun(settings, lib, resp, saveOutcome, text).result
      && fx.events == old(fx.events) + ResponseRun(settings, lib, resp, saveOutcome, text).events
  {
    var chosen := match cmd
      case Some(m) => m
      case None => if HasData(params) then Post else Get;
    var outcome := perform(chosen);
    if outcome.Err? {
      return Err(outcome.error);
    }
    r := HandleResponse(settings, lib, outcome.value, saveOutcome, text, fx);
  }
}

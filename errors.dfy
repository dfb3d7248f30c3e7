/**
 * The error taxonomy of hurl (src/errors.rs): a closed sum of eleven kinds,
 * their one-line messages, and the total conversions from the four foreign
 * failure domains (transport, JSON, filesystem, URL parsing).
 *
 * A foreign error is reduced to the facts the conversions read from it.
 */
module Errors {
  import opened Wrappers
  import opened Http

  /** `serde_json::error::Category`. */
  datatype JsonCategory = Io | Syntax | Data | Eof

  /** The `{:?}` rendering of a JSON error category. */
  function CategoryName(c: JsonCategory): string
  {
    match c
    case Io => "Io"
    case Syntax => "Syntax"
    case Data => "Data"
    case Eof => "Eof"
  }

  /** `std::io::ErrorKind`, reduced to the name its `{:?}` rendering prints. */
  datatype IoErrorKind = IoErrorKind(name: string)

  /** `url::ParseError`, reduced to the text its `{}` rendering prints. */
  datatype UrlParseFailure = UrlParseFailure(message: string)

  datatype Error =
    | ParameterMissingSeparator(token: string)
    | MissingUrlAndCommand
    | NotFormButHasFormFile
    | ClientSerialization
    | ClientTimeout
    | ClientWithStatus(status: StatusCode)
    | ClientOther
    | SerdeJson(category: JsonCategory)
    | IO(kind: IoErrorKind)
    | UrlParseError(parse: UrlParseFailure)
    | SyntaxLoadError(syntax: string)

  /** The variant of an error without its payload. */
  datatype Kind =
    | KParameterMissingSeparator | KMissingUrlAndCommand | KNotFormButHasFormFile
    | KClientSerialization | KClientTimeout | KClientWithStatus | KClientOther
    | KSerdeJson | KIO | KUrlParseError | KSyntaxLoadError

  function KindOf(e: Error): Kind
  {
    match e
    case ParameterMissingSeparator(_) => KParameterMissingSeparator
    case MissingUrlAndCommand => KMissingUrlAndCommand
    case NotFormButHasFormFile => KNotFormButHasFormFile
    case ClientSerialization => KClientSerialization
    case ClientTimeout => KClientTimeout
    case ClientWithStatus(_) => KClientWithStatus
    case ClientOther => KClientOther
    case SerdeJson(_) => KSerdeJson
    case IO(_) => KIO
    case UrlParseError(_) => KUrlParseError
    case SyntaxLoadError(_) => KSyntaxLoadError
  }

  // ---------------------------------------------------------------------
  // Display, Debug and source()
  // ---------------------------------------------------------------------

  const MissingSeparatorPrefix := "Missing separator when parsing parameter: "
  const MissingUrlText := "Must specify a url or a command"
  // Written in two pieces only to keep each literal short for the verifier.
  const FormFileText := "Cannot have a form file 'key@filename' " + "unless -- form option is set"
  const SerializationText := "Serializing the request/response failed"
  const TimeoutText := "Timeout druing request"
  const StatusPrefix := "Got status code: "
  const OtherText := "Unknown client error"
  const JsonPrefix := "JSON error: "
  const IoPrefix := "IO error: "
  const UrlPrefix := "URL parsing error: "
  const SyntaxPrefix := "Error loading syntax for "

  /** The `Display` rendering: a fixed sentence, or a fixed prefix and the payload. */
  function Message(e: Error): string
  {
    match e
    case ParameterMissingSeparator(s) => MissingSeparatorPrefix + s
    case MissingUrlAndCommand => MissingUrlText
    case NotFormButHasFormFile => FormFileText
    case ClientSerialization => SerializationText
    case ClientTimeout => TimeoutText
    case ClientWithStatus(status) => StatusPrefix + StatusCodeText(status)
    case ClientOther => OtherText
    case SerdeJson(c) => JsonPrefix + CategoryName(c)
    case IO(k) => IoPrefix + k.name
    case UrlParseError(p) => UrlPrefix + p.message
    case SyntaxLoadError(t) => SyntaxPrefix + t
  }

  /** The `Debug` rendering, which writes the `Display` rendering. */
  function DebugMessage(e: Error): string
  {
    Message(e)
  }

  /** The missing-separator message is the fixed prefix followed by the offending token verbatim. */
  lemma MissingSeparatorMessage(token: string)
    ensures Message(ParameterMissingSeparator(token))[..|MissingSeparatorPrefix|] == MissingSeparatorPrefix
    ensures Message(ParameterMissingSeparator(token))[|MissingSeparatorPrefix|..] == token
  {
  }

  predicate StartsWith(m: string, p: string)
  {
    |p| <= |m| && m[..|p|] == p
  }

  /** Reads the kind of an error back from its message. */
  function KindOfMessage(m: string): Option<Kind>
  {
    if StartsWith(m, MissingSeparatorPrefix) then Some(KParameterMissingSeparator)
    else if m == MissingUrlText then Some(KMissingUrlAndCommand)
    else if m == FormFileText then Some(KNotFormButHasFormFile)
    else if m == SerializationText then Some(KClientSerialization)
    else if m == TimeoutText then Some(KClientTimeout)
    else if StartsWith(m, StatusPrefix) then Some(KClientWithStatus)
    else if m == OtherText then Some(KClientOther)
    else if StartsWith(m, JsonPrefix) then Some(KSerdeJson)
    else if StartsWith(m, IoPrefix) then Some(KIO)
    else if StartsWith(m, UrlPrefix) then Some(KUrlParseError)
    else if StartsWith(m, SyntaxPrefix) then Some(KSyntaxLoadError)
    else None
  }

  /** A message that differs from `p` in one of its first two characters neither starts with nor equals `p`. */
  lemma Mismatch(m: string, p: string)
    requires |m| >= 2 && |p| >= 2 && (m[0] != p[0] || m[1] != p[1])
    ensures !StartsWith(m, p) && m != p
  {
  }

  /** The first two characters of every fixed text; they tell the texts apart. */
  lemma Openings()
    ensures MissingSeparatorPrefix[0] == 'M' && MissingSeparatorPrefix[1] == 'i'
    ensures MissingUrlText[0] == 'M' && MissingUrlText[1] == 'u'
    ensures FormFileText[0] == 'C' && FormFileText[1] == 'a'
    ensures SerializationText[0] == 'S' && SerializationText[1] == 'e'
    ensures TimeoutText[0] == 'T' && TimeoutText[1] == 'i'
    ensures StatusPrefix[0] == 'G' && StatusPrefix[1] == 'o'
    ensures OtherText[0] == 'U' && OtherText[1] == 'n'
    ensures JsonPrefix[0] == 'J' && JsonPrefix[1] == 'S'
    ensures IoPrefix[0] == 'I' && IoPrefix[1] == 'O'
    ensures UrlPrefix[0] == 'U' && UrlPrefix[1] == 'R'
    ensures SyntaxPrefix[0] == 'E' && SyntaxPrefix[1] == 'r'
  {
  }

  /** No two kinds share a message: the message alone tells which kind failed. */
  lemma MessageIdentifiesKind(e: Error)
    ensures KindOfMessage(Message(e)) == Some(KindOf(e))
  {
    var m := Message(e);
    Openings();
    // Each message differs in its first two characters from every text tested before its own.
    match e
    case ParameterMissingSeparator(_) =>
      assert m[0] == MissingSeparatorPrefix[0] && m[1] == MissingSeparatorPrefix[1];
    case MissingUrlAndCommand =>
      assert m[0] == MissingUrlText[0] && m[1] == MissingUrlText[1];
      Mismatch(m, MissingSeparatorPrefix);
    case NotFormButHasFormFile =>
      assert m[0] == FormFileText[0] && m[1] == FormFileText[1];
      Mismatch(m, MissingSeparatorPrefix); Mismatch(m, MissingUrlText);
    case ClientSerialization =>
      assert m[0] == SerializationText[0] && m[1] == SerializationText[1];
      Mismatch(m, MissingSeparatorPrefix); Mismatch(m, MissingUrlText); Mismatch(m, FormFileText);
    case ClientTimeout =>
      assert m[0] == TimeoutText[0] && m[1] == TimeoutText[1];
      Mismatch(m, MissingSeparatorPrefix); Mismatch(m, MissingUrlText); Mismatch(m, FormFileText); Mismatch(m, SerializationText);
    case ClientWithStatus(_) =>
      assert m[0] == StatusPrefix[0] && m[1] == StatusPrefix[1];
      Mismatch(m, MissingSeparatorPrefix); Mismatch(m, MissingUrlText); Mismatch(m, FormFileText); Mismatch(m, SerializationText); Mismatch(m, TimeoutText);
    case ClientOther =>
      assert m[0] == OtherText[0] && m[1] == OtherText[1];
      Mismatch(m, MissingSeparatorPrefix); Mismatch(m, MissingUrlText); Mismatch(m, FormFileText); Mismatch(m, SerializationText); Mismatch(m, TimeoutText); Mismatch(m, StatusPrefix);
    case SerdeJson(_) =>
      assert m[0] == JsonPrefix[0] && m[1] == JsonPrefix[1];
      Mismatch(m, MissingSeparatorPrefix); Mismatch(m, MissingUrlText); Mismatch(m, FormFileText); Mismatch(m, SerializationText); Mismatch(m, TimeoutText); Mismatch(m, StatusPrefix); Mismatch(m, OtherText);
    case IO(_) =>
      assert m[0] == IoPrefix[0] && m[1] == IoPrefix[1];
      Mismatch(m, MissingSeparatorPrefix); Mismatch(m, MissingUrlText); Mismatch(m, FormFileText); Mismatch(m, SerializationText); Mismatch(m, TimeoutText); Mismatch(m, StatusPrefix); Mismatch(m, OtherText); Mismatch(m, JsonPrefix);
    case UrlParseError(_) =>
      assert m[0] == UrlPrefix[0] && m[1] == UrlPrefix[1];
      Mismatch(m, MissingSeparatorPrefix); Mismatch(m, MissingUrlText); Mismatch(m, FormFileText); Mismatch(m, SerializationText); Mismatch(m, TimeoutText); Mismatch(m, StatusPrefix); Mismatch(m, OtherText); Mismatch(m, JsonPrefix); Mismatch(m, IoPrefix);
    case SyntaxLoadError(_) =>
      assert m[0] == SyntaxPrefix[0] && m[1] == SyntaxPrefix[1];
      Mismatch(m, MissingSeparatorPrefix); Mismatch(m, MissingUrlText); Mismatch(m, FormFileText); Mismatch(m, SerializationText); Mismatch(m, TimeoutText); Mismatch(m, StatusPrefix); Mismatch(m, OtherText); Mismatch(m, JsonPrefix); Mismatch(m, IoPrefix); Mismatch(m, UrlPrefix);
  }

  /** `std::error::Error::source`: only a URL parse error has an underlying cause. */
  function Source(e: Error): (r: Option<UrlParseFailure>)
    ensures r.Some? <==> e.UrlParseError?
    ensures r.Some? ==> r.value == e.parse
  {
    match e
    case UrlParseError(p) => Some(p)
    case _ => None
  }

  // ---------------------------------------------------------------------
  // From conversions
  // ---------------------------------------------------------------------

  /** `reqwest::Error`, reduced to the three facts the conversion queries. */
  datatype TransportFailure = TransportFailure(isDecode: bool, isTimeout: bool, status: Option<StatusCode>)

  /**
   * `From<reqwest::Error>`: decode first (standing in for a serialization
   * check), then timeout, then a carried status, then anything else.
   */
  function FromTransport(f: TransportFailure): (e: Error)
    ensures KindOf(e) in {KClientSerialization, KClientTimeout, KClientWithStatus, KClientOther}
  {
    if f.isDecode then ClientSerialization
    else if f.isTimeout then ClientTimeout
    else if f.status.Some? then ClientWithStatus(f.status.value)
    else ClientOther
  }

  /**
   * Each outcome of FromTransport, in both directions: the facts of the
   * transport error decide the kind, in the order decode, timeout, status.
   */
  lemma TransportClassification(f: TransportFailure)
    ensures FromTransport(f) == ClientSerialization <==> f.isDecode
    ensures FromTransport(f) == ClientTimeout <==> !f.isDecode && f.isTimeout
    ensures FromTransport(f).ClientWithStatus? <==> !f.isDecode && !f.isTimeout && f.status.Some?
    ensures FromTransport(f).ClientWithStatus? ==> Some(FromTransport(f).status) == f.status
    ensures FromTransport(f) == ClientOther <==> !f.isDecode && !f.isTimeout && f.status.None?
  {
  }

  /**
   * The decode flag hides the other two facts: two transport errors that are
   * both decode failures classify alike whatever their timeout and status.
   * (The code tests decode where a serialization check is meant, so decode
   * failures of a response body and serialization failures are one kind.)
   */
  lemma DecodeMasksTimeoutAndStatus(f: TransportFailure, g: TransportFailure)
    requires f.isDecode && g.isDecode
    ensures FromTransport(f) == FromTransport(g) == ClientSerialization
  {
  }

  /** A timeout hides a carried status, as long as the error is not a decode failure. */
  lemma TimeoutMasksStatus(f: TransportFailure, s: StatusCode)
    requires !f.isDecode && f.isTimeout
    ensures FromTransport(f.(status := Some(s))) == FromTransport(f.(status := None)) == ClientTimeout
  {
  }

  /** One row of a priority table: a fact of the transport error and the error it selects. */
  datatype Rule = Rule(applies: bool, outcome: Error)

  /** The outcome of the first rule that applies, or ClientOther when none does. */
  function FirstApplicable(rules: seq<Rule>): (e: Error)
    ensures (forall i :: 0 <= i < |rules| ==> !rules[i].applies) ==> e == ClientOther
    ensures forall i :: 0 <= i < |rules| && rules[i].applies && (forall j :: 0 <= j < i ==> !rules[j].applies)
              ==> e == rules[i].outcome
  {
    if rules == [] then ClientOther
    else if rules[0].applies then rules[0].outcome
    else FirstApplicable(rules[1..])
  }

  /** The classification as a priority table, most important fact first. */
  function TransportRules(f: TransportFailure): seq<Rule>
  {
    [ Rule(f.isDecode, ClientSerialization),
      Rule(f.isTimeout, ClientTimeout),
      Rule(f.status.Some?, if f.status.Some? then ClientWithStatus(f.status.value) else ClientOther) ]
  }

  /** The nested conversion agrees with the priority table on every input. */
  lemma TransportMatchesPriorityTable(f: TransportFailure)
    ensures FromTransport(f) == FirstApplicable(TransportRules(f))
  {
    var rules := TransportRules(f);
    var r1, r2 := rules[1..], rules[1..][1..];
    assert r2 == [rules[2]] && r2[1..] == [];
    assert FirstApplicable(r2) == if rules[2].applies then rules[2].outcome else ClientOther;
    assert FirstApplicable(r1) == if rules[1].applies then rules[1].outcome else FirstApplicable(r2);
  }

  /** `serde_json::Error`: its category and the position it was raised at. */
  datatype JsonFailure = JsonFailure(category: JsonCategory, line: nat, column: nat)

  /** `From<serde_json::Error>`: keeps the category (`classify()`). */
  function FromJson(err: JsonFailure): (e: Error)
    ensures e.SerdeJson? && e.category == err.category
  {
    SerdeJson(err.category)
  }

  /** The JSON conversion forgets the position of the error and nothing else. */
  lemma FromJsonKeepsExactlyCategory(a: JsonFailure, b: JsonFailure)
    ensures FromJson(a) == FromJson(b) <==> a.category == b.category
  {
  }

  /** `std::io::Error`: its kind and the raw OS error code, if any. */
  datatype IoFailure = IoFailure(kind: IoErrorKind, rawOsError: Option<int>)

  /** `From<std::io::Error>`: keeps the error kind (`kind()`). */
  function FromIo(err: IoFailure): (e: Error)
    ensures e.IO? && e.kind == err.kind
  {
    IO(err.kind)
  }

  /** The IO conversion forgets the raw OS code and nothing else. */
  lemma FromIoKeepsExactlyKind(a: IoFailure, b: IoFailure)
    ensures FromIo(a) == FromIo(b) <==> a.kind == b.kind
  {
  }

  /** `From<url::ParseError>`: wraps the parser error unchanged. */
  function FromUrl(err: UrlParseFailure): (e: Error)
    ensures e.UrlParseError? && e.parse == err
  {
    UrlParseError(err)
  }

  /** The wrapped URL error is the one `source()` hands back. */
  lemma UrlSourceRoundTrip(err: UrlParseFailure)
    ensures Source(FromUrl(err)) == Some(err)
  {
  }

  /** None of the other conversions produces an error with a source. */
  lemma OnlyUrlErrorsHaveSource(f: TransportFailure, j: JsonFailure, i: IoFailure)
    ensures Source(FromTransport(f)) == None
    ensures Source(FromJson(j)) == None
    ensures Source(FromIo(i)) == None
  {
  }
}

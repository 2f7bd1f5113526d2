/** The market-data health check: one quote request to the provider, whose
    untrusted reply is classified, in a fixed priority order, as ERROR,
    WARNING, SUCCESS or UNKNOWN; a request or parse that throws is FAILED, and
    a missing API key is an ERROR before any request is made.

    The environment variable, the request itself and the clock are inputs:
    the key is `None` when the variable is unset, the request's outcome is a
    parsed JSON value or the message of the exception, and `latency` is the
    elapsed time the handler reads from the clock. */
module AlphaVantageHealth {
  import opened Wrappers
  import opened Json

  /** The fields the check copies out of a quote; a field the quote lacks is
      `None` and is left out of the serialized reply. */
  datatype QuoteSummary = QuoteSummary(
    ticker: Option<Json>,
    price: Option<Json>,
    day: Option<Json>,
    changePercent: Option<Json>)

  /** The handler's possible replies, before serialization. */
  datatype Report =
    | KeyMissing
    | ApiError(latency: int, message: Json)
    | Notice(latency: int, message: Json)
    | Healthy(latency: int, quote: QuoteSummary)
    | Unexpected(latency: int, raw: string)
    | Failed(latency: int, failure: string)

  /** What the request produced: the parsed body, or the message of the
      exception that fetching or parsing threw. */
  datatype FetchOutcome = Parsed(data: Json) | Threw(message: string)

  const ErrorKey := "Error Message"
  const NoteKey := "Note"
  const InformationKey := "Information"
  const QuoteKey := "Global Quote"
  const PriceKey := "05. price"

  /** Longest raw excerpt an UNKNOWN reply carries. */
  const RawLimit: nat := 200

  /** The message of the TypeError thrown by reading a property of a `null`
      body. */
  const NullReadMessage := "Cannot read properties of null (reading 'Error Message')"

  /** The status word of a reply. */
  function StatusName(r: Report): string
  {
    match r
    case KeyMissing => "ERROR"
    case ApiError(_, _) => "ERROR"
    case Notice(_, _) => "WARNING"
    case Healthy(_, _) => "SUCCESS"
    case Unexpected(_, _) => "UNKNOWN"
    case Failed(_, _) => "FAILED"
  }

  /** The latency a reply reports, if any. */
  function LatencyOf(r: Report): Option<int>
  {
    if r.KeyMissing? then None else Some(r.latency)
  }

  /** `s.substring(0, n)`. */
  function Prefix(s: string, n: nat): (r: string)
    ensures |r| <= n && |r| <= |s|
    ensures r == s[..|r|]
    ensures |s| <= n ==> r == s
  {
    if |s| <= n then s else s[..n]
  }

  /** The fields copied out of the quote object. */
  function Summarize(quote: Json): QuoteSummary
  {
    QuoteSummary(
      Get(quote, "01. symbol"),
      Get(quote, PriceKey),
      Get(quote, "07. latest trading day"),
      Get(quote, "10. change percent"))
  }

  /** The classification of a parsed body, checked in order: a truthy error
      message, then a truthy note or information, then a quote with a truthy
      price, else an unexpected structure with the start of the body as
      serialized. A `null` body throws on its first property read. */
  function Classify(data: Json, latency: int): (r: Report)
    ensures LatencyOf(r) == Some(latency)
    ensures r.Failed? <==> data.JNull?
    ensures r.Failed? ==> r.failure == NullReadMessage
    ensures r.ApiError? ==> Some(r.message) == Get(data, ErrorKey) && Truthy(Some(r.message))
    ensures r.Notice? ==> !Truthy(Get(data, ErrorKey)) && Truthy(Some(r.message))
    ensures r.Notice? ==> Some(r.message) == (if Truthy(Get(data, NoteKey)) then Get(data, NoteKey) else Get(data, InformationKey))
    ensures r.Healthy? ==> Truthy(Get(data, QuoteKey)) && Truthy(r.quote.price)
    ensures r.Unexpected? ==> |r.raw| <= RawLimit && |r.raw| <= |Stringify(data)| && r.raw == Stringify(data)[..|r.raw|]
  {
    if data.JNull? then Failed(latency, NullReadMessage)
    else if Truthy(Get(data, ErrorKey)) then ApiError(latency, Get(data, ErrorKey).value)
    else if Truthy(Get(data, NoteKey)) then Notice(latency, Get(data, NoteKey).value)
    else if Truthy(Get(data, InformationKey)) then Notice(latency, Get(data, InformationKey).value)
    else
      var quote := Get(data, QuoteKey);
      if Truthy(quote) && Truthy(Get(quote.value, PriceKey)) then Healthy(latency, Summarize(quote.value))
      else Unexpected(latency, Prefix(Stringify(data), RawLimit))
  }

  /** The health-check handler. A key that is unset or empty gives the
      key-missing ERROR and no latency; every other reply reports the latency. */
  function Handler(apiKey: Option<string>, outcome: FetchOutcome, latency: int): (r: Report)
    ensures r.KeyMissing? <==> apiKey.None? || apiKey.value == ""
    ensures LatencyOf(r).None? <==> r.KeyMissing?
    ensures !r.KeyMissing? ==> LatencyOf(r) == Some(latency)
    ensures !r.KeyMissing? && outcome.Threw? ==> r == Failed(latency, outcome.message)
    ensures !r.KeyMissing? && outcome.Parsed? ==> r == Classify(outcome.data, latency)
  {
    if apiKey.None? || apiKey.value == "" then KeyMissing
    else
      match outcome
      case Threw(message) => Failed(latency, message)
      case Parsed(data) => Classify(data, latency)
  }

  /** A truthy error message decides the reply alone: two bodies that carry
      the same one are classified alike, whatever else they contain. */
  lemma ErrorMessageTakesPriority(d1: Json, d2: Json, latency: int)
    requires !d1.JNull? && !d2.JNull?
    requires Get(d1, ErrorKey) == Get(d2, ErrorKey) && Truthy(Get(d1, ErrorKey))
    ensures Classify(d1, latency) == Classify(d2, latency) == ApiError(latency, Get(d1, ErrorKey).value)
  {
  }

  /** Without an error message, a truthy note or information decides the
      reply: the quote is never looked at. */
  lemma NoticeTakesPriorityOverQuote(d1: Json, d2: Json, latency: int)
    requires !d1.JNull? && !d2.JNull?
    requires !Truthy(Get(d1, ErrorKey)) && !Truthy(Get(d2, ErrorKey))
    requires Get(d1, NoteKey) == Get(d2, NoteKey) && Get(d1, InformationKey) == Get(d2, InformationKey)
    requires Truthy(Get(d1, NoteKey)) || Truthy(Get(d1, InformationKey))
    ensures Classify(d1, latency) == Classify(d2, latency)
    ensures Classify(d1, latency).Notice?
  {
  }

  /** SUCCESS exactly when no error, note or information is truthy and the
      quote is truthy with a truthy price; its fields are copied verbatim from
      the quote. */
  lemma SuccessIff(data: Json, latency: int)
    ensures var r := Classify(data, latency);
            r.Healthy? <==>
              && !data.JNull?
              && !Truthy(Get(data, ErrorKey)) && !Truthy(Get(data, NoteKey)) && !Truthy(Get(data, InformationKey))
              && Truthy(Get(data, QuoteKey)) && Truthy(Get(Get(data, QuoteKey).value, PriceKey))
    ensures var r := Classify(data, latency);
            r.Healthy? ==>
              var quote := Get(data, QuoteKey).value;
              && r.quote.ticker == Get(quote, "01. symbol")
              && r.quote.price == Get(quote, PriceKey)
              && r.quote.day == Get(quote, "07. latest trading day")
              && r.quote.changePercent == Get(quote, "10. change percent")
  {
  }

  /** An UNKNOWN reply carries the first 200 characters of the serialized
      body, all of it when it is that short. */
  lemma RawIsBoundedPrefix(data: Json, latency: int)
    requires Classify(data, latency).Unexpected?
    ensures var raw := Classify(data, latency).raw;
            && |raw| <= RawLimit
            && Stringify(data)[..|raw|] == raw
            && (|Stringify(data)| <= RawLimit ==> raw == Stringify(data))
            && (|Stringify(data)| > RawLimit ==> |raw| == RawLimit)
  {
  }

  // ----- The serialized reply -----

  /** The decimal digit `d`. */
  function DigitChar(d: nat): (c: char)
    requires d < 10
    ensures '0' <= c <= '9' && c as int - '0' as int == d
  {
    ('0' as int + d) as char
  }

  /** The decimal digits of `n`. */
  function NatText(n: nat): (r: string)
    ensures |r| >= 1
    ensures forall i :: 0 <= i < |r| ==> '0' <= r[i] <= '9'
    decreases n
  {
    if n < 10 then [DigitChar(n)] else NatText(n / 10) + [DigitChar(n % 10)]
  }

  /** An integer as JavaScript prints it. */
  function IntText(n: int): string
  {
    if n < 0 then "-" + NatText(-n) else NatText(n)
  }

  /** The members of the `data` object of a SUCCESS reply; undefined values
      are skipped by the serializer. */
  function QuoteFields(q: QuoteSummary): seq<Field>
  {
    (if q.ticker.Some? then [Field("ticker", q.ticker.value)] else [])
    + (if q.price.Some? then [Field("price", q.price.value)] else [])
    + (if q.day.Some? then [Field("day", q.day.value)] else [])
    + (if q.changePercent.Some? then [Field("changePercent", q.changePercent.value)] else [])
  }

  /** The object the handler serializes as its reply, members in the order
      the handler writes them. */
  function ReportJson(r: Report): (j: Json)
    ensures j.JObj? && |j.fields| >= 2 && j.fields[0] == Field("status", JStr(StatusName(r)))
  {
    var status := Field("status", JStr(StatusName(r)));
    match r
    case KeyMissing => JObj([status, Field("message", JStr("API Key missing"))])
    case ApiError(latency, m) => JObj([status, LatencyField(latency), Field("message", m)])
    case Notice(latency, m) => JObj([status, LatencyField(latency), Field("message", m)])
    case Healthy(latency, q) => JObj([status, LatencyField(latency), Field("data", JObj(QuoteFields(q)))])
    case Unexpected(latency, raw) =>
      JObj([status, LatencyField(latency),
            Field("message", JStr("Unexpected response structure")), Field("raw", JStr(raw))])
    case Failed(latency, m) => JObj([status, LatencyField(latency), Field("message", JStr(m))])
  }

  function LatencyField(latency: int): Field
  {
    Field("latency", JNum(IntText(latency)))
  }

  lemma KeyMissingMembers()
    ensures var fields := ReportJson(KeyMissing).fields;
            && Lookup(fields, "status") == Some(JStr("ERROR"))
            && Lookup(fields, "latency") == None
            && Lookup(fields, "message") == Some(JStr("API Key missing"))
  {
    var fields := ReportJson(KeyMissing).fields;
    LookupFirst(fields, 0, "status");
    assert "message"[0] != "status"[0];
    LookupFirst(fields, 1, "message");
  }

  lemma HeadMembers(r: Report)
    requires !r.KeyMissing?
    ensures Lookup(ReportJson(r).fields, "status") == Some(JStr(StatusName(r)))
    ensures Lookup(ReportJson(r).fields, "latency") == Some(JNum(IntText(r.latency)))
  {
    LookupFirst(ReportJson(r).fields, 0, "status");
    LookupFirst(ReportJson(r).fields, 1, "latency");
  }

  lemma ThirdMember(r: Report, key: string)
    requires !r.KeyMissing? && |ReportJson(r).fields| >= 3 && ReportJson(r).fields[2].key == key
    requires key != "" && key[0] != 's' && key[0] != 'l'
    ensures Lookup(ReportJson(r).fields, key) == Some(ReportJson(r).fields[2].value)
  {
    LookupFirst(ReportJson(r).fields, 2, key);
  }

  lemma RawMember(r: Report)
    requires r.Unexpected?
    ensures Lookup(ReportJson(r).fields, "raw") == Some(JStr(r.raw))
  {
    assert "raw"[0] != "status"[0] && "raw"[0] != "latency"[0] && "raw"[0] != "message"[0];
    LookupFirst(ReportJson(r).fields, 3, "raw");
  }

  /** Reading the serialized reply back: its status word, its latency exactly
      when it has one, and the message, raw excerpt or quote data it
      carries. */
  lemma ReportJsonMembers(r: Report)
    ensures var j := ReportJson(r);
            && Get(j, "status") == Some(JStr(StatusName(r)))
            && Get(j, "latency") == (if r.KeyMissing? then None else Some(JNum(IntText(r.latency))))
            && (r.KeyMissing? ==> Get(j, "message") == Some(JStr("API Key missing")))
            && (r.ApiError? || r.Notice? ==> Get(j, "message") == Some(r.message))
            && (r.Failed? ==> Get(j, "message") == Some(JStr(r.failure)))
            && (r.Unexpected? ==> Get(j, "message") == Some(JStr("Unexpected response structure")))
            && (r.Unexpected? ==> Get(j, "raw") == Some(JStr(r.raw)))
            && (r.Healthy? ==> Get(j, "data") == Some(JObj(QuoteFields(r.quote))))
  {
    if r.KeyMissing? {
      KeyMissingMembers();
    } else {
      HeadMembers(r);
      if r.Healthy? {
        ThirdMember(r, "data");
      } else {
        ThirdMember(r, "message");
        if r.Unexpected? {
          RawMember(r);
        }
      }
    }
  }

  /** The JSON text of an object with the two given string members, as
      `JSON.stringify` writes it. */
  function TwoMembers(k0: string, v0: string, k1: string, v1: string): string
  {
    "{" + ((Quote(k0) + ":" + Quote(v0)) + "," + (Quote(k1) + ":" + Quote(v1))) + "}"
  }

  /** The text of a reply object opens with its status member; the
      key-missing reply is exactly the two-member error body. */
  lemma ReportText(r: Report)
    ensures var head := "{" + (Quote("status") + ":" + Quote(StatusName(r)));
            |head| <= |Stringify(ReportJson(r))| && Stringify(ReportJson(r))[..|head|] == head
    ensures r.KeyMissing? ==> Stringify(ReportJson(r)) == TwoMembers("status", "ERROR", "message", "API Key missing")
  {
    StringifyObjectStart(ReportJson(r).fields);
    if r.KeyMissing? {
      StringifyTwoMembers(Field("status", JStr("ERROR")), Field("message", JStr("API Key missing")));
    }
  }

  /** The reply string the handler returns: an object whose first member is
      the status word; a missing key gives exactly
      `{"status":"ERROR","message":"API Key missing"}`. */
  function Reply(apiKey: Option<string>, outcome: FetchOutcome, latency: int): (s: string)
    ensures var head := "{" + (Quote("status") + ":" + Quote(StatusName(Handler(apiKey, outcome, latency))));
            |head| <= |s| && s[..|head|] == head
    ensures apiKey.None? || apiKey.value == "" ==> s == TwoMembers("status", "ERROR", "message", "API Key missing")
  {
    ReportText(Handler(apiKey, outcome, latency));
    Stringify(ReportJson(Handler(apiKey, outcome, latency)))
  }
}

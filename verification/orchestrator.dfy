/** The recommendation orchestrator: it builds a (simulated) recommendation
    packet, obtains an explanation for it from the reasoning model, checks the
    explanation against a fixed schema, scans it for ticker-like words the
    packet never mentioned, and falls back to a canned explanation whenever
    obtaining or checking the explanation fails.

    The model invocation is not made by the handler as written: the response is
    a fixed sample, which `Handler` uses, while `HandleWith` takes the parsed
    response as an input so that every outcome can be stated. */
module Orchestrator {
  import opened Wrappers
  import opened Json
  import TickerScan

  datatype PortfolioItem = PortfolioItem(ticker: string, weight: real, score: real)

  datatype ComplianceIssue = ComplianceIssue(kind: string, message: string)

  datatype PacketMetrics = PacketMetrics(portfolioYield: real, beta: real)

  datatype Packet = Packet(
    asOf: string,
    benchmark: string,
    targetPortfolio: seq<PortfolioItem>,
    compliance: seq<ComplianceIssue>,
    metrics: PacketMetrics)

  /** An explanation that passed the schema: exactly the five schema fields
      (the schema strips any other key). */
  datatype Explanation = Explanation(
    summary: string,
    bullets: seq<string>,
    whatWouldChangeThis: seq<string>,
    risksToWatch: seq<string>,
    disclaimers: seq<string>)

  const MinSummaryLength: nat := 50
  const MinBullets: nat := 3

  /** The five schema keys differ in their first letter. */
  lemma SchemaKeysDistinct()
    ensures "summary"[0] == 's' && "bullets"[0] == 'b' && "whatWouldChangeThis"[0] == 'w'
    ensures "risksToWatch"[0] == 'r' && "disclaimers"[0] == 'd'
  {
  }

  /** The length bounds of the schema. */
  predicate WithinBounds(e: Explanation)
  {
    |e.summary| >= MinSummaryLength && |e.bullets| >= MinBullets
  }

  /** `v` is present and an array holding only strings. */
  predicate IsStringArray(v: Option<Json>)
  {
    v.Some? && v.value.JArr? && forall i :: 0 <= i < |v.value.items| ==> v.value.items[i].JStr?
  }

  /** The explanation schema, stated on the parsed value: an object whose
      `summary` is a string of at least 50 characters, whose `bullets` is an
      array of at least 3 strings, and whose `whatWouldChangeThis`,
      `risksToWatch` and `disclaimers` are arrays of strings. */
  predicate Conforms(j: Json)
  {
    && j.JObj?
    && var summary := Get(j, "summary");
    && summary.Some? && summary.value.JStr? && |summary.value.s| >= MinSummaryLength
    && var bullets := Get(j, "bullets");
    && IsStringArray(bullets) && |bullets.value.items| >= MinBullets
    && IsStringArray(Get(j, "whatWouldChangeThis"))
    && IsStringArray(Get(j, "risksToWatch"))
    && IsStringArray(Get(j, "disclaimers"))
  }

  /** The members of an explanation as the schema outputs them, in schema
      order. */
  function Members(e: Explanation): seq<Field>
  {
    [
      Field("summary", JStr(e.summary)),
      Field("bullets", StrArray(e.bullets)),
      Field("whatWouldChangeThis", StrArray(e.whatWouldChangeThis)),
      Field("risksToWatch", StrArray(e.risksToWatch)),
      Field("disclaimers", StrArray(e.disclaimers))
    ]
  }

  lemma SummaryMember(e: Explanation)
    ensures Lookup(Members(e), "summary") == Some(JStr(e.summary))
  {
    LookupFirst(Members(e), 0, "summary");
  }

  lemma BulletsMember(e: Explanation)
    ensures Lookup(Members(e), "bullets") == Some(StrArray(e.bullets))
  {
    SchemaKeysDistinct();
    LookupFirst(Members(e), 1, "bullets");
  }

  lemma ChangeMember(e: Explanation)
    ensures Lookup(Members(e), "whatWouldChangeThis") == Some(StrArray(e.whatWouldChangeThis))
  {
    SchemaKeysDistinct();
    LookupFirst(Members(e), 2, "whatWouldChangeThis");
  }

  lemma RisksMember(e: Explanation)
    ensures Lookup(Members(e), "risksToWatch") == Some(StrArray(e.risksToWatch))
  {
    SchemaKeysDistinct();
    LookupFirst(Members(e), 3, "risksToWatch");
  }

  lemma DisclaimersMember(e: Explanation)
    ensures Lookup(Members(e), "disclaimers") == Some(StrArray(e.disclaimers))
  {
    SchemaKeysDistinct();
    LookupFirst(Members(e), 4, "disclaimers");
  }

  /** The explanation as the schema outputs it, keys in schema order. */
  function ToJson(e: Explanation): (j: Json)
    ensures j.JObj?
    ensures Get(j, "summary") == Some(JStr(e.summary))
    ensures Get(j, "bullets") == Some(StrArray(e.bullets))
    ensures Get(j, "whatWouldChangeThis") == Some(StrArray(e.whatWouldChangeThis))
    ensures Get(j, "risksToWatch") == Some(StrArray(e.risksToWatch))
    ensures Get(j, "disclaimers") == Some(StrArray(e.disclaimers))
  {
    SummaryMember(e);
    BulletsMember(e);
    ChangeMember(e);
    RisksMember(e);
    DisclaimersMember(e);
    JObj(Members(e))
  }

  /** The strings of property `key` of `j`, when it is an array of strings. */
  function StringsAt(j: Json, key: string): Option<seq<string>>
  {
    match Get(j, key)
    case None => None
    case Some(v) => AsStrings(v)
  }

  /** `ExplanationSchema.parse`: the validated explanation, or None where the
      schema throws. Keys outside the schema are dropped. */
  function ParseExplanation(j: Json): (r: Option<Explanation>)
    ensures r.Some? <==> Conforms(j)
    ensures r.Some? ==> WithinBounds(r.value)
    ensures r.Some? ==> && Get(j, "summary") == Some(JStr(r.value.summary))
                        && Get(j, "bullets") == Some(StrArray(r.value.bullets))
                        && Get(j, "whatWouldChangeThis") == Some(StrArray(r.value.whatWouldChangeThis))
                        && Get(j, "risksToWatch") == Some(StrArray(r.value.risksToWatch))
                        && Get(j, "disclaimers") == Some(StrArray(r.value.disclaimers))
  {
    if !j.JObj? then None
    else
      var summary := Get(j, "summary");
      var bullets := StringsAt(j, "bullets");
      var change := StringsAt(j, "whatWouldChangeThis");
      var risks := StringsAt(j, "risksToWatch");
      var disclaimers := StringsAt(j, "disclaimers");
      if summary.Some? && summary.value.JStr? && |summary.value.s| >= MinSummaryLength
         && bullets.Some? && |bullets.value| >= MinBullets
         && change.Some? && risks.Some? && disclaimers.Some?
      then Some(Explanation(summary.value.s, bullets.value, change.value, risks.value, disclaimers.value))
      else None
  }

  /** An explanation read back from its own JSON is itself exactly when it
      meets the length bounds; otherwise the schema refuses it. */
  lemma ParseToJsonRoundTrip(e: Explanation)
    ensures ParseExplanation(ToJson(e)) == (if WithinBounds(e) then Some(e) else None)
  {
    AsStringsOfStrArray(e.bullets);
    AsStringsOfStrArray(e.whatWouldChangeThis);
    AsStringsOfStrArray(e.risksToWatch);
    AsStringsOfStrArray(e.disclaimers);
  }

  // ----- Hallucination guard -----

  /** Upper-case words the guard accepts without a matching packet ticker. */
  const KnownKeywords: seq<string> :=
    ["VIG", "ETF", "USA", "USD", "GDP", "CPI", "CAGR", "EPS", "FCF", "ROIC", "LLC", "INC"]

  /** The tickers of the packet's target portfolio. */
  function PacketTickers(p: Packet): (r: set<string>)
    ensures forall i :: 0 <= i < |p.targetPortfolio| ==> p.targetPortfolio[i].ticker in r
    ensures forall t :: t in r ==> exists i :: 0 <= i < |p.targetPortfolio| && p.targetPortfolio[i].ticker == t
  {
    set i | 0 <= i < |p.targetPortfolio| :: p.targetPortfolio[i].ticker
  }

  /** The tokens of `tokens` that are neither known keywords nor packet
      tickers, one per occurrence, in order. */
  function Unexplained(tokens: seq<string>, tickers: set<string>): (r: seq<string>)
    ensures |r| <= |tokens|
    ensures forall t :: t in r <==> t in tokens && t !in KnownKeywords && t !in tickers
  {
    if |tokens| == 0 then []
    else
      var rest := Unexplained(tokens[1..], tickers);
      assert forall t :: t in tokens <==> t == tokens[0] || t in tokens[1..];
      if tokens[0] in KnownKeywords || tokens[0] in tickers then rest else [tokens[0]] + rest
  }

  /** The words the guard warns about in `text`: every ticker-like token that
      is not a known keyword and not a packet ticker. */
  function FlaggedTokens(text: string, tickers: set<string>): seq<string>
  {
    Unexplained(TickerScan.Tokens(text), tickers)
  }

  /** A word is flagged exactly when it is a whole word of two to five
      upper-case letters in the text, not a known keyword and not a packet
      ticker; in particular packet tickers and keywords are never flagged. */
  lemma FlaggedIff(text: string, tickers: set<string>, t: string)
    ensures t in FlaggedTokens(text, tickers) <==>
              && (exists a, b :: TickerScan.IsMatch(text, a, b) && text[a..b] == t)
              && t !in KnownKeywords
              && t !in tickers
  {
    TickerScan.TokensAreMatches(text, t);
  }

  /** What `JSON.parse` produced from the model's response text, or its
      failure. */
  datatype ParseOutcome = Parsed(value: Json) | Unparseable

  /** A validated explanation together with the words the guard warned
      about. */
  datatype Generated = Generated(explanation: Explanation, warnings: seq<string>)

  /** `generateSafeExplanation`: parse, validate, then scan the serialized
      explanation for unexplained tickers. None stands for the exception that
      the handler catches. The guard only warns: the validated explanation is
      returned whatever it flags. */
  function GenerateSafeExplanation(packet: Packet, response: ParseOutcome): (r: Option<Generated>)
    ensures r.Some? <==> response.Parsed? && Conforms(response.value)
    ensures r.Some? ==> ParseExplanation(response.value) == Some(r.value.explanation)
    ensures r.Some? ==> forall t :: t in r.value.warnings <==>
              && t in TickerScan.Tokens(Stringify(ToJson(r.value.explanation)))
              && t !in KnownKeywords
              && t !in PacketTickers(packet)
  {
    match response
    case Unparseable => None
    case Parsed(j) =>
      match ParseExplanation(j)
      case None => None
      case Some(validated) =>
        var text := Stringify(ToJson(validated));
        Some(Generated(validated, FlaggedTokens(text, PacketTickers(packet))))
  }

  // ----- Fallback and handler -----

  /** The explanation the handler returns to the caller. */
  datatype Shown =
    | Checked(explanation: Explanation)
    | Fallback(summary: string, bullets: seq<string>, disclaimers: seq<string>)

  const FallbackSummary: string := "Standard recommendation packet generated based on configured constraints."
  const StandardDisclaimers: seq<string> :=
    ["Not financial advice", "No guarantee of outperformance", "Human approval required"]

  /** `getFallbackExplanation`: the same canned explanation whatever the
      packet, with one bullet, the three standard disclaimers, and neither
      `whatWouldChangeThis` nor `risksToWatch`. */
  function FallbackExplanation(packet: Packet): (r: Shown)
    ensures r.Fallback?
    ensures r.summary == FallbackSummary
    ensures |r.bullets| == 1 && r.disclaimers == StandardDisclaimers
  {
    Fallback(FallbackSummary, ["Review target weights in table."], StandardDisclaimers)
  }

  /** The explanation as serialized into the response body. */
  function ShownToJson(s: Shown): Json
  {
    match s
    case Checked(e) => ToJson(e)
    case Fallback(summary, bullets, disclaimers) =>
      JObj([
        Field("summary", JStr(summary)),
        Field("bullets", StrArray(bullets)),
        Field("disclaimers", StrArray(disclaimers))
      ])
  }

  /** The fallback is the same for every packet and would not itself pass the
      explanation schema. */
  lemma FallbackIsConstantAndNonConforming(p: Packet, q: Packet)
    ensures FallbackExplanation(p) == FallbackExplanation(q)
    ensures !Conforms(ShownToJson(FallbackExplanation(p)))
  {
    assert Get(ShownToJson(FallbackExplanation(p)), "risksToWatch").None?;
  }

  /** The handler's reply: status code, the packet and the explanation (the
      body is their JSON serialization). */
  datatype Reply = Reply(statusCode: int, packet: Packet, explanation: Shown)

  /** The handler with the model's parsed response as an input: any parse or
      validation failure yields the fallback, and the reply is always 200 with
      the packet unchanged. */
  function HandleWith(packet: Packet, response: ParseOutcome): (r: Reply)
    ensures r.statusCode == 200 && r.packet == packet
    ensures r.explanation.Checked? <==> response.Parsed? && Conforms(response.value)
    ensures r.explanation.Checked? ==> ParseExplanation(response.value) == Some(r.explanation.explanation)
    ensures r.explanation.Fallback? ==> r.explanation == FallbackExplanation(packet)
  {
    var explanation :=
      match GenerateSafeExplanation(packet, response)
      case Some(g) => Checked(g.explanation)
      case None => FallbackExplanation(packet);
    Reply(200, packet, explanation)
  }

  /** The simulated optimisation result; `asOf` is today's date, which the
      handler reads from the clock. */
  function SimulatedPacket(asOf: string): Packet
  {
    Packet(
      asOf,
      "VIG",
      [PortfolioItem("MSFT", 0.05, 92.0), PortfolioItem("JNJ", 0.04, 88.0)],
      [],
      PacketMetrics(0.028, 0.85))
  }

  /** The fixed model response embedded in the handler, as parsed. */
  const SampleResponse: Json := JObj([
    Field("summary", JStr("The portfolio is positioned for quality growth with a defensive tilt.")),
    Field("bullets", StrArray(["Overweight Healthcare", "Added MSFT for dividend growth"])),
    Field("whatWouldChangeThis", StrArray(["Interest rate hikes"])),
    Field("risksToWatch", StrArray(["Tech valuation compression"])),
    Field("disclaimers", StrArray(StandardDisclaimers))
  ])

  /** The sample has only two bullets, so the schema refuses it. */
  lemma SampleDoesNotConform()
    ensures !Conforms(SampleResponse)
  {
    SchemaKeysDistinct();
    LookupFirst(SampleResponse.fields, 1, "bullets");
  }

  /** The handler as written, with the sample response: since the sample
      fails the schema, it always replies 200 with the simulated packet and
      the fallback explanation. */
  function Handler(asOf: string): (r: Reply)
    ensures r == Reply(200, SimulatedPacket(asOf), FallbackExplanation(SimulatedPacket(asOf)))
  {
    SampleDoesNotConform();
    HandleWith(SimulatedPacket(asOf), Parsed(SampleResponse))
  }
}

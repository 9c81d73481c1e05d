/**
 * Per-chunk extraction and the aggregation over chunks (scraper.py:
 * `format_data_with_genai` and the loop of `scraping_function`).
 *
 * The generative model is replaced by the outcome of each call: the token
 * count measured before the call, the parse of the completion text and the
 * usage counters of the completion; or an exception. Costs are kept in
 * thousandths of the source's unit, so that `(in + out) * 0.001` becomes
 * the integer `in + out`.
 */
module Extraction {
  import opened Collections
  import opened Strings
  import Traversal

  /** One extracted item: a mapping from field name to value. */
  type Record = map<string, string>

  /** The only model identifier the extractor accepts. */
  const SupportedModel := "gemini flash-1.5"

  /** The instructions every extraction prompt starts with. */
  const SystemMessage := "You are an intelligent text extraction and conversion assistant. \nYour task is to extract structured information from the given text and convert it into a pure JSON format. \nFormat the output as a JSON array of objects, with each object containing the specified fields.\nExtract ALL available entries that match the specified fields.\nDo not include any markdown formatting or code block indicators in your response."

  /** The prompt text between the instructions and the field list. */
  const FieldsIntro := "\nPlease extract the following fields: "

  /** The prompt text between the field list and the page text. */
  const FormatRules := "\nReturn ONLY a complete, valid JSON array where each object contains these fields.\nExtract ALL available entries that match these fields.\nExample format: [{\"field1\": \"value1\"}, {\"field1\": \"value2\"}]\n\n"

  /**
   * Every requested field name with its surrounding whitespace stripped:
   * each is the slice of its name left once the leading and trailing
   * whitespace is cut off.
   */
  function StrippedFields(fields: seq<string>): (r: seq<string>)
    ensures |r| == |fields|
    ensures forall k :: 0 <= k < |fields| ==> IsStripOf(r[k], fields[k])
  {
    var r := seq(|fields|, k requires 0 <= k < |fields| => Strip(fields[k]));
    forall k | 0 <= k < |fields| ensures IsStripOf(r[k], fields[k]) {
      StripIsStripOf(fields[k]);
    }
    r
  }

  /** The prompt sent for one chunk of page text. */
  function ExtractionPrompt(data: string, fields: seq<string>): (p: string)
    ensures StartsWith(p, SystemMessage)
    ensures EndsWith(p, data)
  {
    Framed(SystemMessage, FieldsIntro, Join(", ", StrippedFields(fields)), FormatRules, data)
  }

  /** The prompt names every requested field, stripped, at its place in the comma-separated list. */
  lemma PromptNamesEachField(data: string, fields: seq<string>, k: nat)
    requires k < |fields|
    ensures IsInfixAt(Strip(fields[k]), ExtractionPrompt(data, fields),
                      |SystemMessage| + |FieldsIntro| + JoinOffset(", ", StrippedFields(fields), k))
  {
    FramedNamesEachPart(SystemMessage, FieldsIntro, ", ", StrippedFields(fields), FormatRules, data, k);
  }

  /** What `json.loads` made of the completion text. */
  datatype Parsed = ParsedList(items: seq<Record>) | ParsedObject(item: Record) | DecodeError

  /** A completion: the parse of its text and the token counts in its usage metadata. */
  datatype Completion = Completion(parsed: Parsed, promptTokens: nat, candidateTokens: nat)

  /**
   * One chunk's call: an exception (from counting tokens, generating, or
   * reading the text), or the count measured before generating and the
   * completion.
   */
  datatype Call = CallRaised | Answered(countedTokens: nat, completion: Completion)

  /** What `format_data_with_genai` returns: records, input and output tokens, cost in thousandths. */
  datatype Extracted = Extracted(records: seq<Record>, inputTokens: nat, outputTokens: nat, costMilli: nat)

  /**
   * `format_data_with_genai` after the model call: a top-level array gives
   * its elements, any other value becomes a one-element list; text that
   * does not decode gives no records, cost 0, and the count measured
   * before the call in place of the usage-metadata prompt count.
   */
  function FormatData(countedTokens: nat, c: Completion): (e: Extracted)
    ensures c.parsed.ParsedList? ==> e.records == c.parsed.items
    ensures c.parsed.ParsedObject? ==> e.records == [c.parsed.item]
    ensures c.parsed.DecodeError? ==> e.records == [] && e.inputTokens == countedTokens && e.costMilli == 0
    ensures !c.parsed.DecodeError? ==> e.inputTokens == c.promptTokens && e.costMilli == e.inputTokens + e.outputTokens
    ensures e.outputTokens == c.candidateTokens
  {
    match c.parsed
    case DecodeError => Extracted([], countedTokens, c.candidateTokens, 0)
    case ParsedList(items) => Extracted(items, c.promptTokens, c.candidateTokens, c.promptTokens + c.candidateTokens)
    case ParsedObject(item) => Extracted([item], c.promptTokens, c.candidateTokens, c.promptTokens + c.candidateTokens)
  }

  /** What the chunks that did not raise extracted, in chunk order. */
  function Contributions(calls: seq<Call>): seq<Extracted>
  {
    if calls == [] then []
    else
      match calls[0]
      case CallRaised => Contributions(calls[1..])
      case Answered(n, c) => [FormatData(n, c)] + Contributions(calls[1..])
  }

  /** The records of all contributions, concatenated in order. */
  function AllRecords(exts: seq<Extracted>): seq<Record>
  {
    if exts == [] then [] else exts[0].records + AllRecords(exts[1..])
  }

  function TotalInput(exts: seq<Extracted>): nat
  {
    if exts == [] then 0 else exts[0].inputTokens + TotalInput(exts[1..])
  }

  function TotalOutput(exts: seq<Extracted>): nat
  {
    if exts == [] then 0 else exts[0].outputTokens + TotalOutput(exts[1..])
  }

  function TotalCost(exts: seq<Extracted>): nat
  {
    if exts == [] then 0 else exts[0].costMilli + TotalCost(exts[1..])
  }

  /**
   * What `scraping_function` returns: the table of records with the token
   * and cost totals; the run stopped by `st.stop` because the model is not
   * supported; or the error raised when the page could not be fetched.
   */
  datatype ScrapeOutcome =
    | Table(records: seq<Record>, inputTokens: nat, outputTokens: nat, costMilli: nat)
    | ScrapeStopped
    | ScrapeFailed

  /**
   * The result of the chunk loop: the first chunk stops the run when the
   * model is not supported; otherwise the records of every chunk that did
   * not raise, concatenated, with their totals, except that no records at
   * all give the empty table and zero totals.
   */
  function Aggregated(model: string, calls: seq<Call>): ScrapeOutcome
  {
    if calls != [] && model != SupportedModel then ScrapeStopped
    else
      var exts := Contributions(calls);
      if AllRecords(exts) == [] then Table([], 0, 0, 0)
      else Table(AllRecords(exts), TotalInput(exts), TotalOutput(exts), TotalCost(exts))
  }

  /** Contributions of consecutive chunk runs are consecutive. */
  lemma {:induction false} ContributionsAppend(a: seq<Call>, b: seq<Call>)
    ensures Contributions(a + b) == Contributions(a) + Contributions(b)
    decreases |a|
  {
    if a != [] {
      assert (a + b)[0] == a[0];
      assert (a + b)[1..] == a[1..] + b;
      ContributionsAppend(a[1..], b);
    } else {
      assert a + b == b;
    }
  }

  /** The records of consecutive contributions are concatenated. */
  lemma {:induction false} RecordsAppend(x: seq<Extracted>, y: seq<Extracted>)
    ensures AllRecords(x + y) == AllRecords(x) + AllRecords(y)
    decreases |x|
  {
    if x != [] {
      assert (x + y)[1..] == x[1..] + y;
      RecordsAppend(x[1..], y);
    } else {
      assert x + y == y;
    }
  }

  /** The token and cost totals of consecutive contributions are added. */
  lemma {:induction false} SumsAppend(x: seq<Extracted>, y: seq<Extracted>)
    ensures TotalInput(x + y) == TotalInput(x) + TotalInput(y)
    ensures TotalOutput(x + y) == TotalOutput(x) + TotalOutput(y)
    ensures TotalCost(x + y) == TotalCost(x) + TotalCost(y)
    decreases |x|
  {
    if x != [] {
      assert (x + y)[1..] == x[1..] + y;
      SumsAppend(x[1..], y);
    } else {
      assert x + y == y;
    }
  }

  /** Records and totals of consecutive contributions are concatenations and sums. */
  lemma TotalsAppend(x: seq<Extracted>, y: seq<Extracted>)
    ensures AllRecords(x + y) == AllRecords(x) + AllRecords(y)
    ensures TotalInput(x + y) == TotalInput(x) + TotalInput(y)
    ensures TotalOutput(x + y) == TotalOutput(x) + TotalOutput(y)
    ensures TotalCost(x + y) == TotalCost(x) + TotalCost(y)
  {
    RecordsAppend(x, y);
    SumsAppend(x, y);
  }

  /**
   * Splitting the chunks in two, the table holds the first part's records
   * followed by the second part's, and each total is the sum of the two
   * parts' totals.
   */
  lemma AggregatedSplit(a: seq<Call>, b: seq<Call>)
    requires AllRecords(Contributions(a + b)) != []
    ensures Aggregated(SupportedModel, a + b) == Table(
      AllRecords(Contributions(a)) + AllRecords(Contributions(b)),
      TotalInput(Contributions(a)) + TotalInput(Contributions(b)),
      TotalOutput(Contributions(a)) + TotalOutput(Contributions(b)),
      TotalCost(Contributions(a)) + TotalCost(Contributions(b)))
  {
    var exts := Contributions(a + b);
    ContributionsAppend(a, b);
    TotalsAppend(Contributions(a), Contributions(b));
    assert Aggregated(SupportedModel, a + b) == Table(AllRecords(exts), TotalInput(exts), TotalOutput(exts), TotalCost(exts));
  }

  /** A chunk whose call raised changes nothing about the result. */
  lemma AggregatedSkipsRaised(a: seq<Call>, b: seq<Call>)
    ensures Aggregated(SupportedModel, a + [CallRaised] + b) == Aggregated(SupportedModel, a + b)
  {
    ContributionsAppend(a, [CallRaised] + b);
    ContributionsAppend(a, b);
    assert a + [CallRaised] + b == a + ([CallRaised] + b);
    assert ([CallRaised] + b)[1..] == b;
  }

  /** A call that raised or whose text did not decode yields no record. */
  predicate Fruitless(call: Call) {
    call.CallRaised? || call.completion.parsed.DecodeError?
  }

  lemma {:induction false} FruitlessCallsNoRecords(calls: seq<Call>)
    requires forall i :: 0 <= i < |calls| ==> Fruitless(calls[i])
    ensures AllRecords(Contributions(calls)) == []
    decreases |calls|
  {
    if calls != [] {
      FruitlessCallsNoRecords(calls[1..]);
    }
  }

  /**
   * When every chunk raised or returned text that did not decode, the run
   * reports the empty table with zero tokens and zero cost, whatever the
   * calls spent.
   */
  lemma AggregatedAllFruitless(model: string, calls: seq<Call>)
    requires model == SupportedModel || calls == []
    requires forall i :: 0 <= i < |calls| ==> Fruitless(calls[i])
    ensures Aggregated(model, calls) == Table([], 0, 0, 0)
  {
    FruitlessCallsNoRecords(calls);
  }

  /**
   * The cost counts the input and output tokens of exactly the chunks
   * whose text decoded: it never exceeds the token totals, and it reaches
   * them when no chunk's text failed to decode.
   */
  lemma {:induction false} CostCountsDecodedTokens(calls: seq<Call>)
    ensures TotalCost(Contributions(calls)) <= TotalInput(Contributions(calls)) + TotalOutput(Contributions(calls))
    ensures (forall i :: 0 <= i < |calls| ==> calls[i].CallRaised? || !calls[i].completion.parsed.DecodeError?) ==>
      TotalCost(Contributions(calls)) == TotalInput(Contributions(calls)) + TotalOutput(Contributions(calls))
    decreases |calls|
  {
    if calls != [] {
      CostCountsDecodedTokens(calls[1..]);
      if forall i :: 0 <= i < |calls| ==> calls[i].CallRaised? || !calls[i].completion.parsed.DecodeError? {
        assert forall i :: 0 <= i < |calls[1..]| ==> calls[1..][i] == calls[i + 1];
      }
    }
  }

  /** One more chunk: a call that raised adds nothing; an answered one adds its records, tokens and cost. */
  lemma ChunkStep(prefix: seq<Call>, call: Call)
    ensures var before, after := Contributions(prefix), Contributions(prefix + [call]);
      call.CallRaised? ==> && AllRecords(after) == AllRecords(before)
                           && TotalInput(after) == TotalInput(before)
                           && TotalOutput(after) == TotalOutput(before)
                           && TotalCost(after) == TotalCost(before)
    ensures var before, after := Contributions(prefix), Contributions(prefix + [call]);
      call.Answered? ==> var e := FormatData(call.countedTokens, call.completion);
                         && AllRecords(after) == AllRecords(before) + e.records
                         && TotalInput(after) == TotalInput(before) + e.inputTokens
                         && TotalOutput(after) == TotalOutput(before) + e.outputTokens
                         && TotalCost(after) == TotalCost(before) + e.costMilli
  {
    ContributionsAppend(prefix, [call]);
    TotalsAppend(Contributions(prefix), Contributions([call]));
    if call.Answered? {
      var e := FormatData(call.countedTokens, call.completion);
      assert Contributions([call]) == [e];
      assert AllRecords([e]) == e.records;
    }
  }

  /**
   * The loop of `scraping_function` over the chunks' calls: each chunk's
   * records are appended and its tokens and cost added; a chunk whose call
   * raised is skipped; an unsupported model stops the run at the first
   * chunk; no records at all give the empty table and zero totals.
   */
  method ScrapeChunks(model: string, calls: seq<Call>) returns (r: ScrapeOutcome)
    ensures r == Aggregated(model, calls)
  {
    var allFormattedData: seq<Record> := [];
    var totalInputTokens, totalOutputTokens, totalCost := 0, 0, 0;
    for i := 0 to |calls|
      invariant i > 0 ==> model == SupportedModel
      invariant allFormattedData == AllRecords(Contributions(calls[..i]))
      invariant totalInputTokens == TotalInput(Contributions(calls[..i]))
      invariant totalOutputTokens == TotalOutput(Contributions(calls[..i]))
      invariant totalCost == TotalCost(Contributions(calls[..i]))
    {
      if model != SupportedModel {
        return ScrapeStopped;
      }
      assert calls[..i + 1] == calls[..i] + [calls[i]];
      ChunkStep(calls[..i], calls[i]);
      match calls[i]
      case CallRaised =>
        // the chunk's error is suppressed and the loop goes on
      case Answered(n, c) =>
        var e := FormatData(n, c);
        allFormattedData := allFormattedData + e.records;
        totalInputTokens := totalInputTokens + e.inputTokens;
        totalOutputTokens := totalOutputTokens + e.outputTokens;
        totalCost := totalCost + e.costMilli;
    }
    assert calls[..|calls|] == calls;
    if allFormattedData == [] {
      return Table([], 0, 0, 0);
    }
    return Table(allFormattedData, totalInputTokens, totalOutputTokens, totalCost);
  }

  /**
   * `scraping_function`: a failed fetch propagates as an error; otherwise
   * the result is that of the chunk loop over `calls`, one call per chunk
   * of the fetched pages' text (the splitting into chunks is not part of
   * this model).
   */
  method ScrapingFunction(fetched: Traversal.FetchOutcome, model: string, calls: seq<Call>) returns (r: ScrapeOutcome)
    ensures fetched.FetchFailed? ==> r == ScrapeFailed
    ensures fetched.Fetched? ==> r == Aggregated(model, calls)
  {
    if fetched.FetchFailed? {
      return ScrapeFailed;
    }
    r := ScrapeChunks(model, calls);
  }
}

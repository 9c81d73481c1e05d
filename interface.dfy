/**
 * The form's logic (ui.py): the fields typed as tags are deduplicated in
 * order, and pressing the button runs the scraper only when a URL and at
 * least one field were given. The widgets are replaced by their values,
 * `st.stop` by the screen the run ends on, and `scraping_function` by
 * `scrape`, what it returns for the URL and fields it is given.
 */
module Interface {
  import opened Collections
  import opened Extraction

  /**
   * The tag list with repeats removed: the first occurrence of every field
   * is kept, in the order the fields were entered.
   */
  method UniqueFields(fieldsToExtract: seq<string>) returns (uniqueFields: seq<string>)
    ensures uniqueFields == Dedup(fieldsToExtract)
    ensures NoDuplicates(uniqueFields)
    ensures forall f :: f in fieldsToExtract ==> f in uniqueFields
    ensures forall f :: f in uniqueFields ==> f in fieldsToExtract
    ensures forall i, j :: 0 <= i < j < |uniqueFields| ==>
      FirstIndex(fieldsToExtract, uniqueFields[i]) < FirstIndex(fieldsToExtract, uniqueFields[j])
  {
    uniqueFields := [];
    for i := 0 to |fieldsToExtract|
      invariant uniqueFields == Dedup(fieldsToExtract[..i])
    {
      var field := fieldsToExtract[i];
      assert fieldsToExtract[..i + 1][..i] == fieldsToExtract[..i];
      if field !in uniqueFields {
        uniqueFields := uniqueFields + [field];
      }
    }
    assert fieldsToExtract[..|fieldsToExtract|] == fieldsToExtract;
    DedupProperties(fieldsToExtract);
  }

  /** What the page shows once the script has run. */
  datatype Screen =
    | Idle                  // the button was not pressed
    | UrlMissing            // "Please enter a URL", then st.stop
    | FieldsMissing         // "Please enter at least one field to extract", then st.stop
    | ModelUnsupported      // the scraper stopped the run
    | ScrapeError           // "Error during scraping: ..."
    | NoEntries             // the scraper returned an empty table
    | Entries(count: nat)   // "Successfully extracted <count> entries!", the table and the downloads

  /**
   * One run of `main`. `request` is the URL and field list
   * `scraping_function` was called with, `None` when it was not called.
   */
  method RunMain(pressed: bool, url: string, fieldsToExtract: seq<string>, model: string,
                 scrape: (string, seq<string>, string) -> ScrapeOutcome)
    returns (screen: Screen, request: Option<(string, seq<string>)>)
    ensures request.Some? <==> pressed && url != "" && fieldsToExtract != []
    ensures request.Some? ==> request.value == (url, Dedup(fieldsToExtract))
    ensures !pressed ==> screen == Idle
    ensures pressed && url == "" ==> screen == UrlMissing
    ensures pressed && url != "" && fieldsToExtract == [] ==> screen == FieldsMissing
    ensures screen.Entries? ==> request.Some? && var out := scrape(url, request.value.1, model);
      out.Table? && |out.records| > 0 && screen.count == |out.records|
    ensures request.Some? && scrape(url, request.value.1, model).Table? ==>
      var n := |scrape(url, request.value.1, model).records|; screen == if n > 0 then Entries(n) else NoEntries
    ensures request.Some? && scrape(url, request.value.1, model).ScrapeFailed? ==> screen == ScrapeError
    ensures request.Some? && scrape(url, request.value.1, model).ScrapeStopped? ==> screen == ModelUnsupported
  {
    var uniqueFields := UniqueFields(fieldsToExtract);
    request := None;
    if !pressed {
      return Idle, request;
    }
    if url == "" {
      return UrlMissing, request;
    }
    if uniqueFields == [] {
      return FieldsMissing, request;
    }
    request := Some((url, uniqueFields));
    var out := scrape(url, uniqueFields, model);
    match out
    case ScrapeStopped =>
      screen := ModelUnsupported;
    case ScrapeFailed =>
      screen := ScrapeError;
    case Table(records, _, _, _) =>
      screen := if |records| > 0 then Entries(|records|) else NoEntries;
  }
}

# A verified model of the Universal AI Web Scraper's core

The scraper loads a web page in a headless browser. It decides how to walk
the site: infinite scroll, pagination or a single page. It then sends the
page text, chunk by chunk, to a generative model that returns the requested
fields as JSON records, and adds up records, tokens and cost over the
chunks. A form lets the user type the URL and the fields.

This project models the decision and bookkeeping logic of that pipeline. Each
external collaborator is replaced by the data it would report:

- **The browser** becomes:
  - `answer`: what each pagination XPath selector returned;
  - `heights`: the successive `scrollHeight` readings;
  - `web`: a map from URL to page source, where a URL missing from the map is a load that raises;
  - `landing`: the first page source, `None` when opening the URL raised.
- **The generative model** becomes one `Call` per chunk: an exception, or the token count measured before the call plus a `Completion`. A `Completion` holds the parse of the text (`ParsedList`, `ParsedObject` or `DecodeError`) and its usage counters.
- **Streamlit** becomes plain values. Widgets are their values. `st.stop` is an outcome that ends the run. What the page finally shows is a `Screen`.

The modules follow the source files:

| module | file | contents |
|---|---|---|
| `Collections` | — | `Option`, stepped ranges (`range(0, n, step)`), order-preserving deduplication |
| `Strings` | — | Python's `join`, `split`, `strip`, lower-casing and `in` on strings |
| `Traversal` | scraper.py | `check_pagination`, both `scroll_page` definitions, `fetch_html_selenium` |
| `Extraction` | scraper.py | `format_data_with_genai` (prompt, parse handling, cost) and the chunk loop of `scraping_function` |
| `Interface` | ui.py | the tag deduplication loop and the guards of `main` |
| `Dynamic` | Dynamic.py | prompt building, the scroll schedule, the field-definition map, the start guard |

Costs are kept in integer thousandths. The source's `(in + out) * 0.001` is therefore the integer `in + out`.

scraper.py defines `scroll_page` twice. The second definition (scraper.py:176) replaces the first when the module loads. It always returns `None`, so `is_scrollable` is false and the infinite-scroll branch of `fetch_html_selenium` is never taken. Both routines are modelled:

- `Traversal.ScrollToBottom` is the first definition;
- `Traversal.ScrollThrough` is the second;
- `Traversal.FetchHtml` takes what `scroll_page` returned as a parameter;
- `Traversal.FetchHtmlAsRun` is the fetch as the file actually runs, with the second routine.

Three behaviours of the code are worth stating outright:

- **Empty result.** When no record was extracted, the chunk loop returns an empty table with zero tokens and zero cost (scraper.py:274-276); it raises no error. `Extraction.Aggregated` does the same.
- **Pagination probe.** Because the second `scroll_page` is the one bound to the name, the fetch always probes for pagination after scrolling (`Traversal.FetchHtmlAsRun`).
- **Returned fields.** Nothing checks that the returned records hold only the requested fields. The model does not check it either: records are whatever the parse gave.

## Model

| member | source | states |
|---|---|---|
| `Strings.Contains` | scraper.py:66 | substring search: true exactly when the needle occurs at some offset of the text |
| `Strings.Split` | Dynamic.py:234 | `str.split(c)` gives at least one piece, and no piece contains `c` |
| `Strings.JoinSplit` | Dynamic.py:234 | joining the pieces of a split with the separator gives back the original text |
| `Strings.StripSlice` | scraper.py:206 | `strip()` gives a slice of its input; everything cut from either end is whitespace; the result neither starts nor ends with whitespace |
| `Strings.StripIdempotent` | scraper.py:206 | stripping a stripped name changes nothing |
| `Collections.DedupProperties` | ui.py:50-53 | first-occurrence deduplication has no repeats, keeps exactly the elements of its input, and keeps them in order of first occurrence |
| `Collections.RangeLength` | Dynamic.py:215 | `range(0, n, step)` has `ceil(n / step)` elements when `n > 0`, else none |
| `Collections.RangeFromAt` | scraper.py:184 | the k-th element of a stepped range is `start + k * step`, and it lies below the stop value |
| `Traversal.KeptHrefs` | scraper.py:63-67 | an href is kept exactly when it is present, non-empty and free of `javascript:void(0)` in any letter case |
| `Traversal.CheckPagination` | scraper.py:49-73 | `(found, links)` with `found` exactly when links were returned. The links are those of the first selector, in priority order, that yields one; every earlier selector (raised or all filtered out) yields none. Not found means every selector yields none. Found links are non-empty and have no repeats. They are exactly the hrefs of that selector's elements that are link targets: non-empty and free of the no-op target in any letter case |
| `Traversal.FirstYieldingSelector` | scraper.py:57-72 | the selector loop returns exactly the probe's result over the list it is given, and reports found exactly when it returns links |
| `Traversal.FirstYield` | scraper.py:57-70 | the index of the first selector that yields a link: every earlier selector yields none and that one yields some; the end of the list when none does |
| `Traversal.ProbeFromFirst` | scraper.py:57-72 | the probe returns the links of the first selector that yields any, and `None` when none does |
| `Traversal.SelectorLinksKept` | scraper.py:58-66 | the links one selector yields have no repeats, and they are exactly the hrefs of its elements that are link targets; a query that raised yields none |
| `Traversal.ScrollToBottom` | scraper.py:76-91 | at most `max_scrolls` rounds; every earlier round saw the height change (grow or shrink); the routine stops at the first round after which the height is unchanged; it returns true exactly when some round saw a change, which is exactly when the first round did |
| `Traversal.ScrollLogSettled` | scraper.py:183-198 | when the height first stays unchanged after round s, the commands are rounds 0..s (each the offsets `0, 800, ...` below that round's starting height) followed by a scroll to 0 |
| `Traversal.ScrollLogInterrupted` | scraper.py:178-202 | when a height reading raises before the page settles, the commands are the completed rounds and no scroll back to 0 |
| `Traversal.ScrollRound` | scraper.py:184-185 | one round scrolls to exactly the offsets `0, 800, 1600, ...` below the height it started from, in order |
| `Traversal.ScrollThrough` | scraper.py:176-202 | the second `scroll_page` issues exactly the command sequence `ScrollLog(heights)` |
| `Traversal.FirstLinks` | scraper.py:139 | `links[:10]`: a prefix of the links with at most 10 elements, all of them when there are at most 10 |
| `Traversal.LoadUntilFailure` | scraper.py:139-150 | the pages are the sources of the links in order, up to but excluding the first link that fails to load |
| `Traversal.CapturePages` | scraper.py:139-150 | the pagination loop captures exactly `LoadUntilFailure` of its links |
| `Traversal.FetchHtml` | scraper.py:101-166 | fails exactly when opening the URL fails. Otherwise it succeeds with 1 to 11 pages, the landing page first, and `pages_scraped` equal to the page count. Infinite scroll exactly when scrolling reported true; pagination exactly when it did not and the probe found links; otherwise a single page. Non-pagination runs hold just the landing page. Pagination runs hold the landing page followed by the pages of the first ten links, in the model's link order, up to the first failure. The "No HTML content retrieved" error is unreachable |
| `Traversal.FetchHtmlAsRun` | scraper.py:122-163 | with the second `scroll_page` bound to the name: the scroll commands are `ScrollLog(heights)`, infinite scroll never happens, pagination happens exactly when the probe finds links, and the page contents are as above |
| `Extraction.StrippedFields` | scraper.py:206 | one name per requested field, in order. Each is the slice of its field left once the leading and trailing whitespace is cut off (everything cut is whitespace), and it neither starts nor ends with whitespace |
| `Extraction.ExtractionPrompt` | scraper.py:206-213 | the prompt starts with the system message and ends with the chunk text |
| `Extraction.PromptNamesEachField` | scraper.py:206-208 | each stripped field name stands at its place in the `", "`-separated list after the fields introduction |
| `Extraction.FormatData` | scraper.py:221-238 | a JSON list gives its items; any other decoded value gives a one-element list. A decode error gives no records, cost 0, and the count taken before the call as input tokens. Otherwise input and output are the usage counters and cost = input + output |
| `Extraction.ChunkStep` | scraper.py:258-272 | one more chunk: a call that raised leaves the records and every total unchanged; an answered one appends its records and adds its input tokens, output tokens and cost |
| `Extraction.AggregatedSplit` | scraper.py:257-278 | over two runs of chunks, the records are the first run's followed by the second's, and every total is the sum of the two runs' totals |
| `Extraction.AggregatedSkipsRaised` | scraper.py:271-272 | a chunk whose call raised changes nothing about the result |
| `Extraction.AggregatedAllFruitless` | scraper.py:274-276 | when every chunk raised or failed to decode, the result is the empty table with zero tokens and zero cost, whatever was spent |
| `Extraction.CostCountsDecodedTokens` | scraper.py:234-237 | the cost total never exceeds input plus output tokens, and equals it when no chunk's text failed to decode |
| `Extraction.ScrapeChunks` | scraper.py:249-278 | the chunk loop returns `Aggregated(model, calls)`: an unsupported model stops at the first chunk (scraper.py:215-219); otherwise the in-order records of the non-raising chunks with their sums, or the empty table and zeros when there are no records |
| `Extraction.ScrapingFunction` | scraper.py:240-278 | a failed fetch propagates as an error; otherwise the result is the chunk loop's |
| `Interface.UniqueFields` | ui.py:50-53 | the deduplicated tags: no repeats, the same elements as the input, in order of first occurrence |
| `Interface.RunMain` | ui.py:57-122 | `scraping_function` is called, with the URL and the deduplicated fields, exactly when the button was pressed, the URL is non-empty and some field was given. An empty URL or field list ends on its error screen first. The success screen shows n entries only for a table of n > 0 records, and every table of n > 0 records shows it; an empty table shows the no-entries screen. A scrape that raised shows the scraping error (ui.py:121-122), and a run the scraper stopped shows the unsupported-model screen |
| `Dynamic.Prompt` | Dynamic.py:171 | the prompt starts with the system message and ends with the page text |
| `Dynamic.PromptNamesEachField` | Dynamic.py:170-171 | with fields given, each field stands at its place in the `", "`-join after `" focusing on the following fields: "` |
| `Dynamic.PromptWithoutFields` | Dynamic.py:170-171 | with no fields (None or empty), `"all fields"` stands where the field list would be |
| `Dynamic.ScrollPage` | Dynamic.py:206-218 | the commands are the offsets `0, 500, 1000, ...` below the page height, `ceil(height / 500)` of them (none when the height is not positive), then a final scroll to 0 |
| `Dynamic.FieldDefinitionsCover` | Dynamic.py:99 | the field map's keys are exactly the requested names; each maps to a required `str`; there are as many as the distinct names |
| `Dynamic.StartGuardIsUrlOnly` | Dynamic.py:234-237 | since splitting always gives a non-empty list, the start guard holds exactly when the URL is non-empty |
| `Dynamic.FormFieldsNeverAllFields` | Dynamic.py:170 | fields from the form always reach the prompt as their `", "`-join, never as "all fields"; an empty text area gives an empty field list |
| `Dynamic.FieldsFromTextRoundTrip` | Dynamic.py:234 | the form's fields joined with commas give back the typed text |

## Left out

- Browser I/O is not modelled: driver construction, options, the random user agent, navigation, waits, `time.sleep`, timeouts and `driver.quit`. The model works on the values the browser reports.
- `USER_AGENTS` is used at scraper.py:97 but not defined in scraper.py. Unless the star import of Markdowncnvrtr (scraper.py:22) provides it, `fetch_html_selenium` raises before opening a browser. The model assumes the browser opens and treats any failure to reach the landing page as `landing == None`.
- Dynamic.py:22-23 write Windows paths in ordinary string literals. There `\U` starts an eight-hex-digit escape, so the file does not compile under Python 3 and none of its functions runs as written. The `Dynamic` module models its functions as if the file loaded.
- The generative model calls (`GenerativeModel`, `count_tokens`, `generate_content`) and `json.loads` are only modelled by their outcomes.
- `Extraction.FormatData`: treats the `count_tokens` result as a number. The library returns a response object, and on a decode error scraper.py:235 passes that object on as the input token count. Adding it to a total would raise, and the chunk would then be skipped.
- `Extraction.FormatData`: models a decoded non-list value as one record. JSON scalars (a string or a number) that the source would also wrap are not distinguished.
- Streamlit is not modelled: widgets, spinners, progress bars, messages, markdown and session state (ui.py:54). The start-up code that seeds the session state (ui.py:124-125) and `create_listings_container_model` (Dynamic.py:102-112, Pydantic reflection) are left out too.
- The pandas DataFrame, and the CSV, Excel, Markdown and JSON downloads (ui.py:83-117), are library formatting.
- The chunker and the HTML-to-Markdown converter live in `Markdowncnvrtr`. Markdowncnvrtr is not part of this model, so each chunk appears only as the outcome of its call. `html2text` in Dynamic.py:115-127 is also foreign code.
- File saving and directory creation in Dynamic.py (lines 22-27 and 130-153) are filesystem I/O.
- `perform_scrape`, `fetch_html_selenium` and `display_results_in_streamlit` in Dynamic.py are sequences of the I/O steps above. The pure parts they call are modelled: the prompt, `scroll_page` and the field map.
- Floating point is not modelled: the cost is in integer thousandths, and the scroll progress fraction (scraper.py:186) is left out.
- `Traversal.SelectorLinks`: the source collects the links in a `set`, whose order Python leaves open. The model fixes one order, that of first occurrence.
- `Traversal.FetchHtml` and `Traversal.FetchHtmlAsRun`: the pages captured on the pagination branch are stated for the links in that fixed order. Python's set order may differ. With more than ten links, the order decides which ten are visited, and it decides where the first failed load stops the loop. For example, with hrefs `a, b` where `a` fails to load and `b` loads, the model captures only the landing page, while an interpreter that iterates `b` first also captures `b`. For other orders the model states nothing about which pages are captured. `Traversal.CheckPagination` likewise returns the links in that one order.
- `Traversal.IsLinkTarget`: lower-cases ASCII letters only. For the needle `javascript:void(0)` this decides the same as full Unicode lower-casing. The only non-ASCII characters whose lower case holds an ASCII letter are the Kelvin sign (to `k`, which the needle lacks) and U+0130 (to `i` followed by a combining dot, which cannot continue the needle).
- `Traversal.ScrollThrough`: a page whose height never settles makes the second `scroll_page` loop forever. The model's finite `heights` cannot express that, so such runs end when the readings run out. Exceptions raised by a scroll command, rather than by a height reading, are not modelled.
- `Traversal.ScrollToBottom`: requires enough readings for every round. Exceptions from the driver inside it propagate in the source and are not modelled.
- `Extraction.Aggregated`: an unsupported model is modelled as the run stopping at the first chunk, because `st.stop` is not caught by the chunk loop's `except Exception`.

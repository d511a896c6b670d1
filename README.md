# Job scraper pipeline — a Dafny model

This project models the deterministic data pipeline of a job-offer scraper. The pipeline has four stages:
- A browser extracts job cards from a search page.
- Each card is validated into a `JobPosting` and collected.
- A career-advisor language model is asked about each posting, and the answers are cleaned.
- The results are written out, and the CSV output is converted to JSON with its quotes cleaned.

The browser, the language model and URL validation are outside the model. Each appears as a function-typed parameter:

| Python | Dafny parameter |
|---|---|
| a Selenium job card | `Scraper.Card = string -> Option<Element>`, a CSS-selector lookup that may find nothing |
| pydantic `HttpUrl` validation | `validUrl: string -> bool` |
| `str()` of a validated URL | `render: Url -> string` |
| `agent.run_sync` | `advise: string -> Result<AgentResult, AgentError>` |

Modules, one per source file plus three shared ones:

| module | file | models |
|---|---|---|
| `Wrappers` | wrappers.dfy | `Option` and `Result` |
| `Batch` | batch.dfy | The per-item loop shape shared by all four loops. Each item is tried; a success is appended and a failure is logged, and the loop goes on. `Successes`/`Failures` are its specification; the lemmas are about order, membership and counts. |
| `Strings` | strings.dfy | Python's `str.strip(c)` (all layers) and `str.replace('\\"', '"')` (left-to-right, non-overlapping). It also holds three specification helpers that the pipeline does not call. `EscapeQuotes` is the escaping that the `replace` undoes. `JoinLines` and its inverse `SplitLines` describe the prompt's five-line layout and read it back. |
| `Schemas` | schemas.dfy | src/schemas.py: `JobPosting(**fields)`, `JobSearchInput(...)`, `build_url` |
| `Scraper` | scraper.dfy | main.py: `extract_job_details` and the collect loop of `main` |
| `Agent` | agent.dfy | src/AgentGEMINI.py: `fetch_job_data`, `format_job_posting`, the `run_agent_processing` loop with its quote cleanup, and `csv_to_json` |
| `LegacyAgent` | legacy_agent.dfy | AgentGEMINI.py: the older `run_agent_processing` loop |

The root AgentGEMINI.py has its own `fetch_job_data`, `format_job_posting` and `csv_to_json`, but they are the same code as in src/AgentGEMINI.py. They are defined once, in `Agent`, and `LegacyAgent` uses them.

Each loop is an imperative `method` whose invariant ties its state to a specification function:
- The four per-item loops tie their accumulators to `Batch.Successes`/`Batch.Failures` over the prefix already processed. They are `Scraper.CollectPostings`, `Agent.FetchJobData`, `Agent.EnrichAll` and `LegacyAgent.EnrichAllRaw`.
- `Agent.CleanRowInPlace` overwrites a row key by key. Its invariant says that the keys already visited hold their `Agent.CleanValue` and the other keys still hold their input values.
- `Agent.CsvToJson` cleans the rows one by one. Its invariant says that each row already processed equals `Agent.CleanRow` of the input row at the same index.

Behaviour the code has, stated as written:
- No field is required to be non-empty. An empty title, which the extractor produces when the title element is missing, is a valid posting. An empty job or location is a valid search input.
- `build_url` inserts both values verbatim, with no percent-encoding. `Schemas.BuildUrlCollision` shows two different inputs that give the same URL. `Schemas.BuildUrlInjective` shows the URL determines the input when neither job term contains `&`.
- `strip('"')` removes every leading and trailing quote, not one layer. So a quoted, escaped advice text comes back intact only when it does not end with a quote (`Agent.CleanAdviceUnquotes`). When it does end with a quote, that quote is lost and a stray backslash is left behind (`Agent.CleanAdviceDropsTrailingEscapedQuote`).
- A CSV cell for `job_link` that holds the empty string is validated as a URL, not read as absent. `csv.DictReader` yields `""` for an empty cell, so such a row is rejected whenever `""` is not a valid URL.
- src/AgentGEMINI.py and AgentGEMINI.py both import `AgentResult` from src/schemas.py, which does not define it. The model gives `AgentResult` its two fields, `RecommendedCertifications` and `RoadMap`, as `Agent.AgentResult`.

## Model

| member | source | states |
|---|---|---|
| Schemas.RequiredStr | src/schemas.py:6 | A `str` field with no default (also `job` and `location` at src/schemas.py:13-14) is accepted iff it is given as a string, and then carries that string. Otherwise the error names that field as missing or not a string, never as an invalid URL. |
| Schemas.OptionalStr | src/schemas.py:7-9 | An `Optional[str] = None` field is present iff it is given as a string, and then holds that string. A missing or `None` argument gives `None`. |
| Schemas.OptionalUrl | src/schemas.py:10 | An `Optional[HttpUrl] = None` field fails iff it is given as a string that is not a valid URL, and the error names the field and that input. Otherwise the link is present iff a string was given, and then it is built from that valid string. |
| Schemas.MakeJobPosting | src/schemas.py:5-10 | Construction fails iff `title` is missing or `None`, or `job_link` is given as a string that is not a valid URL. The error list is non-empty and names only those fields. On success the title is the given string, each optional text is the given string or `None`, and the link is present iff a string was given, is valid, and is that string. |
| Schemas.AbsentFieldsDefaultToNone | src/schemas.py:7-10 | With only a title given, company, location, summary and job_link are all `None`. |
| Schemas.EmptyTitleIsAccepted | src/schemas.py:6 | An empty-string title (and no link) is a valid posting whose title is `""`. |
| Schemas.MakeJobSearchInput | src/schemas.py:12-14 | Succeeds iff both `job` and `location` are given as strings, with exactly those values; emptiness is not checked. |
| Schemas.BuildUrl | src/schemas.py:16-20 | The URL is `https://www.indeed.com/jobs?q=`, then the job term verbatim, then `&l=`, then the location verbatim; its length is 33 plus the lengths of the job term and the location. |
| Schemas.BuildUrlExample | src/schemas.py:19 | Job `data engineer` and location `Paris` give `https://www.indeed.com/jobs?q=data engineer&l=Paris`: the space is not encoded. |
| Schemas.BuildUrlCollision | src/schemas.py:19 | Two different inputs, ("a&l=b", "c") and ("a", "b&l=c"), build the same URL, because nothing is escaped. |
| Schemas.BuildUrlInjective | src/schemas.py:18-20 | If neither job term contains `&`, equal URLs come from equal search inputs. |
| Scraper.TextOrEmpty | main.py:28-46 | A guarded text lookup gives the found element's text, or `""` when nothing is found. |
| Scraper.FieldFromLookup | main.py:28-51 | A text field is always a string: the found text, or `""` when nothing is found. The link is the found `href` when there is one, and `None` otherwise. |
| Scraper.ExtractJobDetails | main.py:26-59 | It never fails and always yields exactly the keys title, company, location, summary and job_link. Each key's value is determined by its own selector's lookup alone: the found text, `""` when nothing is found, and for the link the found `href` or `None`. |
| Scraper.EmptyCardDetails | main.py:28-51 | A card on which every lookup finds nothing gives four empty strings and a `None` link. |
| Scraper.LookupsAreIsolated | main.py:28-51 | Two cards whose lookups agree on one field's selector give that field the same value, whatever the other lookups find. |
| Scraper.CollectOne | main.py:98-100 | An extracted card can be rejected only for its link. The error list is then non-empty, and every error is an invalid-URL error for `job_link`. |
| Scraper.ExtractedCardValidation | main.py:98-100 | An extracted card is rejected iff its link lookup found an `href` that is not a valid URL. A kept card's posting has the found texts (or `""`) and a link iff an `href` was found. |
| Scraper.CollectPostings | main.py:96-103 | The loop's collected postings and logged errors are the successes and failures of extract-then-validate over the cards, in card order. |
| Scraper.CollectedAreValidCardsInOrder | main.py:96-103 | The collected postings are, in increasing card order, exactly the postings of the cards that validate: card j is kept iff it validates, and the k-th posting is that of the k-th kept card. |
| Scraper.CollectedPlusRejectedIsAllCards | main.py:97-103 | Every card is collected or logged, never both: collected plus logged equals the number of cards. |
| Agent.FetchOne | src/AgentGEMINI.py:28-32 | One row gives the posting iff it validates. A failing row is logged as that row itself together with pydantic's errors. |
| Agent.Fetched | src/AgentGEMINI.py:21-35 | A missing file yields no postings; otherwise at most one posting per row. |
| Agent.FetchJobData | src/AgentGEMINI.py:21-35 | The returned postings are the rows that validate, in order. The skipped log holds the failing rows with their errors. A missing file yields no postings and no log. |
| Agent.FetchedAreValidRowsInOrder | src/AgentGEMINI.py:23-32 | Row j is fetched iff it validates as a `JobPosting`, the k-th posting is the k-th valid row's, order is kept, and fetched plus skipped equals the number of rows. |
| Agent.Show | src/AgentGEMINI.py:42-44 | An f-string renders a present text as itself and an absent one as `None`. |
| Agent.ShowLink | src/AgentGEMINI.py:45 | A present link renders as its `str()`, an absent one as `None`. |
| Agent.PromptLines | src/AgentGEMINI.py:40-46 | The prompt has exactly five lines. |
| Agent.PromptLinesLabelled | src/AgentGEMINI.py:40-46 | The five lines are, in order, `Job Title: `, `Company: `, `Location: `, `Summary: ` and `Job Link: `, each followed by the rendering of its field. |
| Agent.FormatJobPosting | src/AgentGEMINI.py:38-46 | The prompt is the five labelled lines (title, company, location, summary, link, in that order) joined by single newlines, with no trailing newline. |
| Agent.FormatJobPostingLines | src/AgentGEMINI.py:40-46 | When no field contains a newline, the prompt splits back into exactly its five labelled lines. |
| Agent.FormatAbsentFields | src/AgentGEMINI.py:42-45 | Each absent company, location, summary or link is rendered as `None` on its own line, whatever the other fields hold. |
| Agent.FormatTitleOnlyPosting | src/AgentGEMINI.py:40-46 | A posting with only a (newline-free) title reads back as its title line and four lines ending in `None`. |
| Agent.CleanAdvice | src/AgentGEMINI.py:92-93 | The cleaned text is never longer than the reply and never ends with `"`. A reply without `"` is returned unchanged. |
| Agent.CleanAdviceUnquotes | src/AgentGEMINI.py:92-93 | Quoting and backslash-escaping a text that does not end with `"` is undone exactly by the cleanup. |
| Agent.CleanAdviceDropsTrailingEscapedQuote | src/AgentGEMINI.py:92-93 | For a text ending in `"`, the quoted and escaped form cleans to the text minus that quote, plus a backslash. |
| Agent.LinkText | src/AgentGEMINI.py:97 | The stored link is present iff the posting has one, and then it is that link's `str()`. |
| Agent.EnrichOne | src/AgentGEMINI.py:87-105 | The `try` body for one posting succeeds iff the advisor succeeds on the posting's prompt, and a failure carries the posting's title. `Agent.EnrichOneOutcome` gives the full result. |
| Agent.EnrichOneOutcome | src/AgentGEMINI.py:87-105 | One posting succeeds iff the advisor succeeds on its prompt; a failure is logged with the posting's title and the advisor's error. A success carries the posting's four text fields, its link as text, and both reply texts cleaned. |
| Agent.EnrichAll | src/AgentGEMINI.py:86-105 | The results and the failure log are the successes and failures of format-ask-clean over the postings, in order. |
| Agent.RunAgentProcessing | src/AgentGEMINI.py:80-105 | The results and failures are those of the enrichment loop applied to exactly the postings `fetch_job_data` returns. The rows that `fetch_job_data` skipped are returned too: none for a missing file, otherwise its failing rows. |
| Agent.EnrichedAreSucceededPostingsInOrder | src/AgentGEMINI.py:86-105 | Posting j yields a result iff the advisor succeeds on its prompt, order is kept, and the k-th result carries the k-th kept posting's fields, its link as text (or `None`), and both cleaned reply texts. |
| Agent.OneAdvisorFailure | src/AgentGEMINI.py:86-105 | If the advisor fails on exactly one posting, all other postings yield results, and the log holds only that posting's title and error. |
| Agent.CleanValue | src/AgentGEMINI.py:124-125 | `None` stays `None`. A string stays a string, no longer, with no `"` at either end. A value that neither starts nor ends with `"` is unchanged. |
| Agent.CleanRow | src/AgentGEMINI.py:122-125 | A row keeps its keys, and each value is cleaned. |
| Agent.CleanRows | src/AgentGEMINI.py:116-126 | The cleanup keeps the row count and the row order, and each row is cleaned. |
| Agent.CleanRowInPlace | src/AgentGEMINI.py:122-125 | Overwriting each key once in place gives exactly the cleaned row. |
| Agent.CsvToJson | src/AgentGEMINI.py:116-126 | The dumped rows are exactly the cleaned rows: the input's count, order and keys, with every value cleaned. So `Agent.CleanRowsIdempotent` applies to the method's output. |
| Agent.CleanValueIdempotent | src/AgentGEMINI.py:124-125 | Cleaning a value twice is cleaning it once. |
| Agent.CleanRowsIdempotent | src/AgentGEMINI.py:116-126 | Applying the row cleanup to its own output changes nothing. |
| LegacyAgent.EnrichOneRaw | AgentGEMINI.py:64-78 | The older `try` body succeeds iff the advisor succeeds on the posting's prompt, and a failure carries the posting's title. `LegacyAgent.EnrichOneRawOutcome` gives the full result. |
| LegacyAgent.EnrichOneRawOutcome | AgentGEMINI.py:64-78 | One posting succeeds iff the advisor succeeds on its prompt; a failure is logged by title. A success carries the posting's fields, its link unconverted, and the reply's texts verbatim. |
| LegacyAgent.EnrichAllRaw | AgentGEMINI.py:62-78 | The results and failure log are the successes and failures of format-ask-store over the postings, in order. |
| LegacyAgent.RunAgentProcessing | AgentGEMINI.py:59-78 | The older script's results and failures are those of its loop applied to exactly the fetched postings. The skipped rows are returned as in the newer script. |
| LegacyAgent.RawResultsAreSucceededPostingsInOrder | AgentGEMINI.py:68-76 | Posting j yields a result iff the advisor succeeds, order is kept, and each result has the posting's fields, its unconverted link, and the reply's two texts verbatim. |
| LegacyAgent.Cleaned | src/AgentGEMINI.py:92-103 | The newer script's extra step keeps the four text fields and whether a link is present. It never lengthens the advice texts, and leaves unchanged an advice text without `"`. |
| LegacyAgent.NewerResultsAreCleanedOlderResults | src/AgentGEMINI.py:92-103 | Given the same advisor replies, both scripts keep the same postings; each newer result is the older one with the link turned into text and both advice texts cleaned. |
| Batch.Successes | main.py:96-103 | Specifies every per-item loop's result list: the success values, in input order; never more than one per item. |
| Batch.Failures | main.py:96-103 | Specifies every per-item loop's log: the errors, in input order; never more than one per item. |
| Batch.SuccessesAndFailuresPartition | main.py:97-103 | Every item of a per-item loop ends up in exactly one of the two accumulators. |
| Batch.SuccessIndicesExactlyOk | main.py:97-103 | Item j is kept iff its step succeeds. |
| Batch.SuccessIndicesIncrease | main.py:97-103 | Kept items appear in their input order. |
| Batch.SuccessesAtIndices | main.py:97-103 | The k-th collected value is the success value of the k-th kept item. |
| Batch.BatchAppend | src/AgentGEMINI.py:86-105 | Processing a concatenation is processing each part and concatenating the accumulators. |
| Batch.FailureOnlyDropsItself | src/AgentGEMINI.py:104-105 | A failing item removes only itself from the results; the items around it are processed as if it were absent. |
| Batch.AllSucceed | src/AgentGEMINI.py:86-105 | When every step succeeds, there is one result per item and no failure. |
| Batch.ExactlyOneFailure | src/AgentGEMINI.py:86-105 | When exactly one item fails, every other item yields a result, and the log is that item's error alone. |
| Batch.SuccessesMapped | AgentGEMINI.py:63-78 | Two loops whose steps succeed on the same items, one result a function of the other's, give results related by that function item by item. |
| Strings.LStrip | src/AgentGEMINI.py:92 | `lstrip(c)` returns a suffix; everything it removed is `c`, and the result does not start with `c`. |
| Strings.RStrip | src/AgentGEMINI.py:92 | `rstrip(c)` returns a prefix; everything it removed is `c`, and the result does not end with `c`. |
| Strings.Strip | src/AgentGEMINI.py:92 | `strip(c)` is never longer, and the result neither starts nor ends with `c`. |
| Strings.StripKeepsMiddleSlice | src/AgentGEMINI.py:92 | What `strip(c)` keeps is a contiguous slice of the input. |
| Strings.StripRemovesOnlyEnclosing | src/AgentGEMINI.py:92 | Everything `strip(c)` removes before and after that slice is `c`. |
| Strings.StripUnchanged | src/AgentGEMINI.py:125 | A string that neither starts nor ends with `c` is left as it is. |
| Strings.StripIdempotent | src/AgentGEMINI.py:125 | Stripping twice is stripping once. |
| Strings.LStripRun | src/AgentGEMINI.py:92 | Any run of `c` in front of a text that does not start with `c` is removed, and nothing more. |
| Strings.RStripRun | src/AgentGEMINI.py:92 | Any run of `c` after a text that does not end with `c` is removed, and nothing more. |
| Strings.StripLayers | src/AgentGEMINI.py:92 | Any number of enclosing `c` layers is removed at once. |
| Strings.UnescapeQuotes | src/AgentGEMINI.py:92 | Replacing backslash-quote pairs never lengthens the text. |
| Strings.UnescapeWithoutQuote | src/AgentGEMINI.py:92 | Without a `"` in the text, the replacement changes nothing. |
| Strings.UnescapeKeepsLast | src/AgentGEMINI.py:92 | A final character that is not `"` is still the final character after the replacement. |
| Strings.EscapeQuotes | src/AgentGEMINI.py:92 | The specification helper for the escaping the replacement undoes. It never shortens the text, never starts with `"`, and keeps a final character that is not `"`. |
| Strings.UnescapeEscapeAppend | src/AgentGEMINI.py:92 | Unescaping an escaped text followed by a tail that does not start with `"` gives the text back, then the unescaped tail. |
| Strings.UnescapeEscapeRoundTrip | src/AgentGEMINI.py:92 | Escaping then unescaping is the identity. |
| Strings.EscapeQuotesAppend | src/AgentGEMINI.py:92 | Escaping distributes over concatenation. |
| Strings.JoinLines | src/AgentGEMINI.py:40-46 | A specification helper describing the prompt's layout: newline-joining starts with the first line. |
| Strings.JoinFiveLines | src/AgentGEMINI.py:40-46 | The five-line concatenation of the prompt template is the newline-join of its five lines. |
| Strings.SplitLines | src/AgentGEMINI.py:40-46 | A specification helper, the inverse used to read the prompt back: splitting at newlines gives at least one part, and no part contains a newline. |
| Strings.SplitLinesPrefix | src/AgentGEMINI.py:40-46 | A newline-free piece in front of any text is prepended to the first part of that text's split; the other parts are unchanged. |
| Strings.SplitJoinLines | src/AgentGEMINI.py:40-46 | Splitting the newline-join of newline-free lines gives the lines back. |

## Left out

- The browser: `initialize_driver`, `scrape_job_cards`, `time.sleep`, `driver.get` and `driver.quit` are browser I/O. A card is an abstract selector lookup.
- Gemini agent construction, `load_dotenv`, the API key and `agent.run_sync` are a foreign network service. The call is the parameter `advise`, whose error stands for any exception the `try` catches.
- `advise` is a fixed function of the prompt, so the model's advisor answers the same prompt the same way every time. The real `agent.run_sync` can time out, hit a quota or answer differently on each call. Neither the collect loop nor `fetch_job_data` removes duplicates, and two identical postings build the same prompt. So failures that depend on the call are covered only for postings whose prompts are distinct. `Agent.OneAdvisorFailure` cannot apply when the failing posting has a duplicate. The "iff the advisor succeeds on its prompt" of `Agent.EnrichedAreSucceededPostingsInOrder` and `LegacyAgent.RawResultsAreSucceededPostingsInOrder` is per prompt, not per call.
- Pydantic `HttpUrl` parsing and normalisation are a library's rules. Validity is the parameter `validUrl` and `str()` is the parameter `render`. A validated link keeps its source text in `Schemas.Url`, and no round-trip through `str()` is claimed.
- Non-string inputs are left out. Pydantic v2 rejects a non-string (an integer, say) given for a `str` field; no such input reaches these constructors here, since every value comes from a card or a CSV cell, or is `None`.
- `csv.DictReader`/`csv.DictWriter` quoting and `json.dump` formatting are library serialisers. A CSV is a sequence of rows of type `map<string, Value>`. `save_to_csv`, `save_results_to_csv`, `save_combined_results` and the final `print` are file output and are not modelled.
- Agent.FetchJobData: rows with more cells than the header are left out, and for them per-row isolation does not hold. `DictReader` stores the extra cells as a list under the key `None`, and `JobPosting(**row)` then raises `TypeError` because a keyword is not a string. Neither `except ValidationError` nor `except FileNotFoundError` catches that, so the whole fetch aborts. The model's rows hold only string keys with strings or `None`; a short row's missing cells are `None`.
- The wall-clock timestamp of `save_combined_results` and the `input_params` argument only feed the JSON file write, which is not modelled.
- The interactive `input()` calls and their `.strip()` are left out. `Schemas.MakeJobSearchInput` takes the already-stripped fields.
- The per-item `print` diagnostics are returned logs instead of printed text. `Scraper.CollectPostings` returns `errors` for main.py:103, `Agent.FetchJobData` returns `skipped` for src/AgentGEMINI.py:32, and `Agent.EnrichAll` and `LegacyAgent.EnrichAllRaw` return `failures` for src/AgentGEMINI.py:105 and AgentGEMINI.py:78.
- The missing-file message (src/AgentGEMINI.py:34) goes into no log. A missing file shows only as `Agent.InputFile.FileNotFound`, with `skipped == []`. The completion messages are not modelled either.
- Agent.CsvToJson: the source's missing-file exception and the JSON file write are I/O and are not modelled. The operation takes the rows already read.
- LegacyAgent.RunAgentProcessing: the older script's closing `csv_to_json` call re-reads the CSV file it has just written. That round-trip goes through the CSV serialiser, so it is not modelled; the cleanup itself is `Agent.CsvToJson`.
- Agent.FormatJobPosting: `str()` of a validated URL is the parameter `render`, so the link line's exact text is only as specific as that parameter.
- Python object identity is not modelled: `csv_to_json` mutates a row dict that is then appended, and the model treats rows as values (`Agent.CleanRowInPlace` returns the updated row).

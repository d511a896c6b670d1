/**
 * The enrichment pipeline (src/AgentGEMINI.py): reading postings from the
 * CSV rows, formatting each into the advisor's prompt, calling the advisor
 * once per posting with failures isolated, cleaning the two advice texts,
 * and the quote cleanup of `csv_to_json`.
 *
 * The advisor (`agent.run_sync`) is a parameter `advise`; `str()` of a
 * validated URL is a parameter `render`; URL validity is `validUrl`.
 */
module Agent {
  import opened Wrappers
  import opened Schemas
  import opened Batch
  import opened Strings

  /** The input CSV as `csv.DictReader` yields it, or a missing file. */
  datatype InputFile = FileNotFound | CsvRows(rows: seq<Fields>)

  /** A row that did not validate, with the errors pydantic reported. */
  datatype RowError = RowError(row: Fields, errors: seq<FieldError>)

  /** The advisor's structured reply. */
  datatype AgentResult = AgentResult(recommendedCertifications: string, roadMap: string)

  /** Whatever the advisor call raised. */
  datatype AgentError = AgentError(message: string)

  /** A posting the advisor failed on, logged by its title. */
  datatype ProcessingError = ProcessingError(title: string, error: AgentError)

  /**
   * One entry of `results`: the five posting fields, the link in whatever
   * form the variant stores it (`L`), and the two advice texts.
   */
  datatype EnrichedResult<L> = EnrichedResult(
    title: string,
    company: Option<string>,
    location: Option<string>,
    summary: Option<string>,
    jobLink: Option<L>,
    recommendedCertifications: string,
    roadMap: string)

  // ---------------------------------------------------------------- fetch_job_data

  /**
   * The `try` body for one row: the posting if the row validates, otherwise
   * the row itself with pydantic's errors, as the diagnostic prints them.
   */
  function FetchOne(row: Fields, validUrl: string -> bool): (r: Result<JobPosting, RowError>)
    ensures r.Ok? <==> MakeJobPosting(row, validUrl).Ok?
    ensures r.Ok? ==> r.value == MakeJobPosting(row, validUrl).value
    ensures r.Err? ==> r.error.row == row && r.error.errors == MakeJobPosting(row, validUrl).error
  {
    match MakeJobPosting(row, validUrl)
    case Ok(job) => Ok(job)
    case Err(errors) => Err(RowError(row, errors))
  }

  function FetchStep(validUrl: string -> bool): Fields -> Result<JobPosting, RowError>
  {
    (row: Fields) => FetchOne(row, validUrl)
  }

  /** The postings `fetch_job_data` returns: none for a missing file. */
  function Fetched(input: InputFile, validUrl: string -> bool): (jobs: seq<JobPosting>)
    ensures input.FileNotFound? ==> jobs == []
    ensures input.CsvRows? ==> |jobs| <= |input.rows|
  {
    match input
    case FileNotFound => []
    case CsvRows(rows) => Successes(rows, FetchStep(validUrl))
  }

  /**
   * `fetch_job_data`: each row is validated as a `JobPosting`; a valid one is
   * appended, an invalid one is logged and skipped. A missing file yields no
   * postings and no failure.
   */
  method FetchJobData(input: InputFile, validUrl: string -> bool)
    returns (jobPostings: seq<JobPosting>, skipped: seq<RowError>)
    ensures jobPostings == Fetched(input, validUrl)
    ensures input.FileNotFound? ==> skipped == []
    ensures input.CsvRows? ==> skipped == Failures(input.rows, FetchStep(validUrl))
  {
    jobPostings, skipped := [], [];
    if input.CsvRows? {
      var rows := input.rows;
      for i := 0 to |rows|
        invariant jobPostings == Successes(rows[..i], FetchStep(validUrl))
        invariant skipped == Failures(rows[..i], FetchStep(validUrl))
      {
        match MakeJobPosting(rows[i], validUrl) {
          case Ok(job) => jobPostings := jobPostings + [job];
          case Err(e) => skipped := skipped + [RowError(rows[i], e)];
        }
        PrefixStep(rows, i, FetchStep(validUrl));
      }
      assert rows[..|rows|] == rows;
    }
  }

  /**
   * The fetched postings are, in row order, exactly the rows that validate
   * as `JobPosting`; the skipped log holds the others, with their rows.
   */
  lemma FetchedAreValidRowsInOrder(rows: seq<Fields>, validUrl: string -> bool)
    ensures var kept := SuccessIndices(rows, FetchStep(validUrl));
            var jobs := Fetched(CsvRows(rows), validUrl);
            && |kept| == |jobs|
            && (forall k :: 0 <= k < |kept| ==>
                  kept[k] < |rows| && MakeJobPosting(rows[kept[k]], validUrl) == Ok(jobs[k]))
            && (forall k, l :: 0 <= k < l < |kept| ==> kept[k] < kept[l])
            && (forall j :: 0 <= j < |rows| ==> (j in kept <==> MakeJobPosting(rows[j], validUrl).Ok?))
    ensures |Fetched(CsvRows(rows), validUrl)| + |Failures(rows, FetchStep(validUrl))| == |rows|
  {
    var step := FetchStep(validUrl);
    SuccessesAtIndices(rows, step);
    SuccessIndicesIncrease(rows, step);
    SuccessIndicesExactlyOk(rows, step);
    SuccessesAndFailuresPartition(rows, step);
  }

  // ---------------------------------------------------------------- format_job_posting

  /** Python's f-string rendering of an optional text: `None` prints as `None`. */
  function Show(field: Option<string>): (shown: string)
    ensures field.Some? ==> shown == field.value
    ensures field.None? ==> shown == "None"
  {
    match field
    case Some(s) => s
    case None => "None"
  }

  /** The same for the link, whose `str()` is `render`. */
  function ShowLink(link: Option<Url>, render: Url -> string): (shown: string)
    ensures link.Some? ==> shown == render(link.value)
    ensures link.None? ==> shown == "None"
  {
    match link
    case Some(url) => render(url)
    case None => "None"
  }

  /** The five lines of the prompt, in the fixed field order. */
  function PromptLines(job: JobPosting, render: Url -> string): (lines: seq<string>)
    ensures |lines| == 5
  {
    [ "Job Title: " + job.title,
      "Company: " + Show(job.company),
      "Location: " + Show(job.location),
      "Summary: " + Show(job.summary),
      "Job Link: " + ShowLink(job.jobLink, render) ]
  }

  /** Each prompt line is its label followed by the rendering of its field. */
  lemma PromptLinesLabelled(job: JobPosting, render: Url -> string)
    ensures var lines := PromptLines(job, render);
            && |lines[0]| == 11 + |job.title| && lines[0][..11] == "Job Title: " && lines[0][11..] == job.title
            && |lines[1]| == 9 + |Show(job.company)| && lines[1][..9] == "Company: " && lines[1][9..] == Show(job.company)
            && |lines[2]| == 10 + |Show(job.location)| && lines[2][..10] == "Location: "
            && lines[2][10..] == Show(job.location)
            && |lines[3]| == 9 + |Show(job.summary)| && lines[3][..9] == "Summary: " && lines[3][9..] == Show(job.summary)
            && |lines[4]| == 10 + |ShowLink(job.jobLink, render)| && lines[4][..10] == "Job Link: "
            && lines[4][10..] == ShowLink(job.jobLink, render)
  {
  }

  /** `format_job_posting`: the five labelled lines joined by newlines, with no trailing newline. */
  function FormatJobPosting(job: JobPosting, render: Url -> string): (prompt: string)
    ensures prompt == JoinLines(PromptLines(job, render))
  {
    var lines := PromptLines(job, render);
    JoinFiveLines(lines[0], lines[1], lines[2], lines[3], lines[4]);
    assert lines == [lines[0], lines[1], lines[2], lines[3], lines[4]];
    lines[0] + "\n" + lines[1] + "\n" + lines[2] + "\n" + lines[3] + "\n" + lines[4]
  }

  /** When no field contains a newline, the prompt splits back into exactly its five lines. */
  lemma FormatJobPostingLines(job: JobPosting, render: Url -> string)
    requires '\n' !in job.title
    requires '\n' !in Show(job.company) && '\n' !in Show(job.location) && '\n' !in Show(job.summary)
    requires '\n' !in ShowLink(job.jobLink, render)
    ensures SplitLines(FormatJobPosting(job, render)) == PromptLines(job, render)
  {
    var lines := PromptLines(job, render);
    forall k | 0 <= k < |lines| ensures '\n' !in lines[k] {
      assert '\n' !in "Job Title: " && '\n' !in "Company: " && '\n' !in "Location: ";
      assert '\n' !in "Summary: " && '\n' !in "Job Link: ";
    }
    SplitJoinLines(lines);
  }

  /** Each absent optional field is rendered as `None` on its own line, whatever the other fields hold. */
  lemma FormatAbsentFields(job: JobPosting, render: Url -> string)
    ensures job.company.None? ==> PromptLines(job, render)[1] == "Company: None"
    ensures job.location.None? ==> PromptLines(job, render)[2] == "Location: None"
    ensures job.summary.None? ==> PromptLines(job, render)[3] == "Summary: None"
    ensures job.jobLink.None? ==> PromptLines(job, render)[4] == "Job Link: None"
  {
  }

  /** A posting with only a title renders as its title line and four `None` lines. */
  lemma FormatTitleOnlyPosting(title: string, render: Url -> string)
    requires '\n' !in title
    ensures SplitLines(FormatJobPosting(JobPosting(title, None, None, None, None), render))
            == ["Job Title: " + title, "Company: None", "Location: None", "Summary: None", "Job Link: None"]
  {
    var job := JobPosting(title, None, None, None, None);
    assert '\n' !in "None";
    FormatJobPostingLines(job, render);
    FormatAbsentFields(job, render);
  }

  // ---------------------------------------------------------------- advice cleanup

  /**
   * `text.strip('"').replace('\\"', '"')`: drops ALL leading and trailing
   * double quotes, then turns each backslash-quote pair into a quote.
   */
  function CleanAdvice(text: string): (cleaned: string)
    ensures |cleaned| <= |text|
    ensures cleaned == [] || cleaned[|cleaned| - 1] != '"'
    ensures '"' !in text ==> cleaned == text
  {
    var stripped := Strip(text, '"');
    UnescapeWithoutQuote(stripped);
    UnescapeKeepsLast(stripped);
    UnescapeQuotes(stripped)
  }

  /**
   * A reply that is a quoted, escaped text is brought back to that text,
   * provided the text does not itself end with a quote.
   */
  lemma CleanAdviceUnquotes(t: string)
    requires t == [] || t[|t| - 1] != '"'
    ensures CleanAdvice("\"" + EscapeQuotes(t) + "\"") == t
  {
    var inner := EscapeQuotes(t);
    var reply := "\"" + inner + "\"";
    assert inner == [] || (inner[0] != '"' && inner[|inner| - 1] != '"');
    StripLayers("\"", inner, "\"", '"');
    UnescapeEscapeRoundTrip(t);
    assert CleanAdvice(reply) == UnescapeQuotes(Strip(reply, '"'));
  }

  /**
   * Because `strip('"')` removes every trailing quote, a text that ends with
   * a quote, escaped and quoted, comes back with that final quote lost and a
   * stray backslash in its place.
   */
  lemma CleanAdviceDropsTrailingEscapedQuote(t: string)
    ensures CleanAdvice("\"" + EscapeQuotes(t + "\"") + "\"") == t + "\\"
  {
    var inner := EscapeQuotes(t) + "\\";
    var reply := "\"" + EscapeQuotes(t + "\"") + "\"";
    EscapedTrailingQuote(t);
    StripEscapedTrailingQuote(inner);
    UnescapeEscapeAppend(t, "\\");
    assert UnescapeQuotes("\\") == "\\";
    CleanAdviceOfStripped(reply, inner);
  }

  /** Escaping a final quote turns it into a backslash and an extra closing quote. */
  lemma EscapedTrailingQuote(t: string)
    ensures "\"" + EscapeQuotes(t + "\"") + "\"" == "\"" + (EscapeQuotes(t) + "\\") + "\"\""
  {
    EscapeQuotesAppend(t, "\"");
    assert EscapeQuotes("\"") == "\\\"";
  }

  /** A text ending in a backslash, quoted with two quotes after it, strips back to itself. */
  lemma StripEscapedTrailingQuote(inner: string)
    requires inner != [] && inner[0] != '"' && inner[|inner| - 1] == '\\'
    ensures Strip("\"" + inner + "\"\"", '"') == inner
  {
    StripLayers("\"", inner, "\"\"", '"');
  }

  /** The cleanup is the replace applied to what `strip('"')` leaves. */
  lemma CleanAdviceOfStripped(reply: string, stripped: string)
    requires Strip(reply, '"') == stripped
    ensures CleanAdvice(reply) == UnescapeQuotes(stripped)
  {
  }

  // ---------------------------------------------------------------- run_agent_processing

  /** `str(job_link) if job_link else None`. */
  function LinkText(link: Option<Url>, render: Url -> string): (text: Option<string>)
    ensures text.Some? <==> link.Some?
    ensures link.Some? ==> text.value == render(link.value)
  {
    match link
    case Some(url) => Some(render(url))
    case None => None
  }

  /**
   * The body of the `try` for one posting: format, ask the advisor, clean
   * both texts and build the result; an advisor failure becomes the logged error.
   */
  function EnrichOne(job: JobPosting, advise: string -> Result<AgentResult, AgentError>, render: Url -> string)
    : (r: Result<EnrichedResult<string>, ProcessingError>)
    ensures r.Ok? <==> advise(FormatJobPosting(job, render)).Ok?
    ensures r.Err? ==> r.error.title == job.title
  {
    match advise(FormatJobPosting(job, render))
    case Err(e) => Err(ProcessingError(job.title, e))
    case Ok(reply) =>
      Ok(EnrichedResult(job.title, job.company, job.location, job.summary, LinkText(job.jobLink, render),
                        CleanAdvice(reply.recommendedCertifications), CleanAdvice(reply.roadMap)))
  }

  /**
   * One posting's outcome: a result iff the advisor succeeds on its prompt;
   * a failure is logged with the title, a result carries the posting's
   * fields, its link as text and both cleaned reply texts.
   */
  lemma EnrichOneOutcome(job: JobPosting, advise: string -> Result<AgentResult, AgentError>, render: Url -> string)
    ensures var reply, r := advise(FormatJobPosting(job, render)), EnrichOne(job, advise, render);
            && (r.Ok? <==> reply.Ok?)
            && (r.Err? ==> r.error == ProcessingError(job.title, reply.error))
            && (r.Ok? ==>
                  && r.value.title == job.title && r.value.company == job.company
                  && r.value.location == job.location && r.value.summary == job.summary
                  && r.value.jobLink == LinkText(job.jobLink, render)
                  && r.value.recommendedCertifications == CleanAdvice(reply.value.recommendedCertifications)
                  && r.value.roadMap == CleanAdvice(reply.value.roadMap))
  {
  }

  function EnrichStep(advise: string -> Result<AgentResult, AgentError>, render: Url -> string)
    : JobPosting -> Result<EnrichedResult<string>, ProcessingError>
  {
    (job: JobPosting) => EnrichOne(job, advise, render)
  }

  /**
   * The loop of `run_agent_processing`: one advisor call per posting, in
   * order; a result is appended on success, a failure is logged by title
   * and only that posting is dropped.
   */
  method EnrichAll(jobPostings: seq<JobPosting>, advise: string -> Result<AgentResult, AgentError>, render: Url -> string)
    returns (results: seq<EnrichedResult<string>>, failures: seq<ProcessingError>)
    ensures results == Successes(jobPostings, EnrichStep(advise, render))
    ensures failures == Failures(jobPostings, EnrichStep(advise, render))
  {
    results, failures := [], [];
    for i := 0 to |jobPostings|
      invariant results == Successes(jobPostings[..i], EnrichStep(advise, render))
      invariant failures == Failures(jobPostings[..i], EnrichStep(advise, render))
    {
      var job := jobPostings[i];
      var step := EnrichStep(advise, render);
      PrefixStep(jobPostings, i, step);
      assert step(job) == EnrichOne(job, advise, render);
      var formattedInput := FormatJobPosting(job, render);
      match advise(formattedInput) {
        case Err(e) =>
          failures := failures + [ProcessingError(job.title, e)];
        case Ok(reply) =>
          var cleanedCerts := CleanAdvice(reply.recommendedCertifications);
          var cleanedRoadMap := CleanAdvice(reply.roadMap);
          var jobLink := LinkText(job.jobLink, render);
          results := results + [EnrichedResult(job.title, job.company, job.location, job.summary, jobLink,
                                               cleanedCerts, cleanedRoadMap)];
      }
    }
    assert jobPostings[..|jobPostings|] == jobPostings;
  }

  /** `run_agent_processing` up to the file writes: fetch the postings, then enrich them. */
  method RunAgentProcessing(input: InputFile, validUrl: string -> bool,
                            advise: string -> Result<AgentResult, AgentError>, render: Url -> string)
    returns (results: seq<EnrichedResult<string>>, failures: seq<ProcessingError>, skipped: seq<RowError>)
    ensures results == Successes(Fetched(input, validUrl), EnrichStep(advise, render))
    ensures failures == Failures(Fetched(input, validUrl), EnrichStep(advise, render))
    ensures input.FileNotFound? ==> skipped == []
    ensures input.CsvRows? ==> skipped == Failures(input.rows, FetchStep(validUrl))
  {
    var jobPostings;
    jobPostings, skipped := FetchJobData(input, validUrl);
    results, failures := EnrichAll(jobPostings, advise, render);
  }

  /**
   * The results are, in order, the postings whose advisor call succeeded:
   * each carries that posting's fields, its link as text, and the two cleaned
   * texts of the reply to that posting's prompt.
   */
  lemma EnrichedAreSucceededPostingsInOrder(jobs: seq<JobPosting>,
                                            advise: string -> Result<AgentResult, AgentError>, render: Url -> string)
    ensures var kept := SuccessIndices(jobs, EnrichStep(advise, render));
            var results := Successes(jobs, EnrichStep(advise, render));
            && |kept| == |results|
            && (forall k, l :: 0 <= k < l < |kept| ==> kept[k] < kept[l])
            && (forall j :: 0 <= j < |jobs| ==> (j in kept <==> advise(FormatJobPosting(jobs[j], render)).Ok?))
            && (forall k :: 0 <= k < |kept| ==>
                  kept[k] < |jobs|
                  && var job, reply := jobs[kept[k]], advise(FormatJobPosting(jobs[kept[k]], render));
                  && reply.Ok?
                  && results[k] == EnrichedResult(job.title, job.company, job.location, job.summary,
                                                  LinkText(job.jobLink, render),
                                                  CleanAdvice(reply.value.recommendedCertifications),
                                                  CleanAdvice(reply.value.roadMap)))
  {
    var step := EnrichStep(advise, render);
    SuccessesAtIndices(jobs, step);
    SuccessIndicesIncrease(jobs, step);
    SuccessIndicesExactlyOk(jobs, step);
  }

  /** Of N postings of which the advisor fails on exactly one, N-1 results come back and that one title is logged. */
  lemma OneAdvisorFailure(jobs: seq<JobPosting>, i: nat,
                          advise: string -> Result<AgentResult, AgentError>, render: Url -> string)
    requires i < |jobs|
    requires advise(FormatJobPosting(jobs[i], render)).Err?
    requires forall j :: 0 <= j < |jobs| && j != i ==> advise(FormatJobPosting(jobs[j], render)).Ok?
    ensures |Successes(jobs, EnrichStep(advise, render))| == |jobs| - 1
    ensures Failures(jobs, EnrichStep(advise, render))
            == [ProcessingError(jobs[i].title, advise(FormatJobPosting(jobs[i], render)).error)]
  {
    ExactlyOneFailure(jobs, i, EnrichStep(advise, render));
  }

  // ---------------------------------------------------------------- csv_to_json

  /** `if row[key] and isinstance(row[key], str): row[key] = row[key].strip('"')`. */
  function CleanValue(v: Value): (cleaned: Value)
    ensures v.Null? ==> cleaned == Null
    ensures v.Str? ==> cleaned.Str? && |cleaned.s| <= |v.s|
    ensures v.Str? ==> cleaned.s == [] || (cleaned.s[0] != '"' && cleaned.s[|cleaned.s| - 1] != '"')
    ensures v.Str? && (v.s == [] || (v.s[0] != '"' && v.s[|v.s| - 1] != '"')) ==> cleaned == v
  {
    if v.Str? && v.s != [] then
      var r := Strip(v.s, '"');
      StripUnchanged(v.s, '"');
      assert r == [] || (r[0] != '"' && r[|r| - 1] != '"');
      Str(r)
    else v
  }

  /** One row after the inner loop: same keys, every value cleaned. */
  function CleanRow(row: Fields): (cleaned: Fields)
    ensures cleaned.Keys == row.Keys
    ensures forall key :: key in row ==> cleaned[key] == CleanValue(row[key])
  {
    map key | key in row :: CleanValue(row[key])
  }

  /** The rows `csv_to_json` dumps. */
  function CleanRows(rows: seq<Fields>): (cleaned: seq<Fields>)
    ensures |cleaned| == |rows|
    ensures forall i :: 0 <= i < |rows| ==> cleaned[i] == CleanRow(rows[i])
  {
    seq(|rows|, i requires 0 <= i < |rows| => CleanRow(rows[i]))
  }

  /**
   * The inner loop of `csv_to_json`: every key of the row is visited once and
   * its value overwritten with the cleaned one.
   */
  method CleanRowInPlace(row0: Fields) returns (row: Fields)
    ensures row == CleanRow(row0)
  {
    row := row0;
    var pending := row.Keys;
    while pending != {}
      invariant row.Keys == row0.Keys && pending <= row.Keys
      invariant forall key :: key in row && key !in pending ==> row[key] == CleanValue(row0[key])
      invariant forall key :: key in pending ==> row[key] == row0[key]
      decreases pending
    {
      var key :| key in pending;
      if row[key].Str? && row[key].s != [] {
        row := row[key := Str(Strip(row[key].s, '"'))];
      }
      pending := pending - {key};
    }
  }

  /**
   * The row loop of `csv_to_json`: each row is cleaned key by key, then
   * appended. The JSON dump is not modelled.
   */
  method CsvToJson(rows: seq<Fields>) returns (data: seq<Fields>)
    ensures data == CleanRows(rows)
    ensures |data| == |rows|
    ensures forall i :: 0 <= i < |rows| ==> data[i].Keys == rows[i].Keys
    ensures forall i, key :: 0 <= i < |rows| && key in rows[i] ==> data[i][key] == CleanValue(rows[i][key])
  {
    data := [];
    for i := 0 to |rows|
      invariant |data| == i
      invariant forall j :: 0 <= j < i ==> data[j] == CleanRow(rows[j])
    {
      var row := CleanRowInPlace(rows[i]);
      data := data + [row];
    }
    forall i | 0 <= i < |rows| ensures data[i] == CleanRows(rows)[i] {
    }
  }

  /** Cleaning a value twice is cleaning it once. */
  lemma CleanValueIdempotent(v: Value)
    ensures CleanValue(CleanValue(v)) == CleanValue(v)
  {
    if v.Str? && v.s != [] {
      StripIdempotent(v.s, '"');
    }
  }

  /** Running the cleanup on its own output changes nothing. */
  lemma CleanRowsIdempotent(rows: seq<Fields>)
    ensures CleanRows(CleanRows(rows)) == CleanRows(rows)
  {
    forall i, key | 0 <= i < |rows| && key in rows[i]
      ensures CleanValue(CleanValue(rows[i][key])) == CleanValue(rows[i][key])
    {
      CleanValueIdempotent(rows[i][key]);
    }
    forall i | 0 <= i < |rows| ensures CleanRow(CleanRow(rows[i])) == CleanRow(rows[i]) {
    }
  }
}

/**
 * The older enrichment script (AgentGEMINI.py at the repository root). Its
 * `fetch_job_data`, `format_job_posting` and `csv_to_json` are the same code
 * as in src/AgentGEMINI.py and are taken from module Agent; what differs is
 * the processing loop, which stores the advisor's texts as returned and the
 * posting's link as the validated URL object, without converting it to text.
 */
module LegacyAgent {
  import opened Wrappers
  import opened Schemas
  import opened Batch
  import opened Agent

  /** The body of the `try` for one posting: format, ask the advisor, keep the reply as it is. */
  function EnrichOneRaw(job: JobPosting, advise: string -> Result<AgentResult, AgentError>, render: Url -> string)
    : (r: Result<EnrichedResult<Url>, ProcessingError>)
    ensures r.Ok? <==> advise(FormatJobPosting(job, render)).Ok?
    ensures r.Err? ==> r.error.title == job.title
  {
    match advise(FormatJobPosting(job, render))
    case Err(e) => Err(ProcessingError(job.title, e))
    case Ok(reply) =>
      Ok(EnrichedResult(job.title, job.company, job.location, job.summary, job.jobLink,
                        reply.recommendedCertifications, reply.roadMap))
  }

  /**
   * One posting's outcome in the older script: a result iff the advisor
   * succeeds, carrying the posting's fields, its link unconverted and the
   * reply's texts verbatim; a failure is logged by title.
   */
  lemma EnrichOneRawOutcome(job: JobPosting, advise: string -> Result<AgentResult, AgentError>, render: Url -> string)
    ensures var reply, r := advise(FormatJobPosting(job, render)), EnrichOneRaw(job, advise, render);
            && (r.Ok? <==> reply.Ok?)
            && (r.Err? ==> r.error == ProcessingError(job.title, reply.error))
            && (r.Ok? ==>
                  && r.value.title == job.title && r.value.company == job.company
                  && r.value.location == job.location && r.value.summary == job.summary
                  && r.value.jobLink == job.jobLink
                  && r.value.recommendedCertifications == reply.value.recommendedCertifications
                  && r.value.roadMap == reply.value.roadMap)
  {
  }

  function EnrichStepRaw(advise: string -> Result<AgentResult, AgentError>, render: Url -> string)
    : JobPosting -> Result<EnrichedResult<Url>, ProcessingError>
  {
    (job: JobPosting) => EnrichOneRaw(job, advise, render)
  }

  /**
   * The loop of the older `run_agent_processing`: one advisor call per
   * posting, the reply stored verbatim, a failure logged and skipped.
   */
  method EnrichAllRaw(jobPostings: seq<JobPosting>, advise: string -> Result<AgentResult, AgentError>, render: Url -> string)
    returns (results: seq<EnrichedResult<Url>>, failures: seq<ProcessingError>)
    ensures results == Successes(jobPostings, EnrichStepRaw(advise, render))
    ensures failures == Failures(jobPostings, EnrichStepRaw(advise, render))
  {
    results, failures := [], [];
    for i := 0 to |jobPostings|
      invariant results == Successes(jobPostings[..i], EnrichStepRaw(advise, render))
      invariant failures == Failures(jobPostings[..i], EnrichStepRaw(advise, render))
    {
      var job := jobPostings[i];
      var step := EnrichStepRaw(advise, render);
      PrefixStep(jobPostings, i, step);
      assert step(job) == EnrichOneRaw(job, advise, render);
      var formattedInput := FormatJobPosting(job, render);
      match advise(formattedInput) {
        case Err(e) =>
          failures := failures + [ProcessingError(job.title, e)];
        case Ok(reply) =>
          results := results + [EnrichedResult(job.title, job.company, job.location, job.summary, job.jobLink,
                                               reply.recommendedCertifications, reply.roadMap)];
      }
    }
    assert jobPostings[..|jobPostings|] == jobPostings;
  }

  /** The older `run_agent_processing` up to the file writes: fetch the postings, then enrich them. */
  method RunAgentProcessing(input: InputFile, validUrl: string -> bool,
                            advise: string -> Result<AgentResult, AgentError>, render: Url -> string)
    returns (results: seq<EnrichedResult<Url>>, failures: seq<ProcessingError>, skipped: seq<RowError>)
    ensures results == Successes(Fetched(input, validUrl), EnrichStepRaw(advise, render))
    ensures failures == Failures(Fetched(input, validUrl), EnrichStepRaw(advise, render))
    ensures input.FileNotFound? ==> skipped == []
    ensures input.CsvRows? ==> skipped == Failures(input.rows, FetchStep(validUrl))
  {
    var jobPostings;
    jobPostings, skipped := FetchJobData(input, validUrl);
    results, failures := EnrichAllRaw(jobPostings, advise, render);
  }

  /**
   * The results are, in order, the postings whose advisor call succeeded,
   * each with its fields and link unchanged and the reply's texts verbatim.
   */
  lemma RawResultsAreSucceededPostingsInOrder(jobs: seq<JobPosting>,
                                              advise: string -> Result<AgentResult, AgentError>, render: Url -> string)
    ensures var kept := SuccessIndices(jobs, EnrichStepRaw(advise, render));
            var results := Successes(jobs, EnrichStepRaw(advise, render));
            && |kept| == |results|
            && (forall k, l :: 0 <= k < l < |kept| ==> kept[k] < kept[l])
            && (forall j :: 0 <= j < |jobs| ==> (j in kept <==> advise(FormatJobPosting(jobs[j], render)).Ok?))
            && (forall k :: 0 <= k < |kept| ==>
                  kept[k] < |jobs|
                  && var job, reply := jobs[kept[k]], advise(FormatJobPosting(jobs[kept[k]], render));
                  && reply.Ok?
                  && results[k] == EnrichedResult(job.title, job.company, job.location, job.summary, job.jobLink,
                                                  reply.value.recommendedCertifications, reply.value.roadMap))
  {
    var step := EnrichStepRaw(advise, render);
    SuccessesAtIndices(jobs, step);
    SuccessIndicesIncrease(jobs, step);
    SuccessIndicesExactlyOk(jobs, step);
  }

  /** What the newer script adds on top of a raw result: the link as text and both texts cleaned. */
  function Cleaned(raw: EnrichedResult<Url>, render: Url -> string): (cleaned: EnrichedResult<string>)
    ensures cleaned.title == raw.title && cleaned.company == raw.company
    ensures cleaned.location == raw.location && cleaned.summary == raw.summary
    ensures cleaned.jobLink.Some? <==> raw.jobLink.Some?
    ensures |cleaned.recommendedCertifications| <= |raw.recommendedCertifications|
    ensures |cleaned.roadMap| <= |raw.roadMap|
    ensures '"' !in raw.recommendedCertifications ==> cleaned.recommendedCertifications == raw.recommendedCertifications
    ensures '"' !in raw.roadMap ==> cleaned.roadMap == raw.roadMap
  {
    EnrichedResult(raw.title, raw.company, raw.location, raw.summary, LinkText(raw.jobLink, render),
                   CleanAdvice(raw.recommendedCertifications), CleanAdvice(raw.roadMap))
  }

  /**
   * The two scripts keep the same postings in the same order (the advisor is
   * asked the same prompt), and each newer result is the older one with the
   * link converted to text and both advice texts cleaned.
   */
  lemma NewerResultsAreCleanedOlderResults(jobs: seq<JobPosting>,
                                           advise: string -> Result<AgentResult, AgentError>, render: Url -> string)
    ensures |Successes(jobs, EnrichStep(advise, render))| == |Successes(jobs, EnrichStepRaw(advise, render))|
    ensures forall k :: 0 <= k < |Successes(jobs, EnrichStepRaw(advise, render))| ==>
              Successes(jobs, EnrichStep(advise, render))[k]
              == Cleaned(Successes(jobs, EnrichStepRaw(advise, render))[k], render)
  {
    var raw, clean := EnrichStepRaw(advise, render), EnrichStep(advise, render);
    var g := (r: EnrichedResult<Url>) => Cleaned(r, render);
    forall job: JobPosting ensures clean(job).Ok? == raw(job).Ok? && (raw(job).Ok? ==> clean(job).value == g(raw(job).value)) {
    }
    SuccessesMapped(jobs, raw, clean, g);
  }
}

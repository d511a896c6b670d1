/**
 * The record and search-input schema (src/schemas.py): the two pydantic
 * models, their construction rules, and the search URL template.
 */
module Schemas {
  import opened Wrappers

  /** A keyword argument as it reaches a model constructor: a `str` or `None`. */
  datatype Value = Str(s: string) | Null

  /** Keyword arguments of a constructor call; also a CSV row read by `csv.DictReader`. */
  type Fields = map<string, Value>

  /**
   * A link that passed `HttpUrl` validation. It keeps the text it was built
   * from; the normalised form pydantic stores and `str()` of it are not
   * modelled (a `render` parameter stands for `str()` where it is used).
   */
  datatype Url = Url(source: string)

  /** `JobPosting`: only `title` is required; the other fields default to `None`. */
  datatype JobPosting = JobPosting(
    title: string,
    company: Option<string>,
    location: Option<string>,
    summary: Option<string>,
    jobLink: Option<Url>)

  /** `JobSearchInput`: both fields are required strings. */
  datatype JobSearchInput = JobSearchInput(job: string, location: string)

  /** One entry of a pydantic `ValidationError`. */
  datatype FieldError =
    | MissingField(name: string)
    | NotAString(name: string)
    | NotAUrl(name: string, input: string)

  /** A field declared `str` with no default: it must be given, as a string. */
  function RequiredStr(fields: Fields, name: string): (r: Result<string, FieldError>)
    ensures r.Ok? <==> name in fields && fields[name].Str?
    ensures r.Ok? ==> r.value == fields[name].s
    ensures r.Err? ==> r.error.name == name && !r.error.NotAUrl?
  {
    if name !in fields then Err(MissingField(name))
    else match fields[name]
      case Str(s) => Ok(s)
      case Null => Err(NotAString(name))
  }

  /** A field declared `Optional[str] = None`: absent or `None` give `None`. */
  function OptionalStr(fields: Fields, name: string): (r: Option<string>)
    ensures r.Some? <==> name in fields && fields[name].Str?
    ensures r.Some? ==> r.value == fields[name].s
  {
    if name in fields && fields[name].Str? then Some(fields[name].s) else None
  }

  /** A field declared `Optional[HttpUrl] = None`: a given string must be a valid URL. */
  function OptionalUrl(fields: Fields, name: string, validUrl: string -> bool): (r: Result<Option<Url>, FieldError>)
    ensures r.Err? <==> name in fields && fields[name].Str? && !validUrl(fields[name].s)
    ensures r.Err? ==> r.error == NotAUrl(name, fields[name].s)
    ensures r.Ok? ==> (r.value.Some? <==> name in fields && fields[name].Str?)
    ensures r.Ok? && r.value.Some? ==> r.value.value.source == fields[name].s && validUrl(fields[name].s)
  {
    if name !in fields then Ok(None)
    else match fields[name]
      case Null => Ok(None)
      case Str(s) => if validUrl(s) then Ok(Some(Url(s))) else Err(NotAUrl(name, s))
  }

  /** The optional field `name` of a posting carries the string given for it, or `None`. */
  ghost predicate Carries(fields: Fields, name: string, field: Option<string>)
  {
    if name in fields && fields[name].Str? then field == Some(fields[name].s) else field == None
  }

  /**
   * `JobPosting(**fields)`. Unknown keys are ignored; errors of all fields are
   * collected, in declaration order. No field is required to be non-empty.
   */
  function MakeJobPosting(fields: Fields, validUrl: string -> bool): (r: Result<JobPosting, seq<FieldError>>)
    ensures r.Err? <==>
              || "title" !in fields
              || fields["title"].Null?
              || ("job_link" in fields && fields["job_link"].Str? && !validUrl(fields["job_link"].s))
    ensures r.Err? ==> r.error != [] && forall e :: e in r.error ==> e.name == "title" || e.name == "job_link"
    ensures r.Ok? ==> r.value.title == fields["title"].s
    ensures r.Ok? ==> Carries(fields, "company", r.value.company)
                      && Carries(fields, "location", r.value.location)
                      && Carries(fields, "summary", r.value.summary)
    ensures r.Ok? ==> (r.value.jobLink.Some? <==> "job_link" in fields && fields["job_link"].Str?)
    ensures r.Ok? && r.value.jobLink.Some? ==>
              validUrl(fields["job_link"].s) && r.value.jobLink.value == Url(fields["job_link"].s)
  {
    var title := RequiredStr(fields, "title");
    var link := OptionalUrl(fields, "job_link", validUrl);
    if title.Ok? && link.Ok? then
      Ok(JobPosting(title.value, OptionalStr(fields, "company"), OptionalStr(fields, "location"),
                    OptionalStr(fields, "summary"), link.value))
    else
      Err((if title.Err? then [title.error] else []) + (if link.Err? then [link.error] else []))
  }

  /** A posting whose optional fields are all absent has them all `None`. */
  lemma AbsentFieldsDefaultToNone(title: string, validUrl: string -> bool)
    ensures MakeJobPosting(map["title" := Str(title)], validUrl)
            == Ok(JobPosting(title, None, None, None, None))
  {
  }

  /** An empty title is a valid title: the schema has no non-empty rule. */
  lemma EmptyTitleIsAccepted(fields: Fields, validUrl: string -> bool)
    requires "title" in fields && fields["title"] == Str("")
    requires "job_link" !in fields
    ensures MakeJobPosting(fields, validUrl).Ok?
    ensures MakeJobPosting(fields, validUrl).value.title == ""
  {
  }

  /** `JobSearchInput(job=..., location=...)`: both must be given as strings; emptiness is not checked. */
  function MakeJobSearchInput(fields: Fields): (r: Result<JobSearchInput, seq<FieldError>>)
    ensures r.Ok? <==> "job" in fields && fields["job"].Str? && "location" in fields && fields["location"].Str?
    ensures r.Ok? ==> r.value == JobSearchInput(fields["job"].s, fields["location"].s)
    ensures r.Err? ==> r.error != []
  {
    var job := RequiredStr(fields, "job");
    var location := RequiredStr(fields, "location");
    if job.Ok? && location.Ok? then Ok(JobSearchInput(job.value, location.value))
    else Err((if job.Err? then [job.error] else []) + (if location.Err? then [location.error] else []))
  }

  const BaseUrl := "https://www.indeed.com/jobs"

  /** The fixed part of every search URL, up to the job term. */
  const SearchPrefix := "https://www.indeed.com/jobs?q="

  /**
   * `JobSearchInput.build_url`: the base URL, `?q=`, the job term, `&l=`, the
   * location, with both values inserted verbatim (no percent-encoding).
   */
  function BuildUrl(input: JobSearchInput): (url: string)
    ensures |url| == 33 + |input.job| + |input.location|
    ensures url[..30] == SearchPrefix
    ensures url[30..30 + |input.job|] == input.job
    ensures url[30 + |input.job|..33 + |input.job|] == "&l="
    ensures url[33 + |input.job|..] == input.location
  {
    var queryParams := "?q=" + input.job + "&l=" + input.location;
    BaseUrl + queryParams
  }

  /** The documented example: the space in the job term stays a space. */
  lemma BuildUrlExample()
    ensures BuildUrl(JobSearchInput("data engineer", "Paris"))
            == "https://www.indeed.com/jobs?q=data engineer&l=Paris"
  {
  }

  /** Without escaping, a job term may swallow the location separator: two inputs share a URL. */
  lemma BuildUrlCollision()
    ensures JobSearchInput("a&l=b", "c") != JobSearchInput("a", "b&l=c")
    ensures BuildUrl(JobSearchInput("a&l=b", "c")) == BuildUrl(JobSearchInput("a", "b&l=c"))
  {
  }

  /** When neither job term contains `&`, the URL determines the search input. */
  lemma BuildUrlInjective(a: JobSearchInput, b: JobSearchInput)
    requires '&' !in a.job && '&' !in b.job
    requires BuildUrl(a) == BuildUrl(b)
    ensures a == b
  {
    var url := BuildUrl(a);
    // The first `&` after the prefix ends each job term.
    assert url[30 + |a.job|] == '&' && url[30 + |b.job|] == '&';
    assert forall k :: 0 <= k < |a.job| ==> url[30 + k] == a.job[k];
    assert forall k :: 0 <= k < |b.job| ==> url[30 + k] == b.job[k];
    if |a.job| != |b.job| {
      assert false;
    }
  }
}

/**
 * The result list of the web front end (frontend/src/components/JobList.js):
 * one card per job, with fallback texts for empty fields and a shortened
 * description, or a message when there is nothing to show.
 */
module JobList {
  import opened Optional

  /** A JavaScript value as a card reads it from a job object. */
  datatype JsValue = Undefined | Null | Bool(b: bool) | Num(n: real) | Str(s: string)

  /** JavaScript truthiness: false, 0, "", null and undefined are falsy. */
  predicate Truthy(v: JsValue) {
    match v
    case Undefined => false
    case Null => false
    case Bool(b) => b
    case Num(n) => n != 0.0
    case Str(s) => s != ""
  }

  /** `v || fallback`. */
  function Or(v: JsValue, fallback: string): (r: JsValue)
    ensures Truthy(v) ==> r == v
    ensures !Truthy(v) ==> r == Str(fallback)
  {
    if Truthy(v) then v else Str(fallback)
  }

  /** A job as the search service returns it. */
  datatype Job = Job(
    title: JsValue, company: JsValue, location: JsValue, salary: JsValue, jobType: JsValue,
    datePosted: JsValue, description: JsValue, url: JsValue, logo: JsValue, score: JsValue)

  /** The logo area of a card: the image, with the company name as its alternative text, or a placeholder. */
  datatype LogoView = Image(src: JsValue, altCompany: JsValue) | NoLogo

  /**
   * What stands in a card's description place: nothing, the description
   * block, or the bare text of a falsy number, which React renders where
   * other falsy values render nothing.
   */
  datatype DescriptionView = NoDescription | Description(text: JsValue) | Bare(shown: string)

  datatype Card = Card(
    href: JsValue, logo: LogoView, title: JsValue, company: JsValue, location: JsValue,
    jobType: JsValue, datePosted: JsValue, salary: JsValue, score: JsValue, description: DescriptionView)

  /** What the component renders. */
  datatype View = Message(text: string) | Grid(cards: seq<Card>)

  const NoResults: string := "Tidak ada hasil ditemukan."
  const MaxDescription: nat := 250
  const Ellipsis: string := "..."

  /** A description longer than 250 characters is cut to its first 250, followed by "...". */
  function Truncate(s: string): string {
    if |s| > MaxDescription then s[..MaxDescription] + Ellipsis else s
  }

  /**
   * The shown description is the original when it has at most 250
   * characters; otherwise it has 253 characters: the first 250 of the
   * original and "...".
   */
  lemma TruncateShape(s: string)
    ensures |s| <= MaxDescription ==> Truncate(s) == s
    ensures |s| > MaxDescription ==>
              |Truncate(s)| == MaxDescription + |Ellipsis|
              && Truncate(s)[..MaxDescription] == s[..MaxDescription]
              && Truncate(s)[MaxDescription..] == Ellipsis
    ensures |Truncate(s)| <= MaxDescription + |Ellipsis|
  {
  }

  /** Shortening an already shortened description changes nothing. */
  lemma TruncateIdempotent(s: string)
    ensures Truncate(Truncate(s)) == Truncate(s)
  {
    if |s| > MaxDescription {
      var t := Truncate(s);
      assert t[..MaxDescription] == s[..MaxDescription];
    }
  }

  /**
   * `job.description && ...`: a truthy description gets the block, a string
   * one shortened and any other shown as it is; a falsy one yields itself,
   * which shows nothing except for the number 0, shown as "0".
   */
  function DescriptionOf(d: JsValue): (r: DescriptionView)
    ensures r.Description? <==> Truthy(d)
    ensures r.Bare? <==> d == Num(0.0)
    ensures r.Bare? ==> r.shown == "0"
    ensures r.Description? && d.Str? ==> r.text == Str(Truncate(d.s))
    ensures r.Description? && !d.Str? ==> r.text == d
  {
    if d == Num(0.0) then Bare("0")
    else if !Truthy(d) then NoDescription
    else if d.Str? then Description(Str(Truncate(d.s)))
    else Description(d)
  }

  function CardOf(job: Job): Card {
    Card(
      job.url,
      if Truthy(job.logo) then Image(job.logo, job.company) else NoLogo,
      job.title, job.company, job.location,
      Or(job.jobType, "-"), Or(job.datePosted, "-"), Or(job.salary, "Tidak tersedia"), Or(job.score, "-"),
      DescriptionOf(job.description))
  }

  /**
   * The component: the message when `jobs` is null, undefined or empty,
   * otherwise one card per job.
   */
  function Render(jobs: Option<seq<Job>>): (v: View)
    ensures v.Message? <==> jobs.None? || jobs.value == []
    ensures v.Message? ==> v.text == NoResults
    ensures v.Grid? ==> |v.cards| == |jobs.value| && forall i :: 0 <= i < |v.cards| ==> v.cards[i] == CardOf(jobs.value[i])
  {
    if jobs.None? || |jobs.value| == 0 then Message(NoResults)
    else Grid(seq(|jobs.value|, i requires 0 <= i < |jobs.value| => CardOf(jobs.value[i])))
  }

  /** Each card links to its job's URL, in the order of the jobs. */
  lemma CardsFollowJobs(jobs: seq<Job>)
    requires jobs != []
    ensures Render(Some(jobs)).Grid?
    ensures forall i :: 0 <= i < |jobs| ==> Render(Some(jobs)).cards[i].href == jobs[i].url
  {
  }

  /**
   * The fields with a fallback are never blank: a falsy job type, date,
   * salary or score shows its fallback text, a truthy one shows itself, and
   * a falsy logo shows the placeholder.
   */
  lemma FallbacksNeverBlank(job: Job)
    ensures var c := CardOf(job);
            && Truthy(c.jobType) && Truthy(c.datePosted) && Truthy(c.salary) && Truthy(c.score)
            && (c.jobType == Str("-") <==> !Truthy(job.jobType) || job.jobType == Str("-"))
            && (c.salary == Str("Tidak tersedia") <==> !Truthy(job.salary) || job.salary == Str("Tidak tersedia"))
            && (!Truthy(job.datePosted) ==> c.datePosted == Str("-"))
            && (!Truthy(job.score) ==> c.score == Str("-"))
            && (c.logo.NoLogo? <==> !Truthy(job.logo))
  {
  }

  /** A relevance score of 0 is falsy and shows "-". */
  lemma ZeroScoreShowsDash(job: Job)
    requires job.score == Num(0.0)
    ensures CardOf(job).score == Str("-")
  {
  }
}

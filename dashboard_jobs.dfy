/** The recruiter dashboard's job table: the salary, job type and status
    columns, and what the create-job submit builds from the form data. */
module DashboardJobs {
  import opened Wrappers
  import opened Strings
  import opened CreateJobForm
  import JobFormatters

  // -------------------------------------------------------------- salary

  /** `${value}` for a currency that may be null. */
  function CurrencyText(currency: Option<string>): string
  {
    if currency.Some? then currency.value else "null"
  }

  /** A salary bound counts when it is present and not zero. */
  predicate Given(bound: Option<int>)
  {
    bound.Some? && bound.value != 0
  }

  /** The salary column: both bounds, a lower bound alone, an upper bound
      alone, or "N/A". The currency is printed as it is stored, a missing
      one as `null`. */
  function SalaryColumn(salaryMin: Option<int>, salaryMax: Option<int>, currency: Option<string>): (r: string)
    ensures r == "N/A" <==> !Given(salaryMin) && !Given(salaryMax)
    ensures Given(salaryMin) && Given(salaryMax) ==>
      r == IntToString(salaryMin.value) + " - " + IntToString(salaryMax.value) + " " + CurrencyText(currency)
    ensures Given(salaryMin) && !Given(salaryMax) ==> r == "From " + IntToString(salaryMin.value) + " " + CurrencyText(currency)
    ensures !Given(salaryMin) && Given(salaryMax) ==> r == "Up to " + IntToString(salaryMax.value) + " " + CurrencyText(currency)
  {
    if Given(salaryMin) && Given(salaryMax) then
      IntToString(salaryMin.value) + " - " + IntToString(salaryMax.value) + " " + CurrencyText(currency)
    else if Given(salaryMin) then "From " + IntToString(salaryMin.value) + " " + CurrencyText(currency)
    else if Given(salaryMax) then "Up to " + IntToString(salaryMax.value) + " " + CurrencyText(currency)
    else "N/A"
  }

  /** Whenever a bound is given, the column ends with a space and the
      currency text. */
  lemma {:induction false} SalaryColumnEndsWithCurrency(salaryMin: Option<int>, salaryMax: Option<int>, currency: Option<string>)
    requires Given(salaryMin) || Given(salaryMax)
    ensures EndsWith(SalaryColumn(salaryMin, salaryMax, currency), " " + CurrencyText(currency))
  {
    var c := CurrencyText(currency);
    if Given(salaryMin) && Given(salaryMax) {
      EndsWithAppend(IntToString(salaryMin.value) + " - " + IntToString(salaryMax.value), c);
    } else if Given(salaryMin) {
      EndsWithAppend("From " + IntToString(salaryMin.value), c);
    } else {
      EndsWithAppend("Up to " + IntToString(salaryMax.value), c);
    }
  }

  predicate EndsWith(s: string, t: string)
  {
    |t| <= |s| && s[|s| - |t|..] == t
  }

  lemma EndsWithAppend(h: string, c: string)
    ensures EndsWith(h + " " + c, " " + c)
  {
    assert (h + " " + c)[|h|..] == " " + c;
  }

  // ---------------------------------------------------- job type, status

  /** The job type column: the first character upper-cased and, in the
      rest, only the first `-` turned into a space. */
  function JobTypeColumn(jobType: string): (r: string)
    ensures |r| == |jobType|
    ensures |jobType| > 0 ==> r[0] == ToUpperChar(jobType[0]) && r[1..] == ReplaceFirst(jobType[1..], '-', ' ')
  {
    if jobType == "" then "" else [ToUpperChar(jobType[0])] + ReplaceFirst(jobType[1..], '-', ' ')
  }

  /** Only the first character of the rest that is a `-` changes: a second
      hyphen stays. */
  lemma {:induction false} JobTypeColumnOneHyphen(jobType: string, k: nat)
    requires 1 <= k < |jobType| && jobType[k] == '-' && '-' !in jobType[1..k]
    ensures JobTypeColumn(jobType)[k] == ' '
    ensures forall i :: k < i < |jobType| ==> JobTypeColumn(jobType)[i] == jobType[i]
  {
    var rest := jobType[1..];
    assert rest[k - 1] == '-' && rest[..k - 1] == jobType[1..k];
  }

  /** The status column: the first character upper-cased, the rest as it is. */
  function StatusColumn(status: string): (r: string)
    ensures |r| == |status|
    ensures |status| > 0 ==> r[0] == ToUpperChar(status[0]) && r[1..] == status[1..]
  {
    if status == "" then "" else [ToUpperChar(status[0])] + status[1..]
  }

  /** For a lower-case status (every stored status is one) the column reads
      the same as the detailed view's status label. */
  lemma StatusColumnAgrees(status: string)
    requires forall i :: 0 <= i < |status| ==> !IsAsciiUpper(status[i])
    ensures StatusColumn(status) == JobFormatters.FormatStatus(status)
  {
    if status != "" {
      assert ToLower(status[1..]) == status[1..];
    }
  }

  /** The status badge of the table: green, yellow and red for active,
      draft and expired, gray for everything else, filled included. */
  function StatusBadge(status: string): (r: string)
    ensures r == JobFormatters.GRAY_BADGE <==> status !in ["active", "draft", "expired"]
  {
    if status == "active" then "bg-green-100 text-green-800"
    else if status == "draft" then "bg-yellow-100 text-yellow-800"
    else if status == "expired" then "bg-red-100 text-red-800"
    else JobFormatters.GRAY_BADGE
  }

  /** The table and the detailed view colour every status alike except
      filled, which only the detailed view colours. */
  lemma StatusBadgesAgreeButFilled(status: string)
    ensures status != "filled" ==> StatusBadge(status) == JobFormatters.StatusColor(status)
    ensures StatusBadge("filled") != JobFormatters.StatusColor("filled")
  {
  }

  // -------------------------------------------------------------- submit

  const PLACEHOLDER_RECRUITER_ID := "example-recruiter-id"

  /** The job the submit builds. `salaryMin` and `salaryMax` are `None`
      where the handler would store null. */
  datatype NewJobData = NewJobData(
    recruiterId: string, title: string, descriptionMarkdown: string, location: string, jobType: string,
    salaryMin: Option<NumberInput>, salaryMax: Option<NumberInput>, salaryCurrency: Option<string>,
    applyUrl: string, status: string, skills: seq<string>, expiresAt: Option<string>,
    easyApply: bool, postedAt: int, createdAt: int, updatedAt: int)

  /** The create-job submit: an empty currency and an empty expiry date
      become null, the three timestamps are the clock reading `now`, and
      the recruiter id is a placeholder. The salaries are compared with
      `''`, which a number input never yields, so they are kept as they
      are, NaN included. Nothing is sent: the handler only logs the job. */
  function HandleCreateJobSubmit(d: SubmittedData, now: int): (r: NewJobData)
    ensures r.salaryMin == Some(d.salaryMin) && r.salaryMax == Some(d.salaryMax)
    ensures r.salaryCurrency.None? <==> d.salaryCurrency == ""
    ensures r.salaryCurrency.Some? ==> r.salaryCurrency.value == d.salaryCurrency
    ensures r.expiresAt.None? <==> d.expiresAt == ""
    ensures r.expiresAt.Some? ==> r.expiresAt.value == d.expiresAt
    ensures r.postedAt == now && r.createdAt == now && r.updatedAt == now
    ensures r.recruiterId == PLACEHOLDER_RECRUITER_ID
    ensures (r.title, r.descriptionMarkdown, r.location, r.jobType, r.applyUrl, r.status, r.skills, r.easyApply)
      == (d.title, d.descriptionMarkdown, d.location, d.jobType, d.applyUrl, d.status, d.skills, d.easyApply)
  {
    NewJobData(
      PLACEHOLDER_RECRUITER_ID, d.title, d.descriptionMarkdown, d.location, d.jobType,
      Some(d.salaryMin), Some(d.salaryMax),
      if d.salaryCurrency == "" then None else Some(d.salaryCurrency),
      d.applyUrl, d.status, d.skills,
      if d.expiresAt == "" then None else Some(d.expiresAt),
      d.easyApply, now, now, now)
  }

  /** A salary left blank in the form reaches the job as NaN, never as
      null. */
  lemma BlankSalaryIsNotNull(d: SubmittedData, now: int)
    requires d.salaryMin == NotANumber
    ensures HandleCreateJobSubmit(d, now).salaryMin == Some(NotANumber)
  {
  }
}

/** What a job card and the detailed job view print about a job: the type
    badge, the salary line, how long ago the job was posted and the status
    badge. The card and the detailed view carry identical copies of these
    formatters; they are defined once here. */
module JobFormatters {
  import opened Wrappers
  import opened Strings
  import opened Seqs
  import opened Enums

  // ------------------------------------------------------------ job type

  const GRAY_BADGE := "bg-gray-100 text-gray-800"

  /** The badge classes of a job type: one colour per type, gray for any
      other string. */
  function TypeColor(jobType: string): (r: string)
    ensures r == GRAY_BADGE <==> jobType !in JOB_TYPE_VALUES
  {
    if jobType == "full-time" then "bg-blue-100 text-blue-800"
    else if jobType == "part-time" then "bg-green-100 text-green-800"
    else if jobType == "contract" then "bg-orange-100 text-orange-800"
    else if jobType == "internship" then "bg-purple-100 text-purple-800"
    else GRAY_BADGE
  }

  /** The four job types get four different badges. */
  lemma TypeColorsDistinct(a: string, b: string)
    requires a in JOB_TYPE_VALUES && b in JOB_TYPE_VALUES && a != b
    ensures TypeColor(a) != TypeColor(b)
  {
  }

  /** The label a job type is shown with. */
  function JobTypeLabel(t: JobType): string
  {
    match t
    case FullTime => "Full-time"
    case PartTime => "Part-time"
    case Contract => "Contract"
    case Internship => "Internship"
  }

  /** The badge text: a job type's label, or the string itself when it is
      not one of the job types. */
  function FormatJobType(jobType: string): (r: string)
    ensures ParseJobType(jobType).Some? ==> r == JobTypeLabel(ParseJobType(jobType).value)
    ensures ParseJobType(jobType).None? ==> r == jobType
  {
    if jobType == "full-time" then "Full-time"
    else if jobType == "part-time" then "Part-time"
    else if jobType == "contract" then "Contract"
    else if jobType == "internship" then "Internship"
    else jobType
  }

  /** Different job types are shown with different labels, and no label is
      itself a stored job type value. */
  lemma JobTypeLabelsDistinct(a: JobType, b: JobType)
    ensures a != b ==> FormatJobType(JobTypeValue(a)) != FormatJobType(JobTypeValue(b))
    ensures FormatJobType(JobTypeValue(a)) !in JOB_TYPE_VALUES
  {
  }

  // -------------------------------------------------------------- salary

  const SALARY_NOT_SPECIFIED := "Salary not specified"

  /** A salary bound counts only when it is present and not zero. */
  predicate Given(bound: Option<int>)
  {
    bound.Some? && bound.value != 0
  }

  /** The currency sign, `$` when the job has none. */
  function CurrencySign(currency: Option<string>): (r: string)
    ensures r != ""
    ensures currency.Some? && currency.value != "" ==> r == currency.value
  {
    if currency.Some? && currency.value != "" then currency.value else "$"
  }

  /** The salary line. `show` is the number formatting of the browser's
      locale. */
  function FormatSalary(salaryMin: Option<int>, salaryMax: Option<int>, currency: Option<string>, show: int -> string): (r: string)
    ensures !Given(salaryMin) && !Given(salaryMax) ==> r == SALARY_NOT_SPECIFIED
    ensures Given(salaryMin) && Given(salaryMax) ==>
      r == CurrencySign(currency) + show(salaryMin.value) + " - " + CurrencySign(currency) + show(salaryMax.value)
    ensures Given(salaryMin) && !Given(salaryMax) ==> r == CurrencySign(currency) + show(salaryMin.value) + "+"
    ensures !Given(salaryMin) && Given(salaryMax) ==> r == "Up to " + CurrencySign(currency) + show(salaryMax.value)
  {
    if !Given(salaryMin) && !Given(salaryMax) then SALARY_NOT_SPECIFIED
    else
      var c := CurrencySign(currency);
      if Given(salaryMin) && Given(salaryMax) then c + show(salaryMin.value) + " - " + c + show(salaryMax.value)
      else if Given(salaryMin) then c + show(salaryMin.value) + "+"
      else "Up to " + c + show(salaryMax.value)
  }

  /** A zero bound reads as a missing one. */
  lemma ZeroSalaryIsMissing(salaryMin: Option<int>, salaryMax: Option<int>, currency: Option<string>, show: int -> string)
    ensures FormatSalary(Some(0), salaryMax, currency, show) == FormatSalary(None, salaryMax, currency, show)
    ensures FormatSalary(salaryMin, Some(0), currency, show) == FormatSalary(salaryMin, None, currency, show)
  {
  }

  /** Whenever a bound is given, the line names the currency, the job's
      own when it has one. */
  lemma {:induction false} SalaryNamesCurrency(salaryMin: Option<int>, salaryMax: Option<int>, currency: Option<string>, show: int -> string)
    requires Given(salaryMin) || Given(salaryMax)
    ensures Contains(FormatSalary(salaryMin, salaryMax, currency, show), CurrencySign(currency))
  {
    var c := CurrencySign(currency);
    var r := FormatSalary(salaryMin, salaryMax, currency, show);
    if Given(salaryMin) {
      assert r[..|c|] == c;
      assert InfixAt(r, c, 0);
    } else {
      assert r[6..6 + |c|] == c;
      assert InfixAt(r, c, 6);
    }
  }

  // ---------------------------------------------------------- posted date

  const MS_PER_DAY := 1000 * 60 * 60 * 24

  /** How long ago, in the unit the card uses. */
  datatype Age = Days(n: nat) | Weeks(n: nat) | Months(n: nat)

  /** Whole days between two instants, rounded up, in either direction. */
  function DiffDays(now: int, postedAt: int): (d: nat)
    ensures (d - 1) * MS_PER_DAY < Abs(now - postedAt) <= d * MS_PER_DAY
  {
    CeilDiv(Abs(now - postedAt), MS_PER_DAY)
  }

  function Abs(x: int): nat
  {
    if x < 0 then -x else x
  }

  /** Under a week in days, under thirty days in weeks rounded up, and in
      months of thirty days rounded up beyond. */
  function AgeOf(diffDays: nat): (a: Age)
    ensures a.Days? <==> diffDays < 7
    ensures a.Days? ==> a.n == diffDays
    ensures a.Weeks? ==> 7 <= diffDays < 30 && 1 <= a.n <= 5 && 7 * (a.n - 1) < diffDays <= 7 * a.n
    ensures a.Months? ==> 30 <= diffDays && 1 <= a.n && 30 * (a.n - 1) < diffDays <= 30 * a.n
  {
    if diffDays < 7 then Days(diffDays)
    else if diffDays < 30 then Weeks(CeilDiv(diffDays, 7))
    else Months(CeilDiv(diffDays, 30))
  }

  function UnitRank(a: Age): nat
  {
    match a
    case Days(_) => 0
    case Weeks(_) => 1
    case Months(_) => 2
  }

  /** An older job never shows a smaller unit, nor a smaller count in the
      same unit. */
  lemma AgeMonotone(d1: nat, d2: nat)
    requires d1 <= d2
    ensures UnitRank(AgeOf(d1)) <= UnitRank(AgeOf(d2))
    ensures UnitRank(AgeOf(d1)) == UnitRank(AgeOf(d2)) ==> AgeOf(d1).n <= AgeOf(d2).n
  {
  }

  function AgeText(a: Age): string
  {
    match a
    case Days(n) => if n == 1 then "1 day ago" else NatToString(n) + " days ago"
    case Weeks(n) => NatToString(n) + " weeks ago"
    case Months(n) => NatToString(n) + " months ago"
  }

  /** "Recently posted" without a date; otherwise the age of the date
      against the clock reading `now`. */
  function FormatPostedDate(postedAt: Option<int>, now: int): (r: string)
    ensures postedAt.None? ==> r == "Recently posted"
    ensures postedAt.Some? ==> r == AgeText(AgeOf(DiffDays(now, postedAt.value)))
  {
    if postedAt.None? then "Recently posted"
    else
      var diffDays := DiffDays(now, postedAt.value);
      if diffDays == 1 then "1 day ago"
      else if diffDays < 7 then NatToString(diffDays) + " days ago"
      else if diffDays < 30 then NatToString(CeilDiv(diffDays, 7)) + " weeks ago"
      else NatToString(CeilDiv(diffDays, 30)) + " months ago"
  }

  /** A date as far in the future reads the same as one in the past. */
  lemma PostedDateSymmetric(postedAt: int, now: int)
    ensures FormatPostedDate(Some(postedAt), now) == FormatPostedDate(Some(2 * now - postedAt), now)
  {
    assert Abs(now - postedAt) == Abs(now - (2 * now - postedAt));
  }

  // --------------------------------------------------------------- status

  /** The status badge classes: one colour per status, gray otherwise. */
  function StatusColor(status: string): (r: string)
    ensures r == GRAY_BADGE <==> status !in JOB_STATUS_VALUES
  {
    if status == "active" then "bg-green-100 text-green-800"
    else if status == "expired" then "bg-red-100 text-red-800"
    else if status == "draft" then "bg-yellow-100 text-yellow-800"
    else if status == "filled" then "bg-blue-100 text-blue-800"
    else GRAY_BADGE
  }

  /** The four statuses get four different badges. */
  lemma StatusColorsDistinct(a: string, b: string)
    requires a in JOB_STATUS_VALUES && b in JOB_STATUS_VALUES && a != b
    ensures StatusColor(a) != StatusColor(b)
  {
  }

  /** The status with its first character upper-cased and the rest
      lower-cased. */
  function FormatStatus(status: string): (r: string)
    ensures |r| == |status|
    ensures |status| > 0 ==> r[0] == ToUpperChar(status[0]) && r[1..] == ToLower(status[1..])
  {
    if status == "" then "" else [ToUpperChar(status[0])] + ToLower(status[1..])
  }

  /** The label depends on the letters only, not on their case, and
      formatting a label again changes nothing. */
  lemma {:induction false} FormatStatusIgnoresCase(s: string, t: string)
    requires ToLower(s) == ToLower(t)
    ensures FormatStatus(s) == FormatStatus(t)
    ensures FormatStatus(FormatStatus(s)) == FormatStatus(s)
  {
    if s != "" {
      assert |t| == |s|;
      assert ToLowerChar(s[0]) == ToLowerChar(t[0]) by { assert ToLower(s)[0] == ToLower(t)[0]; }
      assert ToLower(s[1..]) == ToLower(t[1..]) by {
        forall i | 0 <= i < |s| - 1 ensures ToLower(s[1..])[i] == ToLower(t[1..])[i] {
          assert ToLower(s)[i + 1] == ToLower(t)[i + 1];
        }
      }
      var r := FormatStatus(s);
      assert ToLower(r[1..]) == r[1..];
    }
  }

  // ------------------------------------------------------- apply actions

  /** The job the detailed view shows, with the fields its actions use. */
  datatype JobItem = JobItem(id: string, title: string, applyUrl: string, status: string, easyApply: bool)

  /** The apply button is disabled unless the job is active. */
  predicate ApplyDisabled(job: JobItem)
  {
    job.status != "active"
  }

  /** The Apply button, the Easy Apply confirmation and what they send off:
      the pages opened in a new tab and the applications submitted. */
  class ApplyPanel {
    var showApplyConfirmation: bool
    var openedUrls: seq<string>
    var submittedJobIds: seq<string>

    /** The confirmation is only ever up for an active job with an apply URL
        and Easy Apply. */
    predicate Valid(job: JobItem)
      reads this
    {
      showApplyConfirmation ==> job.easyApply && !ApplyDisabled(job) && job.applyUrl != ""
    }

    /** The confirmation renders only when requested and the job has Easy
        Apply. */
    predicate PopupShown(job: JobItem)
      reads this
    {
      showApplyConfirmation && job.easyApply
    }

    constructor ()
      ensures !showApplyConfirmation && openedUrls == [] && submittedJobIds == []
    {
      showApplyConfirmation := false;
      openedUrls := [];
      submittedJobIds := [];
    }

    /** Nothing happens without an apply URL or for a job that is not active;
        otherwise Easy Apply asks for confirmation and any other job opens its
        apply URL. */
    method HandleApplyClick(job: JobItem)
      modifies this
      ensures old(Valid(job)) ==> Valid(job)
      ensures submittedJobIds == old(submittedJobIds)
      ensures job.applyUrl == "" || ApplyDisabled(job) ==>
        showApplyConfirmation == old(showApplyConfirmation) && openedUrls == old(openedUrls)
      ensures job.applyUrl != "" && !ApplyDisabled(job) && job.easyApply ==>
        showApplyConfirmation && openedUrls == old(openedUrls)
      ensures job.applyUrl != "" && !ApplyDisabled(job) && !job.easyApply ==>
        showApplyConfirmation == old(showApplyConfirmation) && openedUrls == old(openedUrls) + [job.applyUrl]
    ensures PopupShown(job) <==> job.easyApply && (old(showApplyConfirmation) || (job.applyUrl != "" && !ApplyDisabled(job)))
    {
      if job.applyUrl == "" || job.status != "active" {
        return;
      }
      if job.easyApply {
        showApplyConfirmation := true;
      } else {
        openedUrls := openedUrls + [job.applyUrl];
      }
    }

    /** Confirming submits an application for the job and closes the popup. */
    method HandleConfirmEasyApply(job: JobItem)
      modifies this
      ensures submittedJobIds == old(submittedJobIds) + [job.id]
      ensures !showApplyConfirmation && openedUrls == old(openedUrls)
      ensures Valid(job) && !PopupShown(job)
    {
      submittedJobIds := submittedJobIds + [job.id];
      showApplyConfirmation := false;
    }

    /** Cancelling only closes the popup. */
    method HandleCancelEasyApply(job: JobItem)
      modifies this
      ensures !showApplyConfirmation
      ensures openedUrls == old(openedUrls) && submittedJobIds == old(submittedJobIds)
      ensures Valid(job) && !PopupShown(job)
    {
      showApplyConfirmation := false;
    }
  }
}

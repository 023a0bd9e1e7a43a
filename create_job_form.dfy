/** The recruiter's "Create New Job Post" form: which fields it requires,
    the apply-URL pattern, and how the skills text becomes a list before
    the form hands its data on. */
module CreateJobForm {
  import opened Wrappers
  import opened Strings
  import opened FormRules

  /** A number input read with `valueAsNumber`: a number, or NaN when the
      input is left empty. */
  datatype NumberInput = Number(value: int) | NotANumber

  /** The form's values as the inputs hold them. */
  datatype FormData = FormData(
    title: string, descriptionMarkdown: string, location: string, jobType: string,
    salaryMin: NumberInput, salaryMax: NumberInput, salaryCurrency: string,
    applyUrl: string, status: string, expiresAt: string, easyApply: bool,
    skills: string)

  /** The data handed on, with the skills as a list. */
  datatype SubmittedData = SubmittedData(
    title: string, descriptionMarkdown: string, location: string, jobType: string,
    salaryMin: NumberInput, salaryMax: NumberInput, salaryCurrency: string,
    applyUrl: string, status: string, expiresAt: string, easyApply: bool,
    skills: seq<string>)

  // --------------------------------------------------------------- skills

  /** Every piece of `s` split at commas, trimmed; nothing for empty text. */
  function SkillList(s: string): (r: seq<string>)
    ensures s == "" ==> r == []
    ensures s != "" ==> |r| == CountChar(s, ',') + 1
    ensures s != "" ==> forall i :: 0 <= i < |r| ==> r[i] == Trim(Split(s, ',')[i])
    ensures forall i :: 0 <= i < |r| ==> ',' !in r[i]
    ensures forall i :: 0 <= i < |r| ==> r[i] == [] || (!IsJsWhitespace(r[i][0]) && !IsJsWhitespace(r[i][|r[i]| - 1]))
  {
    if s == "" then []
    else
      var parts := Split(s, ',');
      var r := seq(|parts|, i requires 0 <= i < |parts| => Trim(parts[i]));
      assert forall i :: 0 <= i < |r| ==> ',' !in r[i] by {
        forall i | 0 <= i < |r| ensures ',' !in r[i] {
          TrimInside(parts[i], ',');
        }
      }
      r
  }

  /** Trimming keeps only characters of the input. */
  lemma TrimInside(s: string, c: char)
    requires c !in s
    ensures c !in Trim(s)
  {
    var r, k := Trim(s), TrimOffset(s);
    forall i | 0 <= i < |r| ensures r[i] != c {
      assert r[i] == s[k + i];
    }
  }

  /** Replaces the skills text by the skill list and keeps every other
      field as it is. */
  function TransformAndSubmit(d: FormData): (r: SubmittedData)
    ensures r.skills == SkillList(d.skills)
    ensures r == SubmittedData(d.title, d.descriptionMarkdown, d.location, d.jobType,
      d.salaryMin, d.salaryMax, d.salaryCurrency, d.applyUrl, d.status, d.expiresAt,
      d.easyApply, r.skills)
  {
    SubmittedData(d.title, d.descriptionMarkdown, d.location, d.jobType,
      d.salaryMin, d.salaryMax, d.salaryCurrency, d.applyUrl, d.status, d.expiresAt,
      d.easyApply, SkillList(d.skills))
  }

  /** Joining the untrimmed pieces back with commas gives the skills text:
      the split itself loses nothing but the commas. */
  lemma SkillsSplitLosesNothing(s: string)
    ensures Join(Split(s, ','), ',') == s
  {
    JoinSplit(s, ',');
  }

  // ----------------------------------------------------------- apply URL

  /** One or more characters, none of them a space or a double quote. */
  predicate UrlRest(s: string)
  {
    |s| >= 1 && forall i :: 0 <= i < |s| ==> s[i] != ' ' && s[i] != '"'
  }

  /** `^(ftp|http|https):\/\/[^ "]+$`. */
  predicate ApplyUrlPattern(s: string)
  {
    || (|s| >= 6 && s[..6] == "ftp://" && UrlRest(s[6..]))
    || (|s| >= 7 && s[..7] == "http://" && UrlRest(s[7..]))
    || (|s| >= 8 && s[..8] == "https://" && UrlRest(s[8..]))
  }

  const URL_SCHEMES: seq<string> := ["ftp", "http", "https"]

  /** Any of the schemes, `://` and a blank-free rest is accepted. */
  lemma ApplyUrlAccepts(scheme: string, rest: string)
    requires scheme in URL_SCHEMES && UrlRest(rest)
    ensures ApplyUrlPattern(scheme + "://" + rest)
  {
    var s := scheme + "://" + rest;
    assert s[|scheme| + 3..] == rest;
  }

  /** An accepted URL holds no space and no double quote, and is at least
      as long as `ftp://` and one more character. */
  lemma {:induction false} ApplyUrlBlankFree(s: string)
    requires ApplyUrlPattern(s)
    ensures ' ' !in s && '"' !in s
    ensures |s| >= 7
  {
    var k := if s[..6] == "ftp://" then 6 else if |s| >= 7 && s[..7] == "http://" then 7 else 8;
    assert UrlRest(s[k..]);
    assert s[..k] in ["ftp://", "http://", "https://"];
    forall i | 0 <= i < |s| ensures s[i] != ' ' && s[i] != '"' {
      if i < k {
        assert s[i] == s[..k][i];
      } else {
        assert s[i] == s[k..][i - k];
      }
    }
  }

  // ----------------------------------------------------------- validation

  /** The messages shown under the fields, in form order: six fields are
      required and the apply URL must also match the pattern. */
  function Validate(d: FormData): (r: seq<FieldError>)
    ensures r == [] <==>
      (&& d.title != "" && d.descriptionMarkdown != "" && d.location != ""
       && d.jobType != "" && ApplyUrlPattern(d.applyUrl) && d.status != "")
  {
    Required("title", d.title, "Job Title is required")
    + Required("descriptionMarkdown", d.descriptionMarkdown, "Job Description is required")
    + Required("location", d.location, "Location is required")
    + Required("jobType", d.jobType, "Job Type is required")
    + RequiredPattern("applyUrl", d.applyUrl, ApplyUrlPattern(d.applyUrl),
        "Application URL is required", "Invalid URL format")
    + Required("status", d.status, "Status is required")
  }

  /** The salaries, the currency, the expiry date, Easy Apply and the skills
      are not checked: changing them never changes the messages. */
  lemma OptionalFieldsUnchecked(d: FormData, salaryMin: NumberInput, salaryMax: NumberInput,
      salaryCurrency: string, expiresAt: string, easyApply: bool, skills: string)
    ensures Validate(d) == Validate(d.(salaryMin := salaryMin, salaryMax := salaryMax,
      salaryCurrency := salaryCurrency, expiresAt := expiresAt, easyApply := easyApply, skills := skills))
  {
  }

  /** Submitting the form. The `<form>` does not switch off the browser's
      own constraint checks, so a non-empty apply URL that the browser
      does not parse as a URL (`urlValid` false) stops the submit before
      react-hook-form runs. Otherwise the form hands its data on only when
      no message is shown. */
  function HandleSubmit(d: FormData, urlValid: bool): (r: Option<SubmittedData>)
    ensures r.Some? <==> (d.applyUrl == "" || urlValid) && Validate(d) == []
    ensures r.Some? ==> r.value == TransformAndSubmit(d)
  {
    if d.applyUrl != "" && !urlValid then None
    else if Validate(d) == [] then Some(TransformAndSubmit(d)) else None
  }
}

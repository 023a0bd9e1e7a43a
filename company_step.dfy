/** The "Company Information" onboarding step: the rules on the company
    name and website, and a submit that only moves on. */
module CompanyStep {
  import opened Wrappers
  import opened Strings
  import opened FormRules
  import OnboardingStore
  import RecruiterProfileModal

  datatype FormData = FormData(companyName: string, companyWebsite: string)

  /** A character of `[-a-zA-Z0-9@:%._+~#=]`. */
  predicate HostChar(c: char)
  {
    IsAsciiAlnum(c) || c in "-@:%._+~#="
  }

  /** A character of `[a-zA-Z0-9()]`. */
  predicate TldChar(c: char)
  {
    IsAsciiAlnum(c) || c == '(' || c == ')'
  }

  /** A character of `[-a-zA-Z0-9()@:%_+.~#?&//=]`. */
  predicate PathChar(c: char)
  {
    IsAsciiAlnum(c) || c in "-()@:%_+.~#?&/="
  }

  /** `\b` at position `j`: exactly one of the characters either side of
      it is a word character. */
  predicate WordBoundary(s: string, j: int)
    requires 0 < j <= |s|
  {
    IsWordChar(s[j - 1]) != (j < |s| && IsWordChar(s[j]))
  }

  /** One way `^(www\.)?[-a-zA-Z0-9@:%._+~#=]{1,256}\.[a-zA-Z0-9()]{1,6}\b([-a-zA-Z0-9()@:%_+.~#?&//=]*)$`
      can match `s`: the optional `www.` ends at `w`, the host runs up to
      the dot at `i`, the top-level part up to `j`, and the path takes the
      rest. */
  predicate MatchAt(s: string, w: int, i: int, j: int)
  {
    && 0 <= w < i < j <= |s|
    && (w == 0 || (w == 4 && s[..4] == "www."))
    && i - w <= 256
    && (forall k :: w <= k < i ==> HostChar(s[k]))
    && s[i] == '.'
    && i + 1 < j <= i + 7
    && (forall k :: i < k < j ==> TldChar(s[k]))
    && WordBoundary(s, j)
    && (forall k :: j <= k < |s| ==> PathChar(s[k]))
  }

  /** The website rule of the step, as written. */
  predicate WebsitePattern(s: string)
  {
    exists w, i, j | 0 <= w < i < j <= |s| :: MatchAt(s, w, i, j)
  }

  /** The placeholder the website input shows. */
  const PLACEHOLDER := "https://www.example.com"

  lemma PlaceholderSplit()
    ensures PLACEHOLDER == "https://" + "www.example.com"
  {
  }

  /** No value can match that has a `/` with no dot in front of it: the
      host cannot reach across the slash, and its dot must come before it.
      */
  lemma NoDotBeforeSlash(s: string, m: int)
    requires 0 <= m < |s| && s[m] == '/' && '.' !in s[..m]
    requires |s| >= 4 && s[..4] != "www."
    ensures !WebsitePattern(s)
  {
    assert forall k :: 0 <= k < m ==> s[k] == s[..m][k];
    forall w, i, j ensures !MatchAt(s, w, i, j) {
    }
  }

  /** A website written with its scheme never matches: `/` is not a host
      character and the scheme has no dot. */
  lemma SchemeNeverMatches(rest: string)
    ensures !WebsitePattern("https://" + rest)
    ensures !WebsitePattern("http://" + rest)
  {
    var s, t := "https://" + rest, "http://" + rest;
    assert s[..6] == "https:" && s[..4] == "http" && s[6] == '/';
    assert t[..5] == "http:" && t[..4] == "http" && t[5] == '/';
    NoDotBeforeSlash(s, 6);
    NoDotBeforeSlash(t, 5);
  }

  /** The placeholder is such a website. */
  lemma PlaceholderNeverMatches()
    ensures !WebsitePattern(PLACEHOLDER)
  {
    SchemeNeverMatches("www.example.com");
    PlaceholderSplit();
  }

  /** A website without the scheme is accepted, with or without a path. */
  lemma ExamplesAccepted()
    ensures WebsitePattern("www.example.com")
    ensures WebsitePattern("example.com/jobs")
  {
    WwwExample();
    PathExample();
  }

  lemma WwwExample()
    ensures WebsitePattern("www.example.com")
  {
    assert MatchAt("www.example.com", 4, 11, 15);
  }

  lemma PathExample()
    ensures WebsitePattern("example.com/jobs")
  {
    assert MatchAt("example.com/jobs", 0, 7, 11);
  }

  /** The step and the profile modal keep different rules for the same
      value: the modal takes the placeholder, which the step rejects, and
      the step takes an `@` in the host, which the modal rejects. */
  lemma WebsiteRulesDisagree()
    ensures RecruiterProfileModal.WebsitePattern(PLACEHOLDER) && !WebsitePattern(PLACEHOLDER)
    ensures WebsitePattern("a@b.com") && !RecruiterProfileModal.WebsitePattern("a@b.com")
  {
    PlaceholderNeverMatches();
    RecruiterProfileModal.WwwSchemeExample();
    AtSignAccepted();
    ModalRejectsAtSign();
  }

  lemma AtSignAccepted()
    ensures WebsitePattern("a@b.com")
  {
    assert MatchAt("a@b.com", 0, 3, 7);
  }

  lemma ModalRejectsAtSign()
    ensures !RecruiterProfileModal.WebsitePattern("a@b.com")
  {
    forall p, w, i, j ensures !RecruiterProfileModal.MatchAt("a@b.com", p, w, i, j) {
      ModalRejectsAt(p, w, i, j);
    }
  }

  lemma ModalRejectsAt(p: int, w: int, i: int, j: int)
    ensures !RecruiterProfileModal.MatchAt("a@b.com", p, w, i, j)
  {
    var s := "a@b.com";
    assert s[1] == '@' && s[..4] != "www." && |s| < 8;
  }

  // ------------------------------------------------------------- finding

  /** The rule as its placeholder suggests it: the same pattern behind an
      optional `http://` or `https://`. */
  predicate WebsitePatternWithScheme(s: string)
  {
    || WebsitePattern(s)
    || (|s| >= 7 && s[..7] == "http://" && WebsitePattern(s[7..]))
    || (|s| >= 8 && s[..8] == "https://" && WebsitePattern(s[8..]))
  }

  /** The corrected rule accepts the placeholder. */
  lemma SchemeRuleAcceptsPlaceholder()
    ensures WebsitePatternWithScheme(PLACEHOLDER)
  {
    WwwExample();
    SchemeRuleExtends("www.example.com");
    PlaceholderSplit();
  }

  /** The corrected rule keeps everything the rule as written accepts, and
      adds a scheme in front of any of it. */
  lemma SchemeRuleExtends(s: string)
    requires WebsitePattern(s)
    ensures WebsitePatternWithScheme(s)
    ensures WebsitePatternWithScheme("https://" + s) && WebsitePatternWithScheme("http://" + s)
  {
    assert ("https://" + s)[..8] == "https://" && ("https://" + s)[8..] == s;
    assert ("http://" + s)[..7] == "http://" && ("http://" + s)[7..] == s;
  }

  // ------------------------------------------------------------ the form

  /** The messages under the fields: the company name needs at least two
      characters, and the website is required and must match the rule. */
  function Validate(d: FormData): (r: seq<FieldError>)
    ensures r == [] <==> |d.companyName| >= 2 && WebsitePattern(d.companyWebsite)
    ensures |r| <= 2
  {
    RequiredMinLength("companyName", d.companyName, 2, "Company name is required", "Company name must be at least 2 characters")
    + RequiredPattern("companyWebsite", d.companyWebsite, WebsitePattern(d.companyWebsite), "Company website is required",
        "Please enter a valid website URL")
  }

  /** The submit: when no message is shown the layout is asked for the
      next step; the company data goes nowhere else. */
  function OnValidSubmit(d: FormData): (r: Option<OnboardingStore.Move>)
    ensures r.Some? <==> Validate(d) == []
    ensures r.Some? ==> r.value == OnboardingStore.Forward
  {
    if Validate(d) == [] then Some(OnboardingStore.Forward) else None
  }

  /** Entering the website the way the placeholder shows it always keeps
      the step from moving on. */
  lemma PlaceholderBlocksSubmit(companyName: string)
    ensures OnValidSubmit(FormData(companyName, PLACEHOLDER)).None?
  {
    PlaceholderNeverMatches();
  }

  /** Which valid data is entered makes no difference to the outcome. */
  lemma SubmitIgnoresData(d: FormData, e: FormData)
    requires Validate(d) == [] && Validate(e) == []
    ensures OnValidSubmit(d) == OnValidSubmit(e)
  {
  }
}

/** The "Edit Company Information" modal: its starting values, the rules on
    the company name and website, and its submit. */
module RecruiterProfileModal {
  import opened Wrappers
  import opened Strings
  import opened FormRules

  /** The recruiter profile the modal is opened with; both values may be
      null. */
  datatype InitialData = InitialData(companyName: Option<string>, companyWebsite: Option<string>)

  /** The values the inputs hold, which are also what the submit hands on. */
  datatype FormData = FormData(companyName: string, companyWebsite: string)

  /** The starting values, used when the form is created and when it is
      reset on opening: `value || ''` turns null into `''`. */
  function DefaultValues(initial: InitialData): (r: FormData)
    ensures r.companyName == "" <==> initial.companyName.None? || initial.companyName == Some("")
    ensures r.companyName != "" ==> initial.companyName == Some(r.companyName)
    ensures r.companyWebsite == "" <==> initial.companyWebsite.None? || initial.companyWebsite == Some("")
    ensures r.companyWebsite != "" ==> initial.companyWebsite == Some(r.companyWebsite)
  {
    FormData(initial.companyName.GetOr(""), initial.companyWebsite.GetOr(""))
  }

  // ------------------------------------------------------ website pattern

  /** A character of `[a-zA-Z0-9-]`. */
  predicate LabelChar(c: char)
  {
    IsAsciiAlnum(c) || c == '-'
  }

  /** A character of `[a-zA-Z0-9-.]`. */
  predicate HostChar(c: char)
  {
    LabelChar(c) || c == '.'
  }

  /** One way `^(https?:\/\/)?(www\.)?[a-zA-Z0-9-]+\.[a-zA-Z0-9-.]+(?:\/[^/]*)*\/?$`
      can match `s`: the scheme ends at `p`, the optional `www.` at `w`,
      the label runs up to the dot at `i`, the rest of the host up to `j`,
      and from `j` on the path groups take the rest. */
  predicate MatchAt(s: string, p: int, w: int, i: int, j: int)
  {
    && 0 <= p <= w < i < j <= |s|
    && (p == 0 || (p == 7 && s[..7] == "http://") || (p == 8 && s[..8] == "https://"))
    && (w == p || (w == p + 4 && s[p..w] == "www."))
    && (forall k :: w <= k < i ==> LabelChar(s[k]))
    && s[i] == '.'
    && i + 1 < j
    && (forall k :: i < k < j ==> HostChar(s[k]))
    && PathGroups(s[j..])
  }

  /** What `(?:\/[^/]*)*\/?` matches: nothing, or a string that starts
      with a slash (cut before each slash it is a run of slash-led
      groups, see `GroupsSplit`). */
  predicate PathGroups(t: string)
  {
    t == [] || t[0] == '/'
  }

  /** The website rule of the modal. */
  predicate WebsitePattern(s: string)
  {
    exists p, w, i, j | 0 <= p <= w < i < j <= |s| :: MatchAt(s, p, w, i, j)
  }

  /** One `\/[^/]*`: a slash and no further slash. */
  predicate Group(g: string)
  {
    |g| >= 1 && g[0] == '/' && '/' !in g[1..]
  }

  function Concat(gs: seq<string>): string
  {
    if gs == [] then [] else gs[0] + Concat(gs[1..])
  }

  /** A slash-led string cut before every slash. */
  function Groups(t: string): seq<string>
    requires PathGroups(t)
    decreases |t|
  {
    if t == [] then []
    else match IndexOf(t[1..], '/')
      case None => [t]
      case Some(k) => [t[..k + 1]] + Groups(t[k + 1..])
  }

  /** The cut gives groups of the kind `\/[^/]*` that together make up the
      string, so `PathGroups` holds of every string `(?:\/[^/]*)*\/?`
      matches and, by `GroupsArePathGroups`, of no other. */
  lemma {:induction false} GroupsSplit(t: string)
    requires PathGroups(t)
    ensures forall g | g in Groups(t) :: Group(g)
    ensures Concat(Groups(t)) == t
  {
    GroupsAreGroups(t);
    GroupsConcat(t);
  }

  lemma {:induction false} GroupsAreGroups(t: string)
    requires PathGroups(t)
    ensures forall g | g in Groups(t) :: Group(g)
    decreases |t|
  {
    if t != [] {
      match IndexOf(t[1..], '/')
      case None =>
        assert Groups(t) == [t];
      case Some(k) =>
        assert Groups(t) == [t[..k + 1]] + Groups(t[k + 1..]);
        GroupsAreGroups(t[k + 1..]);
        HeadGroup(t, k);
    }
  }

  lemma {:induction false} GroupsConcat(t: string)
    requires PathGroups(t)
    ensures Concat(Groups(t)) == t
    decreases |t|
  {
    if t != [] {
      match IndexOf(t[1..], '/')
      case None =>
        assert Groups(t) == [t];
        assert Concat([t]) == t + Concat([]);
      case Some(k) =>
        GroupsConcat(t[k + 1..]);
        GroupsConcatStep(t, k);
    }
  }

  /** One step of `GroupsConcat`: the first group, then the rest. */
  lemma GroupsConcatStep(t: string, k: nat)
    requires t != [] && t[0] == '/' && IndexOf(t[1..], '/') == Some(k)
    requires Concat(Groups(t[k + 1..])) == t[k + 1..]
    ensures Concat(Groups(t)) == t
  {
    assert k + 1 < |t|;
    var head, rest := t[..k + 1], t[k + 1..];
    var gs := Groups(rest);
    assert Groups(t) == [head] + gs;
    ConcatCons(head, gs);
    CutAndJoin(t, k + 1);
  }

  lemma CutAndJoin(t: string, n: nat)
    requires n <= |t|
    ensures t[..n] + t[n..] == t
  {
  }

  /** The part before the second slash is one group. */
  lemma HeadGroup(t: string, k: nat)
    requires |t| >= 1 && t[0] == '/' && k < |t| - 1 && '/' !in t[1..][..k]
    ensures Group(t[..k + 1])
  {
    assert t[..k + 1][1..] == t[1..][..k];
  }

  lemma ConcatCons(g: string, gs: seq<string>)
    ensures Concat([g] + gs) == g + Concat(gs)
  {
    assert ([g] + gs)[1..] == gs;
  }

  /** The converse: a run of such groups is empty or starts with a slash. */
  lemma GroupsArePathGroups(gs: seq<string>)
    requires forall g | g in gs :: Group(g)
    ensures PathGroups(Concat(gs))
  {
    if gs != [] {
      assert gs[0] in gs;
      assert Concat(gs)[0] == gs[0][0];
    }
  }

  // ------------------------------------------------------------ examples

  /** The three examples the error message offers are all accepted. */
  lemma ExamplesAccepted()
    ensures WebsitePattern("example.com")
    ensures WebsitePattern("www.example.com")
    ensures WebsitePattern("https://example.com")
  {
    BareExample();
    WwwExample();
    SchemeExample();
  }

  lemma BareExample()
    ensures WebsitePattern("example.com")
  {
    BareMatch();
  }

  lemma WwwExample()
    ensures WebsitePattern("www.example.com")
  {
    WwwMatch();
  }

  lemma SchemeExample()
    ensures WebsitePattern("https://example.com")
  {
    BareMatch();
    SchemeAdded("example.com", 0, 7, 11);
    SchemeSplit();
  }

  /** `https://www.example.com` is accepted too. */
  lemma WwwSchemeExample()
    ensures WebsitePattern("https://www.example.com")
  {
    WwwMatch();
    SchemeAdded("www.example.com", 4, 11, 15);
    SchemeSplit();
  }

  lemma BareMatch()
    ensures MatchAt("example.com", 0, 0, 7, 11)
  {
  }

  lemma WwwMatch()
    ensures MatchAt("www.example.com", 0, 4, 11, 15)
  {
  }

  lemma SchemeSplit()
    ensures "https://example.com" == "https://" + "example.com"
    ensures "https://www.example.com" == "https://" + "www.example.com"
  {
  }

  /** A match without a scheme stays a match with `https://` in front. */
  lemma SchemeAdded(s: string, w: int, i: int, j: int)
    requires MatchAt(s, 0, w, i, j)
    ensures MatchAt("https://" + s, 8, w + 8, i + 8, j + 8)
    ensures WebsitePattern("https://" + s)
  {
    var t := "https://" + s;
    assert t[..8] == "https://";
    assert forall k :: 0 <= k < |s| ==> t[k + 8] == s[k];
    assert t[w + 8..][..0] == [];
    if w == 4 {
      assert t[8..12] == s[..4];
    }
    assert t[j + 8..] == s[j..];
    assert MatchAt(t, 8, w + 8, i + 8, j + 8);
  }

  /** Every accepted website has a dot right after a letter, a digit or a
      `-`. */
  lemma DotFollowsLabel(s: string)
    requires WebsitePattern(s)
    ensures exists i :: 0 < i < |s| && s[i] == '.' && LabelChar(s[i - 1])
  {
    var p, w, i, j :| 0 <= p <= w < i < j <= |s| && MatchAt(s, p, w, i, j);
    assert LabelChar(s[i - 1]);
  }

  /** A value with no dot, or with a dot where the first label should
      start, is rejected. */
  lemma NeedsLabelBeforeDot(s: string)
    ensures '.' !in s ==> !WebsitePattern(s)
    ensures |s| >= 1 && s[0] == '.' ==> !WebsitePattern(s)
  {
    if WebsitePattern(s) {
      var p, w, i, j :| 0 <= p <= w < i < j <= |s| && MatchAt(s, p, w, i, j);
      assert s[i] == '.';
      FirstLabelChar(s, p, w, i, j);
    }
  }

  /** The first character of a match's label is a label character. */
  lemma FirstLabelChar(s: string, p: int, w: int, i: int, j: int)
    requires MatchAt(s, p, w, i, j)
    ensures LabelChar(s[w])
    ensures w == 0 || s[0] == 'h' || s[0] == 'w'
  {
    if w > 0 {
      if p == 0 {
        assert s[..4] == "www.";
        assert s[0] == s[..4][0];
      } else {
        assert s[0] == s[..p][0];
      }
    }
  }

  // ----------------------------------------------------------- the form

  const WEBSITE_MESSAGE := "Please enter a valid website URL (e.g., example.com, www.example.com, or https://example.com)"

  /** The messages under the fields: the company name needs at least two
      characters and the website is required and must match the pattern. */
  function Validate(d: FormData): (r: seq<FieldError>)
    ensures r == [] <==> |d.companyName| >= 2 && WebsitePattern(d.companyWebsite)
    ensures |r| <= 2
  {
    RequiredMinLength("companyName", d.companyName, 2, "Company name is required", "Company name must be at least 2 characters")
    + RequiredPattern("companyWebsite", d.companyWebsite, WebsitePattern(d.companyWebsite), "Company website is required",
        WEBSITE_MESSAGE)
  }

  /** The submit hands the values to `onSave` unchanged, and only when no
      message is shown. */
  function OnSubmit(d: FormData): (r: Option<FormData>)
    ensures r.Some? <==> Validate(d) == []
    ensures r.Some? ==> r.value == d
  {
    if Validate(d) == [] then Some(d) else None
  }

  /** Opening the modal on a profile with a valid name and website and
      saving at once hands back the same two values. */
  lemma SaveUnchanged(name: string, website: string)
    requires |name| >= 2 && WebsitePattern(website)
    ensures OnSubmit(DefaultValues(InitialData(Some(name), Some(website)))) == Some(FormData(name, website))
  {
  }

  /** A profile with no website cannot be saved from the modal as it opens. */
  lemma MissingWebsiteBlocksSave(initial: InitialData)
    requires initial.companyWebsite.None?
    ensures OnSubmit(DefaultValues(initial)).None?
    ensures Validate(DefaultValues(initial))[|Validate(DefaultValues(initial))| - 1]
      == FieldError("companyWebsite", "Company website is required")
  {
  }
}

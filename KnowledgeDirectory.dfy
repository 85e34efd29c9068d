/** The expert directory: the search box, the department selector, and the avatar
    initials, availability badge and expertise row of each expert card. */
module KnowledgeDirectory {
  import opened Text
  import opened Lists

  datatype Expert = Expert(
    id: nat,
    name: string,
    title: string,
    department: string,
    email: string,
    phone: string,
    location: string,
    expertise: seq<string>,
    responseTime: string,
    availability: string,
    bio: string)

  /** The selector value that imposes no constraint. */
  const All: string := "all"

  // ---------------------------------------------------------------------------
  // The filter

  /** The search term, lower-cased, occurs in the lower-cased name, an expertise entry or
      the department. */
  predicate MatchesSearch(expert: Expert, term: string)
    ensures term == "" ==> MatchesSearch(expert, term)
    ensures MatchesSearch(expert, term) && expert.expertise == [] ==>
      Contains(ToLower(expert.name), ToLower(term)) || Contains(ToLower(expert.department), ToLower(term))
  {
    var q := ToLower(term);
    || Contains(ToLower(expert.name), q)
    || AnyIncludes(expert.expertise, q)
    || Contains(ToLower(expert.department), q)
  }

  /** The lower-cased department contains the selector as it is; unlike the case-study
      page, whitespace is not replaced. */
  predicate MatchesCategory(expert: Expert, category: string)
    ensures category == All ==> MatchesCategory(expert, category)
    ensures category != All && MatchesCategory(expert, category) ==> |category| <= |expert.department|
  {
    category == All || Contains(ToLower(expert.department), category)
  }

  predicate Matches(expert: Expert, term: string, category: string) {
    MatchesSearch(expert, term) && MatchesCategory(expert, category)
  }

  function Criteria(term: string, category: string): Expert -> bool {
    expert => Matches(expert, term, category)
  }

  /** The experts the page shows for the current search term and selector. */
  function FilterExperts(experts: seq<Expert>, term: string, category: string): (r: seq<Expert>)
    ensures forall i :: 0 <= i < |r| ==> r[i] in experts && Matches(r[i], term, category)
    ensures forall i :: 0 <= i < |experts| && Matches(experts[i], term, category) ==> experts[i] in r
  {
    Filter(experts, Criteria(term, category))
  }

  /** The result is exactly the in-order selection of the matching experts. */
  lemma FilterExpertsIsSelection(experts: seq<Expert>, term: string, category: string, r: seq<Expert>)
    ensures r == FilterExperts(experts, term, category)
        <==> IsSubsequence(r, experts) && SelectsExactly(r, experts, Criteria(term, category))
  {
    FilterCharacterized(experts, Criteria(term, category), r);
  }

  /** The fields the search looks at; title, bio, email and location are not among them. */
  function SearchedFields(expert: Expert): seq<string> {
    [expert.name, expert.department] + expert.expertise
  }

  lemma SearchMatchesIff(expert: Expert, term: string)
    ensures MatchesSearch(expert, term)
        <==> exists k, i :: 0 <= k < |SearchedFields(expert)| && OccursAt(ToLower(SearchedFields(expert)[k]), ToLower(term), i)
  {
    var q := ToLower(term);
    var fields := SearchedFields(expert);
    forall k | 0 <= k < |fields| {
      ContainsIffOccurs(ToLower(fields[k]), q);
    }
    assert fields[0] == expert.name && fields[1] == expert.department;
    assert forall k :: 2 <= k < |fields| ==> fields[k] == expert.expertise[k - 2];
    if MatchesSearch(expert, term) {
      var k :| 0 <= k < |fields| && Contains(ToLower(fields[k]), q) by {
        if AnyIncludes(expert.expertise, q) && !Contains(ToLower(expert.name), q) && !Contains(ToLower(expert.department), q) {
          var j :| 0 <= j < |expert.expertise| && Contains(ToLower(expert.expertise[j]), q);
          assert fields[j + 2] == expert.expertise[j];
        }
      }
      var i :| OccursAt(ToLower(fields[k]), q, i);
    } else {
      forall k | 2 <= k < |fields| ensures !Contains(ToLower(fields[k]), q) {
        assert fields[k] == expert.expertise[k - 2];
      }
    }
  }

  /** With an empty term and the selector on "all", every expert is shown. */
  lemma EmptyQueryShowsAll(experts: seq<Expert>)
    ensures FilterExperts(experts, "", All) == experts
  {
    forall i | 0 <= i < |experts| ensures Matches(experts[i], "", All) {
      ContainsEmpty(ToLower(experts[i].name));
    }
    FilterKeepsAll(experts, Criteria("", All));
  }

  /** Two terms that differ only in letter case give the same result. */
  lemma SearchIgnoresCase(experts: seq<Expert>, term1: string, term2: string, category: string)
    requires ToLower(term1) == ToLower(term2)
    ensures FilterExperts(experts, term1, category) == FilterExperts(experts, term2, category)
  {
    FilterCongruent(experts, Criteria(term1, category), Criteria(term2, category));
  }

  lemma FilterExpertsIdempotent(experts: seq<Expert>, term: string, category: string)
    ensures var r := FilterExperts(experts, term, category);
            FilterExperts(r, term, category) == r
  {
    FilterIdempotent(experts, Criteria(term, category));
  }

  /** "No experts found" is shown exactly when no expert matches. */
  lemma NoResultsIff(experts: seq<Expert>, term: string, category: string)
    ensures |FilterExperts(experts, term, category)| == 0
        <==> forall i :: 0 <= i < |experts| ==> !Matches(experts[i], term, category)
  {
    FilterEmptyIff(experts, Criteria(term, category));
  }

  /** A selector other than "all" matches when it occurs, verbatim, in the lower-cased
      department. */
  lemma SelectorMatchesIff(expert: Expert, category: string)
    ensures category != All ==>
      (MatchesCategory(expert, category) <==> exists i :: OccursAt(ToLower(expert.department), category, i))
  {
    ContainsIffOccurs(ToLower(expert.department), category);
  }

  /** The selector is compared as given: one holding an upper-case letter matches no expert. */
  lemma SelectorIsCaseSensitive(expert: Expert, category: string)
    ensures category != All && !NoUpper(category) ==> !MatchesCategory(expert, category)
  {
    ToLowerFolds(expert.department);
    if category != All && !NoUpper(category) {
      ContainsNoUpper(ToLower(expert.department), category);
    }
  }

  // ---------------------------------------------------------------------------
  // Card helpers

  const AvailableStyle: string := "text-success"
  const BusyStyle: string := "text-warning"
  const AwayStyle: string := "text-destructive"
  const UnknownStyle: string := "text-muted-foreground"

  /** The availability badge colour: one per known state, a fallback for everything else. */
  function AvailabilityColor(availability: string): (style: string)
    ensures style == AvailableStyle <==> availability == "Available"
    ensures style == BusyStyle <==> availability == "Busy"
    ensures style == AwayStyle <==> availability == "Away"
    ensures style == UnknownStyle <==> availability !in {"Available", "Busy", "Away"}
  {
    match availability
    case "Available" => AvailableStyle
    case "Busy" => BusyStyle
    case "Away" => AwayStyle
    case _ => UnknownStyle
  }

  /** The expertise row of a card: the first four entries, then "+N more" for the rest. */
  function ExpertisePreview(expert: Expert): (p: Preview<string>)
    ensures p.shown <= expert.expertise
    ensures |p.shown| == if |expert.expertise| < 4 then |expert.expertise| else 4
    ensures |expert.expertise| <= 4 ==> p.shown == expert.expertise
    ensures p.moreBadge.Some? <==> |expert.expertise| > 4
    ensures p.moreBadge.Some? ==> p.moreBadge.value == |expert.expertise| - 4
  {
    Truncate(expert.expertise, 4)
  }

  /** The first character of each piece; an empty piece has no first character and
      contributes nothing to the joined string. */
  function Firsts(pieces: seq<string>): (r: string)
    ensures |r| <= |pieces|
    ensures (forall k :: 0 <= k < |pieces| ==> pieces[k] != []) ==>
      |r| == |pieces| && forall k :: 0 <= k < |pieces| ==> r[k] == pieces[k][0]
  {
    if pieces == [] then []
    else (if pieces[0] == [] then [] else [pieces[0][0]]) + Firsts(pieces[1..])
  }

  /** The avatar initials: the name split on ' ', the first character of each piece,
      joined with nothing in between. */
  function Initials(name: string): (r: string)
    ensures |r| <= |name|
    ensures forall i :: 0 <= i < |r| ==> r[i] in name && r[i] != ' '
  {
    InitialsAreWordStarts(name);
    Firsts(Split(name, ' '))
  }

  /** A reference scan of the name: keep each non-space character that begins the name
      or follows a space. */
  function WordStarts(s: string, afterSpace: bool): (r: string)
    ensures |r| <= |s|
    ensures forall i :: 0 <= i < |r| ==> r[i] in s && r[i] != ' '
  {
    if s == [] then []
    else if s[0] == ' ' then WordStarts(s[1..], true)
    else (if afterSpace then [s[0]] else []) + WordStarts(s[1..], false)
  }

  /** The initials are the characters that start a word of the name. The second conclusion
      is what makes the induction go through: the pieces after the first one contribute
      exactly the word starts after the first space. */
  lemma {:induction false} InitialsAreWordStarts(name: string)
    ensures Firsts(Split(name, ' ')) == WordStarts(name, true)
    ensures Firsts(Split(name, ' ')[1..]) == WordStarts(name, false)
  {
    if name != [] {
      var rest := Split(name[1..], ' ');
      InitialsAreWordStarts(name[1..]);
      var parts := Split(name, ' ');
      if name[0] == ' ' {
        assert parts == [[]] + rest;
        assert parts[1..] == rest;
      } else {
        assert parts == [[name[0]] + rest[0]] + rest[1..];
        assert parts[1..] == rest[1..];
      }
    }
  }

  // ---------------------------------------------------------------------------
  // The shipped data

  const SarahChen := Expert(1, "Sarah Chen", "Senior Solutions Architect", "Technology",
    "sarah.chen@company.com", "+1 (555) 123-4567", "San Francisco, CA",
    ["Cloud Architecture", "Microservices", "DevOps", "AWS"], "< 2 hours", "Available",
    "10+ years experience in cloud architecture and distributed systems. Specializes in helping teams migrate to cloud-native solutions.")

  const MarcusJohnson := Expert(2, "Marcus Johnson", "Project Management Director", "Operations",
    "marcus.johnson@company.com", "+1 (555) 234-5678", "New York, NY",
    ["Agile Methodology", "Scrum", "Change Management", "Risk Assessment"], "< 4 hours", "Busy",
    "Certified PMP with 12+ years managing complex enterprise projects. Expert in agile transformation and team optimization.")

  const EmilyRodriguez := Expert(3, "Emily Rodriguez", "HR Business Partner", "Human Resources",
    "emily.rodriguez@company.com", "+1 (555) 345-6789", "Austin, TX",
    ["Employee Relations", "Compliance", "Benefits", "Talent Management"], "< 3 hours", "Available",
    "SHRM-certified HR professional with expertise in employee lifecycle management and regulatory compliance.")

  const DavidKim := Expert(4, "David Kim", "Data Science Lead", "Analytics",
    "david.kim@company.com", "+1 (555) 456-7890", "Seattle, WA",
    ["Machine Learning", "Data Analytics", "Python", "SQL", "Tableau"], "< 6 hours", "Available",
    "PhD in Statistics with 8+ years building ML models and data pipelines. Helps teams leverage data for business insights.")

  const Experts: seq<Expert> := [SarahChen, MarcusJohnson, EmilyRodriguez, DavidKim]

  /** The values the department selector offers. */
  const CategoryOptions: seq<string> := ["all", "technology", "operations", "hr", "analytics", "finance", "legal"]

  predicate KnownDepartment(department: string) {
    department in {"Technology", "Operations", "Human Resources", "Analytics"}
  }

  lemma ShippedDepartments(expert: Expert)
    requires expert in Experts
    ensures KnownDepartment(expert.department)
  {
  }

  /** "Human Resources" lower-cases to "human resources", which does not contain "hr". */
  lemma HumanResourcesLacksHr(s: string)
    requires s == "human resources"
    ensures !Contains(s, "hr")
  {
    NotContainsByEnds(s, "hr");
  }

  lemma LoweredHumanResources(s: string)
    requires s == "Human Resources"
    ensures ToLower(s) == "human resources"
  {
  }

  /** The "hr" option matches none of the shipped departments. */
  lemma OutsideHr(expert: Expert)
    requires KnownDepartment(expert.department)
    ensures !MatchesCategory(expert, CategoryOptions[3])
  {
    var d := ToLower(expert.department);
    if expert.department == "Human Resources" {
      LoweredHumanResources(expert.department);
      HumanResourcesLacksHr(d);
    } else if expert.department == "Operations" {
      assert d == "operations";
      NotContainsMissing(d, CategoryOptions[3], 'h');
    } else {
      assert d == "technology" || d == "analytics";
      NotContainsMissing(d, CategoryOptions[3], 'r');
    }
  }

  /** A word of the name contributes its first character, and only when it starts the
      name or follows a space. */
  lemma {:induction false} WordStartsOfWord(w: string, rest: string, afterSpace: bool)
    requires w != [] && ' ' !in w
    ensures WordStarts(w + rest, afterSpace) == (if afterSpace then [w[0]] else []) + WordStarts(rest, false)
  {
    assert (w + rest)[1..] == w[1..] + rest;
    if |w| > 1 {
      WordStartsOfWord(w[1..], rest, false);
    }
  }

  /** A first name and a last name give two initials, e.g. "Sarah Chen" gives "SC". */
  lemma TwoWordInitials(first: string, last: string)
    requires first != [] && last != [] && ' ' !in first && ' ' !in last
    ensures Initials(first + " " + last) == [first[0], last[0]]
  {
    var name := first + " " + last;
    InitialsAreWordStarts(name);
    assert name == first + (" " + last);
    WordStartsOfWord(first, " " + last, true);
    assert (" " + last)[1..] == last;
    assert WordStarts(" " + last, false) == WordStarts(last, true);
    WordStartsOfWord(last, [], true);
    assert last + [] == last;
  }

  /** The "Human Resources" option (value "hr") shows no expert, whatever the search. */
  lemma HrOptionMatchesNothing(term: string)
    ensures FilterExperts(Experts, term, CategoryOptions[3]) == []
  {
    forall i | 0 <= i < |Experts| ensures !Criteria(term, CategoryOptions[3])(Experts[i]) {
      ShippedDepartments(Experts[i]);
      OutsideHr(Experts[i]);
    }
    FilterEmptyIff(Experts, Criteria(term, CategoryOptions[3]));
  }
}

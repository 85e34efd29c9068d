/** The case-study browser: the search box, the category and industry selectors, the
    difficulty badge and the tag list of each card. */
module CaseStudies {
  import opened Text
  import opened Lists

  datatype CaseStudy = CaseStudy(
    id: nat,
    title: string,
    description: string,
    category: string,
    industry: string,
    author: string,
    dateCreated: string,
    readTime: string,
    tags: seq<string>,
    downloads: nat,
    views: nat,
    difficulty: string,
    keyOutcome: string)

  /** The selector value that imposes no constraint. */
  const All: string := "all"

  // ---------------------------------------------------------------------------
  // The filter

  /** The search term, lower-cased, occurs in the lower-cased title, description or a tag. */
  predicate MatchesSearch(study: CaseStudy, term: string)
    ensures term == "" ==> MatchesSearch(study, term)
    ensures MatchesSearch(study, term) && study.tags == [] ==>
      Contains(ToLower(study.title), ToLower(term)) || Contains(ToLower(study.description), ToLower(term))
  {
    var q := ToLower(term);
    || Contains(ToLower(study.title), q)
    || Contains(ToLower(study.description), q)
    || AnyIncludes(study.tags, q)
  }

  /** The category as the category selector sees it: lower-cased, with each whitespace
      run turned into '-'. */
  function NormalisedCategory(study: CaseStudy): (r: string)
    ensures |r| <= |study.category|
    ensures NoWhitespace(r) && NoUpper(r)
  {
    ToLowerFolds(study.category);
    DashWhitespaceIdempotent(ToLower(study.category));
    var r := DashWhitespace(ToLower(study.category));
    assert NoUpper(r) by {
      forall c | c in r ensures !IsUpper(c) {
        assert c == '-' || c in ToLower(study.category);
      }
    }
    r
  }

  /** The normalised category contains the selector as it is (the selector is not
      lower-cased). */
  predicate MatchesCategory(study: CaseStudy, category: string)
    ensures category == All ==> MatchesCategory(study, category)
    ensures category != All && MatchesCategory(study, category) ==> |category| <= |study.category|
  {
    category == All || Contains(NormalisedCategory(study), category)
  }

  /** The lower-cased industry contains the selector as it is. */
  predicate MatchesIndustry(study: CaseStudy, industry: string)
    ensures industry == All ==> MatchesIndustry(study, industry)
    ensures industry != All && MatchesIndustry(study, industry) ==> |industry| <= |study.industry|
  {
    industry == All || Contains(ToLower(study.industry), industry)
  }

  predicate Matches(study: CaseStudy, term: string, category: string, industry: string) {
    MatchesSearch(study, term) && MatchesCategory(study, category) && MatchesIndustry(study, industry)
  }

  function Criteria(term: string, category: string, industry: string): CaseStudy -> bool {
    study => Matches(study, term, category, industry)
  }

  /** The studies the page shows for the current search term and selectors. */
  function FilterStudies(studies: seq<CaseStudy>, term: string, category: string, industry: string): (r: seq<CaseStudy>)
    ensures forall i :: 0 <= i < |r| ==> r[i] in studies && Matches(r[i], term, category, industry)
    ensures forall i :: 0 <= i < |studies| && Matches(studies[i], term, category, industry) ==> studies[i] in r
  {
    Filter(studies, Criteria(term, category, industry))
  }

  /** The result is exactly the in-order selection of the matching studies. */
  lemma FilterStudiesIsSelection(studies: seq<CaseStudy>, term: string, category: string, industry: string, r: seq<CaseStudy>)
    ensures r == FilterStudies(studies, term, category, industry)
        <==> IsSubsequence(r, studies) && SelectsExactly(r, studies, Criteria(term, category, industry))
  {
    FilterCharacterized(studies, Criteria(term, category, industry), r);
  }

  /** The fields the search looks at; author, industry and key outcome are not among them. */
  function SearchedFields(study: CaseStudy): seq<string> {
    [study.title, study.description] + study.tags
  }

  lemma SearchMatchesIff(study: CaseStudy, term: string)
    ensures MatchesSearch(study, term)
        <==> exists k, i :: 0 <= k < |SearchedFields(study)| && OccursAt(ToLower(SearchedFields(study)[k]), ToLower(term), i)
  {
    var q := ToLower(term);
    var fields := SearchedFields(study);
    forall k | 0 <= k < |fields| {
      ContainsIffOccurs(ToLower(fields[k]), q);
    }
    assert fields[0] == study.title && fields[1] == study.description;
    assert forall k :: 2 <= k < |fields| ==> fields[k] == study.tags[k - 2];
    if MatchesSearch(study, term) {
      var k :| 0 <= k < |fields| && Contains(ToLower(fields[k]), q) by {
        if AnyIncludes(study.tags, q) && !Contains(ToLower(study.title), q) && !Contains(ToLower(study.description), q) {
          var j :| 0 <= j < |study.tags| && Contains(ToLower(study.tags[j]), q);
          assert fields[j + 2] == study.tags[j];
        }
      }
      var i :| OccursAt(ToLower(fields[k]), q, i);
    } else {
      forall k | 2 <= k < |fields| ensures !Contains(ToLower(fields[k]), q) {
        assert fields[k] == study.tags[k - 2];
      }
    }
  }

  /** With an empty term and both selectors "all", every study is shown. */
  lemma EmptyQueryShowsAll(studies: seq<CaseStudy>)
    ensures FilterStudies(studies, "", All, All) == studies
  {
    forall i | 0 <= i < |studies| ensures Matches(studies[i], "", All, All) {
      ContainsEmpty(ToLower(studies[i].title));
    }
    FilterKeepsAll(studies, Criteria("", All, All));
  }

  /** Two terms that differ only in letter case give the same result. */
  lemma SearchIgnoresCase(studies: seq<CaseStudy>, term1: string, term2: string, category: string, industry: string)
    requires ToLower(term1) == ToLower(term2)
    ensures FilterStudies(studies, term1, category, industry) == FilterStudies(studies, term2, category, industry)
  {
    FilterCongruent(studies, Criteria(term1, category, industry), Criteria(term2, category, industry));
  }

  lemma FilterStudiesIdempotent(studies: seq<CaseStudy>, term: string, category: string, industry: string)
    ensures var r := FilterStudies(studies, term, category, industry);
            FilterStudies(r, term, category, industry) == r
  {
    FilterIdempotent(studies, Criteria(term, category, industry));
  }

  /** "No case studies found" is shown exactly when no study matches. */
  lemma NoResultsIff(studies: seq<CaseStudy>, term: string, category: string, industry: string)
    ensures |FilterStudies(studies, term, category, industry)| == 0
        <==> forall i :: 0 <= i < |studies| ==> !Matches(studies[i], term, category, industry)
  {
    FilterEmptyIff(studies, Criteria(term, category, industry));
  }

  /** A selector other than "all" matches when it occurs, verbatim, in the normalised
      category or in the lower-cased industry. */
  lemma SelectorsMatchIff(study: CaseStudy, category: string, industry: string)
    ensures category != All ==>
      (MatchesCategory(study, category) <==> exists i :: OccursAt(NormalisedCategory(study), category, i))
    ensures industry != All ==>
      (MatchesIndustry(study, industry) <==> exists i :: OccursAt(ToLower(study.industry), industry, i))
  {
    ContainsIffOccurs(NormalisedCategory(study), category);
    ContainsIffOccurs(ToLower(study.industry), industry);
  }

  /** Selectors are compared as given: one holding an upper-case letter matches no study. */
  lemma SelectorsAreCaseSensitive(study: CaseStudy, category: string, industry: string)
    ensures category != All && !NoUpper(category) ==> !MatchesCategory(study, category)
    ensures industry != All && !NoUpper(industry) ==> !MatchesIndustry(study, industry)
  {
    ToLowerFolds(study.category);
    ToLowerFolds(study.industry);
    var dashed := NormalisedCategory(study);
    assert NoUpper(dashed) by {
      forall c | c in dashed ensures !IsUpper(c) {
        assert c == '-' || c in ToLower(study.category);
      }
    }
    if category != All && !NoUpper(category) {
      ContainsNoUpper(dashed, category);
    }
    if industry != All && !NoUpper(industry) {
      ContainsNoUpper(ToLower(study.industry), industry);
    }
  }

  // ---------------------------------------------------------------------------
  // Card helpers

  const BeginnerStyle: string := "bg-success/10 text-success"
  const IntermediateStyle: string := "bg-warning/10 text-warning"
  const AdvancedStyle: string := "bg-destructive/10 text-destructive"
  const DefaultStyle: string := "bg-muted text-muted-foreground"

  /** The difficulty badge style: one per known level, a fallback for everything else. */
  function DifficultyColor(difficulty: string): (style: string)
    ensures style == BeginnerStyle <==> difficulty == "Beginner"
    ensures style == IntermediateStyle <==> difficulty == "Intermediate"
    ensures style == AdvancedStyle <==> difficulty == "Advanced"
    ensures style == DefaultStyle <==> difficulty !in {"Beginner", "Intermediate", "Advanced"}
  {
    match difficulty
    case "Beginner" => BeginnerStyle
    case "Intermediate" => IntermediateStyle
    case "Advanced" => AdvancedStyle
    case _ => DefaultStyle
  }

  /** The tag row of a card: the first three tags, then "+N more" for the rest. */
  function TagPreview(study: CaseStudy): (p: Preview<string>)
    ensures p.shown <= study.tags
    ensures |p.shown| == if |study.tags| < 3 then |study.tags| else 3
    ensures |study.tags| <= 3 ==> p.shown == study.tags
    ensures p.moreBadge.Some? <==> |study.tags| > 3
    ensures p.moreBadge.Some? ==> p.moreBadge.value == |study.tags| - 3
  {
    Truncate(study.tags, 3)
  }

  // ---------------------------------------------------------------------------
  // The shipped data

  const CloudMigration := CaseStudy(1,
    "Cloud Migration Strategy for E-commerce Platform",
    "Complete migration from on-premise infrastructure to AWS cloud, resulting in 40% cost reduction and improved scalability.",
    "Technology", "E-commerce", "Sarah Chen", "2024-08-15", "12 min read",
    ["Cloud Migration", "AWS", "Cost Optimization", "Scalability"],
    156, 1240, "Advanced", "40% cost reduction, 99.9% uptime achieved")

  const AgileTransformation := CaseStudy(2,
    "Agile Transformation: From Waterfall to Scrum",
    "Step-by-step guide on transforming a traditional development team to agile methodology, improving delivery speed by 60%.",
    "Project Management", "Software Development", "Marcus Johnson", "2024-07-22", "8 min read",
    ["Agile", "Scrum", "Team Management", "Process Improvement"],
    243, 1890, "Intermediate", "60% faster delivery, improved team satisfaction")

  const OnboardingAutomation := CaseStudy(3,
    "Employee Onboarding Automation Implementation",
    "Automated onboarding process reducing new hire setup time from 3 days to 2 hours using workflow automation tools.",
    "Human Resources", "Technology", "Emily Rodriguez", "2024-09-05", "6 min read",
    ["HR Automation", "Onboarding", "Process Optimization", "Employee Experience"],
    189, 956, "Beginner", "85% reduction in onboarding time")

  const MarketingOptimization := CaseStudy(4,
    "Data-Driven Marketing Campaign Optimization",
    "Using machine learning models to optimize marketing spend and improve ROI by 150% across digital channels.",
    "Data & Analytics", "Marketing", "David Kim", "2024-08-30", "15 min read",
    ["Machine Learning", "Marketing Analytics", "ROI Optimization", "Data Science"],
    298, 2156, "Advanced", "150% improvement in marketing ROI")

  const RemoteWorkPolicy := CaseStudy(5,
    "Remote Work Policy Implementation",
    "Comprehensive guide to implementing remote work policies while maintaining productivity and team collaboration.",
    "Human Resources", "General", "Emily Rodriguez", "2024-06-18", "10 min read",
    ["Remote Work", "Policy Development", "Team Collaboration", "Productivity"],
    512, 3245, "Intermediate", "Maintained 95% productivity with remote work")

  const ApiSecurity := CaseStudy(6,
    "API Security Best Practices Implementation",
    "Implementing comprehensive API security measures including authentication, rate limiting, and monitoring.",
    "Technology", "Fintech", "Sarah Chen", "2024-07-10", "14 min read",
    ["API Security", "Authentication", "Monitoring", "Best Practices"],
    167, 1134, "Advanced", "Zero security incidents in 12 months")

  const Studies: seq<CaseStudy> :=
    [CloudMigration, AgileTransformation, OnboardingAutomation, MarketingOptimization, RemoteWorkPolicy, ApiSecurity]

  /** The values the category selector offers. */
  const CategoryOptions: seq<string> :=
    ["all", "technology", "project-management", "human-resources", "data-analytics", "finance", "marketing"]

  predicate KnownCategory(category: string) {
    category in {"Technology", "Project Management", "Human Resources", "Data & Analytics"}
  }

  lemma ShippedCategories(study: CaseStudy)
    requires study in Studies
    ensures KnownCategory(study.category)
  {
  }

  /** The four categories of the shipped studies, as the category selector sees them. */
  lemma CategorySlugs(study: CaseStudy)
    ensures study.category == "Technology" ==> NormalisedCategory(study) == "technology"
    ensures study.category == "Project Management" ==> NormalisedCategory(study) == "project-management"
    ensures study.category == "Human Resources" ==> NormalisedCategory(study) == "human-resources"
    ensures study.category == "Data & Analytics" ==> NormalisedCategory(study) == "data-&-analytics"
  {
    if study.category == "Technology" {
      NormalisedTechnology(ToLower(study.category));
    } else if study.category == "Project Management" {
      NormalisedProjectManagement(ToLower(study.category));
    } else if study.category == "Human Resources" {
      NormalisedHumanResources(ToLower(study.category));
    } else if study.category == "Data & Analytics" {
      NormalisedDataAndAnalytics(ToLower(study.category));
    }
  }

  lemma NormalisedTechnology(s: string)
    requires s == ToLower("Technology")
    ensures DashWhitespace(s) == "technology"
  {
    LoweredTechnology();
    DashIsolatedWhitespace(s);
  }

  lemma LoweredTechnology()
    ensures NoAdjacentWhitespace(ToLower("Technology"))
    ensures DashEach(ToLower("Technology")) == "technology"
  {
    assert ToLower("Technology") == "technology";
    SingleSpacedTechnology("technology");
    DashedTechnology("technology");
  }

  lemma SingleSpacedTechnology(s: string)
    requires s == "technology"
    ensures NoAdjacentWhitespace(s)
  {
  }

  lemma DashedTechnology(s: string)
    requires s == "technology"
    ensures DashEach(s) == "technology"
  {
  }

  lemma NormalisedProjectManagement(s: string)
    requires s == ToLower("Project Management")
    ensures DashWhitespace(s) == "project-management"
  {
    LoweredProjectManagement();
    DashIsolatedWhitespace(s);
  }

  lemma LoweredProjectManagement()
    ensures NoAdjacentWhitespace(ToLower("Project Management"))
    ensures DashEach(ToLower("Project Management")) == "project-management"
  {
    assert ToLower("Project Management") == "project management";
    SingleSpacedProjectManagement("project management");
    DashedProjectManagement("project management");
  }

  lemma SingleSpacedProjectManagement(s: string)
    requires s == "project management"
    ensures NoAdjacentWhitespace(s)
  {
  }

  lemma DashedProjectManagement(s: string)
    requires s == "project management"
    ensures DashEach(s) == "project-management"
  {
  }

  lemma NormalisedHumanResources(s: string)
    requires s == ToLower("Human Resources")
    ensures DashWhitespace(s) == "human-resources"
  {
    LoweredHumanResources();
    DashIsolatedWhitespace(s);
  }

  lemma LoweredHumanResources()
    ensures NoAdjacentWhitespace(ToLower("Human Resources"))
    ensures DashEach(ToLower("Human Resources")) == "human-resources"
  {
    assert ToLower("Human Resources") == "human resources";
    SingleSpacedHumanResources("human resources");
    DashedHumanResources("human resources");
  }

  lemma SingleSpacedHumanResources(s: string)
    requires s == "human resources"
    ensures NoAdjacentWhitespace(s)
  {
  }

  lemma DashedHumanResources(s: string)
    requires s == "human resources"
    ensures DashEach(s) == "human-resources"
  {
  }

  /** "Data & Analytics" keeps its ampersand: the spaces around it each become '-'. */
  lemma NormalisedDataAndAnalytics(s: string)
    requires s == ToLower("Data & Analytics")
    ensures DashWhitespace(s) == "data-&-analytics"
  {
    LoweredDataAndAnalytics();
    DashIsolatedWhitespace(s);
  }

  lemma LoweredDataAndAnalytics()
    ensures NoAdjacentWhitespace(ToLower("Data & Analytics"))
    ensures DashEach(ToLower("Data & Analytics")) == "data-&-analytics"
  {
    assert ToLower("Data & Analytics") == "data & analytics";
    SingleSpacedDataAndAnalytics("data & analytics");
    DashedDataAndAnalytics("data & analytics");
  }

  lemma SingleSpacedDataAndAnalytics(s: string)
    requires s == "data & analytics"
    ensures NoAdjacentWhitespace(s)
  {
  }

  lemma DashedDataAndAnalytics(s: string)
    requires s == "data & analytics"
    ensures DashEach(s) == "data-&-analytics"
  {
  }

  lemma NotDataAnalytics(s: string)
    requires s == "data-&-analytics"
    ensures !Contains(s, "data-analytics")
  {
    NotContainsByEnds(s, "data-analytics");
  }

  predicate KnownSlug(n: string) {
    n in {"technology", "project-management", "human-resources", "data-&-analytics"}
  }

  lemma KnownSlugOf(study: CaseStudy)
    requires KnownCategory(study.category)
    ensures KnownSlug(NormalisedCategory(study))
    ensures NormalisedCategory(study) == "technology" <==> study.category == "Technology"
  {
    CategorySlugs(study);
  }

  /** No normalised category contains "data-analytics"; "data-&-analytics" comes closest. */
  lemma SlugLacksDataAnalytics(n: string)
    requires KnownSlug(n)
    ensures !Contains(n, "data-analytics")
  {
    if n == "data-&-analytics" {
      NotDataAnalytics(n);
    } else {
      NotContainsMissing(n, "data-analytics", 'd');
    }
  }

  /** The selector's "Data & Analytics" option has the value "data-analytics", while the
      study's category normalises to "data-&-analytics": no shipped study is in it. */
  lemma OutsideDataAnalytics(study: CaseStudy)
    requires KnownCategory(study.category)
    ensures !MatchesCategory(study, CategoryOptions[4])
  {
    KnownSlugOf(study);
    SlugLacksDataAnalytics(NormalisedCategory(study));
  }

  /** The "Data & Analytics" option matches no study, whatever the search and industry. */
  lemma DataAnalyticsOptionMatchesNothing(term: string, industry: string)
    ensures FilterStudies(Studies, term, CategoryOptions[4], industry) == []
  {
    forall i | 0 <= i < |Studies| ensures !Criteria(term, CategoryOptions[4], industry)(Studies[i]) {
      ShippedCategories(Studies[i]);
      OutsideDataAnalytics(Studies[i]);
    }
    FilterEmptyIff(Studies, Criteria(term, CategoryOptions[4], industry));
  }

  /** Only the "technology" slug contains "technology". */
  lemma SlugTechnology(n: string)
    requires KnownSlug(n)
    ensures Contains(n, "technology") <==> n == "technology"
  {
    if n == "technology" {
      ContainsItself(n);
    } else if n == "data-&-analytics" {
      NotContainsMissing(n, "technology", 'o');
    } else {
      NotContainsMissing(n, "technology", 'y');
    }
  }

  /** Among the shipped studies, the "technology" option selects exactly those whose
      category is "Technology". */
  lemma TechnologyOption(study: CaseStudy)
    requires KnownCategory(study.category)
    ensures MatchesCategory(study, CategoryOptions[1]) <==> study.category == "Technology"
  {
    KnownSlugOf(study);
    SlugTechnology(NormalisedCategory(study));
  }

  /** A reference filter that compares the category verbatim instead of by containment. */
  function ExactCategory(category: string, term: string, industry: string): CaseStudy -> bool {
    (study: CaseStudy) => study.category == category && Matches(study, term, All, industry)
  }

  /** With the "technology" option, the page shows the studies whose category is exactly
      "Technology" and that pass the search and industry filters. */
  lemma TechnologyCategory(term: string, industry: string)
    ensures FilterStudies(Studies, term, CategoryOptions[1], industry)
         == Filter(Studies, ExactCategory("Technology", term, industry))
  {
    forall i | 0 <= i < |Studies|
      ensures MatchesCategory(Studies[i], CategoryOptions[1]) <==> Studies[i].category == "Technology"
    {
      ShippedCategories(Studies[i]);
      TechnologyOption(Studies[i]);
    }
    FilterCongruent(Studies, Criteria(term, CategoryOptions[1], industry),
      ExactCategory("Technology", term, industry));
  }
}

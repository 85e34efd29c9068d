# Onboarding hub pages: a Dafny model

This project models the logic behind three pages of a small onboarding and
knowledge-sharing web front end. The pages run on hard-coded data.

- **Case studies** (`CaseStudies.dfy`): the search box and the category and industry
  selectors. A study stays on the page when three tests all pass:
  - the lower-cased search term occurs in the lower-cased title, description or some tag;
  - the category selector is `"all"`, or it occurs in the study's category once that is
    lower-cased and each whitespace run is turned into `-`;
  - the industry selector is `"all"`, or it occurs in the lower-cased industry.

  Each card also gets a difficulty badge colour and a tag row that shows three tags,
  then "+N more".
- **Knowledge directory** (`KnowledgeDirectory.dfy`): the expert search, which looks in
  name, expertise and department. The department selector has no whitespace
  normalisation. Each card shows the avatar initials, an availability colour and an
  expertise row of four entries, then "+N more".
- **Request form** (`RequestForm.dfy`): a five-field draft. Each input replaces its own
  field. The submit handler raises one "Request Submitted" notification and clears the
  draft. The page is a class, `RequestFormPage`, whose fields are the draft and the
  notifications raised so far. Its methods are proved against the transition functions
  `Apply`, `HandleSubmit` and `Press`.

Two shared modules hold the primitives:

- `Text.dfy` models JavaScript's `toLowerCase` (ASCII folding), `includes` (`Contains`,
  proved equal to a slice-based definition), `replace(/\s+/g, "-")` (`DashWhitespace`
  over the characters JavaScript's `\s` matches) and `split`/`join`.
- `Lists.dfy` models `Array.filter` and the `slice(0, k)` plus "+N more" preview.

The filter is characterised as the only in-order subsequence that keeps each matching
element as often as the input holds it, and nothing else.

The shipped data is reproduced: six case studies, four experts, and the option values of
the case-study category selector and the directory's department selector. The expert
ratings, the option labels and the industry selector's options are not reproduced. Two
consequences of that data are proved:

- The case-study option `data-analytics` matches no study, because "Data & Analytics"
  normalises to `data-&-analytics`.
- The directory option `hr` matches no expert, because "human resources" does not contain
  `hr`.

Selectors are never lower-cased, so one with an upper-case letter matches nothing.

## Model

| member | source | states |
|---|---|---|
| Text.ToLower | src/pages/CaseStudies.tsx:130-138 | lower-casing keeps the length and folds each character in place (ASCII letters only) |
| Text.ToLowerFolds | src/pages/CaseStudies.tsx:130-132 | the result has no upper-case letter; lower-casing twice equals lower-casing once; text without upper-case letters is unchanged |
| Text.Contains | src/pages/CaseStudies.tsx:130-138 | `includes`: a prefix is contained, and a contained string is no longer than the text |
| Text.ContainsIffOccurs | src/pages/CaseStudies.tsx:130-138 | `includes` holds exactly when the searched string is the slice of the text at some offset |
| Text.AnyIncludes | src/pages/CaseStudies.tsx:132 | `some(tag => tag.toLowerCase().includes(q))` holds exactly when some entry, lower-cased, contains q |
| Text.DashWhitespace | src/pages/CaseStudies.tsx:135 | the result is no longer than the input, and holds only '-' and non-whitespace characters of the input |
| Text.DashWhitespaceRun | src/pages/CaseStudies.tsx:135 | a whole whitespace run, however long, becomes a single '-' |
| Text.DashWhitespaceKeepsWords | src/pages/CaseStudies.tsx:135 | text without whitespace passes through unchanged |
| Text.DashIsolatedWhitespace | src/pages/CaseStudies.tsx:135 | where no two whitespace characters are adjacent, each one simply becomes '-' |
| Text.DashWhitespaceIdempotent | src/pages/CaseStudies.tsx:135 | the result has no whitespace, and replacing again changes nothing |
| Text.Split | src/pages/KnowledgeDirectory.tsx:158 | split yields at least one piece, and no piece holds the separator |
| Text.JoinSplit | src/pages/KnowledgeDirectory.tsx:158 | joining the pieces of a split with the same separator gives back the string |
| Text.SplitJoin | src/pages/KnowledgeDirectory.tsx:158 | splitting a join of separator-free pieces gives back the pieces, empty ones included |
| Lists.Filter | src/pages/CaseStudies.tsx:129-141 | the result is no longer than the input; every kept element is from the input and satisfies the predicate; every satisfying input element is kept |
| Lists.FilterCharacterized | src/pages/CaseStudies.tsx:129-141 | r is the filter result if and only if r is a subsequence of the input holding each satisfying element exactly as often as the input and nothing else |
| Lists.FilterUnique | src/pages/CaseStudies.tsx:129-141 | at most one subsequence selects exactly the satisfying elements |
| Lists.FilterIdempotent | src/pages/CaseStudies.tsx:129-141 | filtering a filtered list again changes nothing |
| Lists.FilterEmptyIff | src/pages/CaseStudies.tsx:291 | the result is empty exactly when no element satisfies the predicate |
| Lists.Truncate | src/pages/CaseStudies.tsx:257-266 | the shown items are the first min(limit, count) items; a badge appears exactly when items are left over, and it counts count - limit |
| CaseStudies.MatchesSearch | src/pages/CaseStudies.tsx:130-132 | the empty term matches every study; without tags, a match is in the title or the description |
| CaseStudies.NormalisedCategory | src/pages/CaseStudies.tsx:135 | the lower-cased, dashed category is no longer than the category and holds no whitespace and no upper-case letter |
| CaseStudies.MatchesCategory | src/pages/CaseStudies.tsx:134-135 | "all" matches every study; any other selector that matches is no longer than the category |
| CaseStudies.MatchesIndustry | src/pages/CaseStudies.tsx:137-138 | "all" matches every study; any other selector that matches is no longer than the industry |
| CaseStudies.FilterStudies | src/pages/CaseStudies.tsx:129-141 | every shown study is from the list and matches; every matching study is shown |
| CaseStudies.FilterStudiesIsSelection | src/pages/CaseStudies.tsx:129-141 | the page shows exactly the in-order selection of the matching studies: nothing reordered, duplicated, altered or dropped |
| CaseStudies.SearchMatchesIff | src/pages/CaseStudies.tsx:130-132 | a study matches the search exactly when the lower-cased term occurs in the lower-cased title, description or a tag; no other field is searched |
| CaseStudies.SelectorsMatchIff | src/pages/CaseStudies.tsx:134-138 | a selector other than "all" matches exactly when it occurs verbatim in the normalised category, or in the lower-cased industry |
| CaseStudies.EmptyQueryShowsAll | src/pages/CaseStudies.tsx:130-138 | an empty term with both selectors on "all" shows every study |
| CaseStudies.SearchIgnoresCase | src/pages/CaseStudies.tsx:130-132 | two terms that differ only in letter case give the same result |
| CaseStudies.FilterStudiesIdempotent | src/pages/CaseStudies.tsx:129-141 | filtering the shown studies again with the same inputs changes nothing |
| CaseStudies.NoResultsIff | src/pages/CaseStudies.tsx:291 | "No case studies found" shows exactly when no study matches |
| CaseStudies.SelectorsAreCaseSensitive | src/pages/CaseStudies.tsx:134-138 | a selector other than "all" that holds an upper-case letter matches no study |
| CaseStudies.DifficultyColor | src/pages/CaseStudies.tsx:143-150 | each known difficulty gets its own style, and the default style goes to every other string, in both directions |
| CaseStudies.TagPreview | src/pages/CaseStudies.tsx:257-266 | the first min(3, count) tags, in order; "+N more" exactly when there are more than three, with N = count - 3 |
| CaseStudies.CategorySlugs | src/pages/CaseStudies.tsx:21-96 | the four shipped categories normalise to technology, project-management, human-resources and data-&-analytics |
| CaseStudies.DataAnalyticsOptionMatchesNothing | src/pages/CaseStudies.tsx:114 | with the `data-analytics` option the page shows no study, whatever the term and industry |
| CaseStudies.TechnologyOption | src/pages/CaseStudies.tsx:111 | for a study with a shipped category, the `technology` option matches exactly when the category is "Technology" |
| CaseStudies.TechnologyCategory | src/pages/CaseStudies.tsx:111 | with the `technology` option, the shipped list filters as if the category were compared verbatim with "Technology" |
| KnowledgeDirectory.MatchesSearch | src/pages/KnowledgeDirectory.tsx:86-88 | the empty term matches every expert; without expertise entries, a match is in the name or the department |
| KnowledgeDirectory.MatchesCategory | src/pages/KnowledgeDirectory.tsx:90-91 | "all" matches every expert; any other selector that matches is no longer than the department |
| KnowledgeDirectory.FilterExperts | src/pages/KnowledgeDirectory.tsx:85-94 | every shown expert is from the list and matches; every matching expert is shown |
| KnowledgeDirectory.FilterExpertsIsSelection | src/pages/KnowledgeDirectory.tsx:85-94 | the page shows exactly the in-order selection of the matching experts |
| KnowledgeDirectory.SearchMatchesIff | src/pages/KnowledgeDirectory.tsx:86-88 | an expert matches the search exactly when the lower-cased term occurs in the lower-cased name, department or an expertise entry; no other field is searched |
| KnowledgeDirectory.SelectorMatchesIff | src/pages/KnowledgeDirectory.tsx:90-91 | a selector other than "all" matches exactly when it occurs verbatim in the lower-cased department |
| KnowledgeDirectory.EmptyQueryShowsAll | src/pages/KnowledgeDirectory.tsx:85-94 | an empty term with the selector on "all" shows every expert |
| KnowledgeDirectory.SearchIgnoresCase | src/pages/KnowledgeDirectory.tsx:86-88 | two terms that differ only in letter case give the same result |
| KnowledgeDirectory.FilterExpertsIdempotent | src/pages/KnowledgeDirectory.tsx:85-94 | filtering the shown experts again changes nothing |
| KnowledgeDirectory.NoResultsIff | src/pages/KnowledgeDirectory.tsx:228 | "No experts found" shows exactly when no expert matches |
| KnowledgeDirectory.SelectorIsCaseSensitive | src/pages/KnowledgeDirectory.tsx:90-91 | a selector other than "all" that holds an upper-case letter matches no expert |
| KnowledgeDirectory.AvailabilityColor | src/pages/KnowledgeDirectory.tsx:96-103 | Available, Busy and Away each get their own colour, and every other string gets the default, in both directions |
| KnowledgeDirectory.ExpertisePreview | src/pages/KnowledgeDirectory.tsx:186-195 | the first min(4, count) entries, in order; "+N more" exactly when there are more than four, with N = count - 4 |
| KnowledgeDirectory.Firsts | src/pages/KnowledgeDirectory.tsx:158 | at most one character per piece; when no piece is empty, exactly the first character of each piece, in order |
| KnowledgeDirectory.Initials | src/pages/KnowledgeDirectory.tsx:158 | the initials are no longer than the name, and are non-space characters of it |
| KnowledgeDirectory.InitialsAreWordStarts | src/pages/KnowledgeDirectory.tsx:158 | split-map-join gives exactly the characters that start a word (begin the name or follow a space); empty pieces contribute nothing |
| KnowledgeDirectory.TwoWordInitials | src/pages/KnowledgeDirectory.tsx:158 | a two-word name gives the first letter of each word, e.g. "SC" for "Sarah Chen" |
| KnowledgeDirectory.HrOptionMatchesNothing | src/pages/KnowledgeDirectory.tsx:79 | with the `hr` option the page shows no expert, whatever the term |
| RequestForm.Set | src/pages/RequestForm.tsx:88 | a change sets its own field to the new value and leaves the other four as they were |
| RequestForm.ChangeTouchesOneField | src/pages/RequestForm.tsx:88-143 | each change handler replaces exactly its field and raises no notification |
| RequestForm.ChangeToSameValue | src/pages/RequestForm.tsx:88-143 | changing a field to its current value changes nothing |
| RequestForm.HandleSubmit | src/pages/RequestForm.tsx:24-41 | after the handler the draft is empty and exactly one "Request Submitted" notification has been added |
| RequestForm.SubmitStoresNoDraft | src/pages/RequestForm.tsx:24-41 | what the handler leaves does not depend on the submitted draft: no request is stored |
| RequestForm.HandleSubmitTwice | src/pages/RequestForm.tsx:33-40 | running the handler twice leaves the same draft as once, with one notification per run |
| RequestForm.Press | src/pages/RequestForm.tsx:89-144 | the button runs the handler exactly when title, department and description are non-empty, and otherwise changes nothing |
| RequestForm.PressTwiceIsOnce | src/pages/RequestForm.tsx:33-40 | pressing the button twice leaves the same state as pressing it once |
| RequestForm.SelectsNotRequired | src/pages/RequestForm.tsx:106-121 | whether the form can be submitted does not depend on category or priority, which may still be empty |
| RequestForm.Apply | src/pages/RequestForm.tsx:88-143 | a change sets its field, keeps the other four and the notifications; a press is `Press` |
| RequestForm.Run | src/pages/RequestForm.tsx:24-143 | along any sequence of events, the notifications already raised are kept, in order |
| RequestForm.WellFormedStep | src/pages/RequestForm.tsx:43-52 | a change that a select can produce keeps each select empty or on one of its options |
| RequestForm.RunWellFormed | src/pages/RequestForm.tsx:127-130 | after any sequence of offered changes and presses, category is empty or one of the eight categories, and priority is empty or low/medium/high/urgent |
| RequestForm.RunNotifications | src/pages/RequestForm.tsx:27-31 | along any sequence of events, earlier notifications are kept and one "Request Submitted" is added per accepted press, nothing else |
| RequestForm.FromFreshStart | src/pages/RequestForm.tsx:14-41 | from a freshly opened page, the notifications are exactly one "Request Submitted" per accepted press |
| RequestForm.RequestFormPage.constructor | src/pages/RequestForm.tsx:14-20 | the page starts with all five fields empty and no notification |
| RequestForm.RequestFormPage.SetTitle | src/pages/RequestForm.tsx:88 | the title input's handler is the title change |
| RequestForm.RequestFormPage.SetDepartment | src/pages/RequestForm.tsx:98 | the department input's handler is the department change |
| RequestForm.RequestFormPage.SetCategory | src/pages/RequestForm.tsx:107 | the category select's handler is the category change |
| RequestForm.RequestFormPage.SetPriority | src/pages/RequestForm.tsx:122 | the priority select's handler is the priority change |
| RequestForm.RequestFormPage.SetDescription | src/pages/RequestForm.tsx:143 | the description input's handler is the description change |
| RequestForm.RequestFormPage.Submit | src/pages/RequestForm.tsx:24-41 | the submit handler adds one notification and resets all five fields |
| RequestForm.RequestFormPage.PressSubmit | src/pages/RequestForm.tsx:80-150 | the button runs the handler only when the required inputs are filled |

## Left out

- Rendering, CSS classes, icons and layout of every page; the home page and the
  navigation layout, whose logic is a pathname comparison on router state.
- `toLowerCase` beyond ASCII: locale and Unicode case mappings are not modelled.
- `\s` is modelled as the fixed set of characters it matches; the regular-expression engine
  itself is not modelled.
- Strings are sequences of Unicode scalar values, not of UTF-16 code units as in
  JavaScript. For a name piece that starts with a character outside the Basic Multilingual
  Plane, the page takes half a surrogate pair as the initial, while `Firsts` takes the whole
  character. No shipped name is affected.
- The industry selector's option list and the selector labels: the filter accepts any
  selector string, so no property depends on them.
- Date formatting (`toLocaleDateString`) and the expert ratings, which are floating-point
  numbers that are only displayed; neither appears in the datatypes.
- React re-rendering and event dispatch. The toast library is not part of this model: a
  toast is a `Notification` appended to the page's list.
- The browser's `required` check is not a precondition of the handler. The handler in the
  source runs unconditionally. The browser gate is modelled as `Press`, which calls the
  handler only when the three required inputs are non-empty.
- The selects only emit their own options, but the setters accept any string, as the
  handlers do. `RunWellFormed` takes "only offered values" as its hypothesis.
- CaseStudies.TechnologyCategory: the concrete list of studies the `technology` option
  shows (Cloud Migration and API Security) is not proved. The lemma proves instead that
  the option agrees with a verbatim comparison against "Technology".
- The example of searching "cloud" among the experts is not proved.

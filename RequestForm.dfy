/** The request form: a five-field draft edited one field at a time, and a submit
    handler that announces the submission and clears the draft. The draft itself is
    never stored anywhere. */
module RequestForm {

  datatype Field = Title | Category | Priority | Description | Department

  datatype Draft = Draft(title: string, category: string, priority: string, description: string, department: string)

  /** The draft the page starts with and returns to after a submission. */
  const EmptyDraft := Draft("", "", "", "", "")

  function Get(d: Draft, f: Field): string {
    match f
    case Title => d.title
    case Category => d.category
    case Priority => d.priority
    case Description => d.description
    case Department => d.department
  }

  /** A change handler: the draft with one field replaced. */
  function Set(d: Draft, f: Field, v: string): (r: Draft)
    ensures Get(r, f) == v
    ensures forall g :: g != f ==> Get(r, g) == Get(d, g)
  {
    match f
    case Title => d.(title := v)
    case Category => d.(category := v)
    case Priority => d.(priority := v)
    case Description => d.(description := v)
    case Department => d.(department := v)
  }

  /** Two drafts agreeing on every field are the same draft. */
  lemma DraftsByFields(d: Draft, e: Draft)
    requires forall f :: Get(d, f) == Get(e, f)
    ensures d == e
  {
    assert Get(d, Title) == Get(e, Title) && Get(d, Category) == Get(e, Category);
    assert Get(d, Priority) == Get(e, Priority) && Get(d, Description) == Get(e, Description);
    assert Get(d, Department) == Get(e, Department);
  }

  /** The values the category select offers. */
  const Categories: seq<string> := [
    "Technology & IT", "HR & Compliance", "Project Management", "Business Process",
    "Finance & Accounting", "Legal & Contracts", "Training & Development", "Other"]

  /** The values the priority select offers. */
  const Priorities: seq<string> := ["low", "medium", "high", "urgent"]

  /** A value the input for field f can produce: the selects produce only their options,
      the text inputs anything. */
  predicate Offered(f: Field, v: string) {
    match f
    case Category => v in Categories
    case Priority => v in Priorities
    case _ => true
  }

  /** Each select holds nothing or one of its options. */
  predicate WellFormed(d: Draft) {
    (d.category == "" || d.category in Categories) && (d.priority == "" || d.priority in Priorities)
  }

  /** The browser submits the form only when the inputs marked required are non-empty:
      title, department and description. Category and priority are not marked required. */
  predicate RequiredFilled(d: Draft) {
    d.title != "" && d.department != "" && d.description != ""
  }

  datatype Notification = Notification(title: string, description: string)

  const Submitted := Notification("Request Submitted", "Your request has been submitted and will be reviewed by our team.")

  /** What the page holds: the draft, and the notifications it has raised so far. */
  datatype FormState = FormState(draft: Draft, notifications: seq<Notification>)

  const Initial := FormState(EmptyDraft, [])

  /** The submit handler: one notification, then every field back to "". */
  function HandleSubmit(s: FormState): (r: FormState)
    ensures r.draft == EmptyDraft
    ensures r.notifications == s.notifications + [Submitted]
  {
    FormState(EmptyDraft, s.notifications + [Submitted])
  }

  /** Pressing the submit button: the handler runs only when the browser lets the form
      through; otherwise nothing changes. */
  function Press(s: FormState): (r: FormState)
    ensures RequiredFilled(s.draft) ==> r == HandleSubmit(s)
    ensures !RequiredFilled(s.draft) ==> r == s
  {
    if RequiredFilled(s.draft) then HandleSubmit(s) else s
  }

  /** What a user can do on the page. */
  datatype Event = Change(field: Field, value: string) | PressSubmit

  function Apply(s: FormState, e: Event): (r: FormState)
    ensures e.Change? ==> Get(r.draft, e.field) == e.value && r.notifications == s.notifications
    ensures e.Change? ==> forall g :: g != e.field ==> Get(r.draft, g) == Get(s.draft, g)
    ensures e.PressSubmit? ==> r == Press(s)
  {
    match e
    case Change(f, v) => s.(draft := Set(s.draft, f, v))
    case PressSubmit => Press(s)
  }

  /** The state after a sequence of events. */
  function Run(s: FormState, events: seq<Event>): (r: FormState)
    ensures |r.notifications| >= |s.notifications|
    ensures r.notifications[..|s.notifications|] == s.notifications
    decreases |events|
  {
    if events == [] then s else Run(Apply(s, events[0]), events[1..])
  }

  /** Every event the inputs can produce. */
  predicate OfferedEvents(events: seq<Event>) {
    forall i :: 0 <= i < |events| && events[i].Change? ==> Offered(events[i].field, events[i].value)
  }

  /** How many events of the sequence are presses that reach the handler. */
  function SubmissionCount(s: FormState, events: seq<Event>): nat
    decreases |events|
  {
    if events == [] then 0
    else (if events[0].PressSubmit? && RequiredFilled(s.draft) then 1 else 0)
         + SubmissionCount(Apply(s, events[0]), events[1..])
  }

  // ---------------------------------------------------------------------------
  // Properties of the transitions

  /** The handler forgets the draft: what it leaves behind does not depend on what
      was submitted. */
  lemma SubmitStoresNoDraft(s: FormState, t: FormState)
    requires s.notifications == t.notifications
    ensures HandleSubmit(s) == HandleSubmit(t)
  {
  }

  /** Running the handler again leaves the same draft and raises one more notification. */
  lemma HandleSubmitTwice(s: FormState)
    ensures HandleSubmit(HandleSubmit(s)).draft == HandleSubmit(s).draft
    ensures |HandleSubmit(HandleSubmit(s)).notifications| == |s.notifications| + 2
  {
  }

  /** Pressing the button twice is pressing it once: after a submission the required
      fields are empty, so the browser holds back the second press. */
  lemma PressTwiceIsOnce(s: FormState)
    ensures Press(Press(s)) == Press(s)
  {
  }

  /** A change replaces exactly the field it belongs to and raises nothing. */
  lemma ChangeTouchesOneField(s: FormState, f: Field, v: string)
    ensures Get(Apply(s, Change(f, v)).draft, f) == v
    ensures forall g :: g != f ==> Get(Apply(s, Change(f, v)).draft, g) == Get(s.draft, g)
    ensures Apply(s, Change(f, v)).notifications == s.notifications
  {
  }

  /** Changing a field back to its current value changes nothing. */
  lemma ChangeToSameValue(s: FormState, f: Field)
    ensures Apply(s, Change(f, Get(s.draft, f))) == s
  {
    var r := Apply(s, Change(f, Get(s.draft, f)));
    DraftsByFields(r.draft, s.draft);
  }

  /** The selects do not take part in the browser's check: a draft with no category and
      no priority chosen is submitted as long as the three text inputs are filled. */
  lemma SelectsNotRequired(d: Draft, category: string, priority: string)
    ensures RequiredFilled(d.(category := category, priority := priority)) <==> RequiredFilled(d)
  {
  }

  lemma WellFormedStep(s: FormState, e: Event)
    requires WellFormed(s.draft)
    requires e.Change? ==> Offered(e.field, e.value)
    ensures WellFormed(Apply(s, e).draft)
  {
  }

  /** Whatever the user does with the inputs, each select holds nothing or one of its
      options. */
  lemma {:induction false} RunWellFormed(s: FormState, events: seq<Event>)
    requires WellFormed(s.draft) && OfferedEvents(events)
    ensures WellFormed(Run(s, events).draft)
    decreases |events|
  {
    if events != [] {
      WellFormedStep(s, events[0]);
      assert OfferedEvents(events[1..]) by {
        forall i | 0 <= i < |events[1..]| && events[1..][i].Change?
          ensures Offered(events[1..][i].field, events[1..][i].value)
        {
          assert events[1..][i] == events[i + 1];
        }
      }
      RunWellFormed(Apply(s, events[0]), events[1..]);
    }
  }

  /** The page raises one "Request Submitted" notification per submission that reached
      the handler, and nothing else. */
  lemma {:induction false} RunNotifications(s: FormState, events: seq<Event>)
    ensures var r := Run(s, events);
            && |r.notifications| == |s.notifications| + SubmissionCount(s, events)
            && r.notifications[..|s.notifications|] == s.notifications
            && forall i :: |s.notifications| <= i < |r.notifications| ==> r.notifications[i] == Submitted
    decreases |events|
  {
    if events != [] {
      var t := Apply(s, events[0]);
      RunNotifications(t, events[1..]);
      var r := Run(t, events[1..]);
      assert |t.notifications| >= |s.notifications| && t.notifications[..|s.notifications|] == s.notifications;
      assert r.notifications[..|s.notifications|] == t.notifications[..|t.notifications|][..|s.notifications|];
      forall i | |s.notifications| <= i < |r.notifications| ensures r.notifications[i] == Submitted {
        if i >= |t.notifications| {
        } else {
          assert r.notifications[i] == r.notifications[..|t.notifications|][i];
        }
      }
    }
  }

  /** From a freshly opened page, the notifications are one "Request Submitted" per
      accepted submission. */
  lemma {:induction false} FromFreshStart(events: seq<Event>)
    ensures Run(Initial, events).notifications == seq(SubmissionCount(Initial, events), _ => Submitted)
  {
    RunNotifications(Initial, events);
    var r := Run(Initial, events);
    assert r.notifications == seq(SubmissionCount(Initial, events), _ => Submitted);
  }

  // ---------------------------------------------------------------------------
  // The page

  class RequestFormPage {
    var title: string
    var category: string
    var priority: string
    var description: string
    var department: string
    /** The notifications raised so far, oldest first. */
    var notifications: seq<Notification>

    function State(): FormState
      reads this
    {
      FormState(Draft(title, category, priority, description, department), notifications)
    }

    constructor ()
      ensures State() == Initial
    {
      title, category, priority, description, department := "", "", "", "", "";
      notifications := [];
    }

    method SetTitle(v: string)
      modifies this
      ensures State() == Apply(old(State()), Change(Title, v))
    {
      title := v;
    }

    method SetDepartment(v: string)
      modifies this
      ensures State() == Apply(old(State()), Change(Department, v))
    {
      department := v;
    }

    method SetCategory(v: string)
      modifies this
      ensures State() == Apply(old(State()), Change(Category, v))
    {
      category := v;
    }

    method SetPriority(v: string)
      modifies this
      ensures State() == Apply(old(State()), Change(Priority, v))
    {
      priority := v;
    }

    method SetDescription(v: string)
      modifies this
      ensures State() == Apply(old(State()), Change(Description, v))
    {
      description := v;
    }

    /** The submit handler. */
    method Submit()
      modifies this
      ensures State() == HandleSubmit(old(State()))
    {
      notifications := notifications + [Submitted];
      title, category, priority, description, department := "", "", "", "", "";
    }

    /** The submit button: the browser calls the handler only when the required inputs
        are filled in. */
    method PressSubmit()
      modifies this
      ensures State() == Press(old(State()))
    {
      if title != "" && department != "" && description != "" {
        Submit();
      }
    }
  }
}

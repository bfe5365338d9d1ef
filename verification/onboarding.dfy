/**
 * The four-step onboarding wizard (app/onboarding/page.tsx): a name, a set of
 * travel interests toggled on and off, a travel style and a budget range, with
 * a Continue button per step that stays disabled until that step's answer is
 * given, Back buttons, and a Complete button that starts a simulated save.
 *
 * The page's React state is modelled as a value, `Wizard`, and each click or
 * keystroke as an `Event` that the transition function `Step` applies. Only the
 * current step's controls are on screen, so an event for another step changes
 * nothing; a click on a disabled button changes nothing either.
 */
module Onboarding {

  datatype FormData = FormData(name: string, preferences: seq<string>, travelStyle: string, budgetRange: string)

  const EmptyForm := FormData("", [], "", "")

  const PreferenceIds: seq<string> := ["adventure", "food", "relaxation", "culture", "shopping", "nature"]
  const TravelStyleIds: seq<string> := ["solo", "couple", "family", "group"]
  const BudgetRangeIds: seq<string> := ["budget", "moderate", "luxury"]

  // ---------------------------------------------------------------------------
  // handlePreferenceToggle
  // ---------------------------------------------------------------------------

  /** `prefs.filter(p => p !== id)`. */
  function RemoveAll(prefs: seq<string>, id: string): (r: seq<string>)
    ensures |r| <= |prefs|
    ensures forall p :: p in r <==> p in prefs && p != id
  {
    if prefs == [] then []
    else if prefs[0] == id then RemoveAll(prefs[1..], id)
    else [prefs[0]] + RemoveAll(prefs[1..], id)
  }

  /** `handlePreferenceToggle(id)`: a selected interest is removed (every copy of it),
      an unselected one is appended; the other fields are kept. */
  function TogglePreference(form: FormData, id: string): (r: FormData)
    ensures r.(preferences := form.preferences) == form
    ensures id in r.preferences <==> id !in form.preferences
  {
    form.(preferences := if id in form.preferences then RemoveAll(form.preferences, id)
                         else form.preferences + [id])
  }

  predicate NoDuplicates(s: seq<string>) {
    forall i, j :: 0 <= i < j < |s| ==> s[i] != s[j]
  }

  /** Removing an absent id changes nothing. */
  lemma {:induction false} RemoveAllAbsent(prefs: seq<string>, id: string)
    requires id !in prefs
    ensures RemoveAll(prefs, id) == prefs
  {
    if prefs != [] {
      RemoveAllAbsent(prefs[1..], id);
    }
  }

  /** Removing all copies of `id` from `prefs + [x]`. */
  lemma {:induction false} RemoveAllAppend(prefs: seq<string>, x: string, id: string)
    ensures RemoveAll(prefs + [x], id) == RemoveAll(prefs, id) + (if x == id then [] else [x])
  {
    if prefs == [] {
      assert prefs + [x] == [x];
    } else {
      assert (prefs + [x])[1..] == prefs[1..] + [x];
      RemoveAllAppend(prefs[1..], x, id);
    }
  }

  lemma {:induction false} RemoveAllTwice(prefs: seq<string>, id: string)
    ensures RemoveAll(RemoveAll(prefs, id), id) == RemoveAll(prefs, id)
  {
    if prefs != [] {
      RemoveAllTwice(prefs[1..], id);
    }
  }

  /** Removing keeps a list free of duplicates. */
  lemma {:induction false} RemoveAllNoDuplicates(prefs: seq<string>, id: string)
    requires NoDuplicates(prefs)
    ensures NoDuplicates(RemoveAll(prefs, id))
  {
    if prefs != [] {
      assert NoDuplicates(prefs[1..]) by {
        forall i, j | 0 <= i < j < |prefs[1..]|
          ensures prefs[1..][i] != prefs[1..][j]
        {
          assert prefs[1..][i] == prefs[i + 1] && prefs[1..][j] == prefs[j + 1];
        }
      }
      RemoveAllNoDuplicates(prefs[1..], id);
      var rest := RemoveAll(prefs[1..], id);
      if prefs[0] != id {
        assert prefs[0] !in rest by {
          assert prefs[0] !in prefs[1..] by {
            forall k | 0 <= k < |prefs[1..]|
              ensures prefs[1..][k] != prefs[0]
            {
              assert prefs[1..][k] == prefs[k + 1];
            }
          }
        }
        var r := [prefs[0]] + rest;
        forall i, j | 0 <= i < j < |r|
          ensures r[i] != r[j]
        {
          if i == 0 {
            assert r[j] == rest[j - 1] && rest[j - 1] in rest;
          } else {
            assert r[i] == rest[i - 1] && r[j] == rest[j - 1];
          }
        }
      }
    }
  }

  /** A toggle flips whether `id` is selected, leaves every other interest's selection
      and the order of the others as they were, and changes no other field. */
  lemma ToggleFlipsOnlyThatInterest(form: FormData, id: string)
    ensures id in TogglePreference(form, id).preferences <==> id !in form.preferences
    ensures forall p :: p != id ==> (p in TogglePreference(form, id).preferences <==> p in form.preferences)
    ensures RemoveAll(TogglePreference(form, id).preferences, id) == RemoveAll(form.preferences, id)
    ensures TogglePreference(form, id).name == form.name
    ensures TogglePreference(form, id).travelStyle == form.travelStyle
    ensures TogglePreference(form, id).budgetRange == form.budgetRange
  {
    if id in form.preferences {
      RemoveAllTwice(form.preferences, id);
    } else {
      RemoveAllAppend(form.preferences, id, id);
    }
  }

  /** Selecting an unselected interest puts it last; selecting it again restores the list. */
  lemma ToggleTwiceRestores(form: FormData, id: string)
    requires id !in form.preferences
    ensures TogglePreference(form, id).preferences == form.preferences + [id]
    ensures TogglePreference(TogglePreference(form, id), id) == form
  {
    RemoveAllAppend(form.preferences, id, id);
    RemoveAllAbsent(form.preferences, id);
  }

  /** Deselecting and reselecting an interest moves it to the end. */
  lemma ReselectMovesToEnd(form: FormData, id: string)
    requires id in form.preferences
    ensures TogglePreference(TogglePreference(form, id), id).preferences == RemoveAll(form.preferences, id) + [id]
  {
  }

  /** Toggles keep the selection free of duplicates. */
  lemma ToggleNoDuplicates(form: FormData, id: string)
    requires NoDuplicates(form.preferences)
    ensures NoDuplicates(TogglePreference(form, id).preferences)
  {
    if id in form.preferences {
      RemoveAllNoDuplicates(form.preferences, id);
    } else {
      var r := form.preferences + [id];
      forall i, j | 0 <= i < j < |r|
        ensures r[i] != r[j]
      {
        if j == |r| - 1 {
          assert r[i] == form.preferences[i];
        }
      }
    }
  }

  // ---------------------------------------------------------------------------
  // The step guards
  // ---------------------------------------------------------------------------

  /** The `disabled` expression of the step's forward button (Continue on steps 1 to 3,
      Complete on step 4). */
  predicate ForwardDisabled(step: int, form: FormData, loading: bool) {
    if step == 1 then form.name == ""
    else if step == 2 then |form.preferences| == 0
    else if step == 3 then form.travelStyle == ""
    else form.budgetRange == "" || loading
  }

  // ---------------------------------------------------------------------------
  // The wizard
  // ---------------------------------------------------------------------------

  /** The page's state; `navigated` records that the save timer has fired and the
      browser has been sent to the dashboard (the page is gone). */
  datatype Wizard = Wizard(step: int, loading: bool, form: FormData, navigated: bool)

  const Initial := Wizard(1, false, EmptyForm, false)

  datatype Event =
    | EditName(name: string)
    | TogglePref(id: string)
    | ChooseStyle(id: string)
    | ChooseBudget(id: string)
    | Continue
    | Back
    | Complete
    | SaveFinished

  /** One event. Controls exist only on their own step and only with the listed ids. */
  function Step(w: Wizard, e: Event): (r: Wizard)
    ensures w.navigated ==> r == w
    ensures r.step == w.step || r.form == w.form
    ensures r.step > w.step ==> !ForwardDisabled(w.step, w.form, w.loading)
    ensures r.navigated && !w.navigated ==> w.loading && !r.loading
  {
    if w.navigated then w
    else match e
      case EditName(name) =>
        if w.step == 1 then w.(form := w.form.(name := name)) else w
      case TogglePref(id) =>
        if w.step == 2 && id in PreferenceIds then w.(form := TogglePreference(w.form, id)) else w
      case ChooseStyle(id) =>
        if w.step == 3 && id in TravelStyleIds then w.(form := w.form.(travelStyle := id)) else w
      case ChooseBudget(id) =>
        if w.step == 4 && id in BudgetRangeIds then w.(form := w.form.(budgetRange := id)) else w
      case Continue =>
        if 1 <= w.step <= 3 && !ForwardDisabled(w.step, w.form, w.loading) then w.(step := w.step + 1) else w
      case Back =>
        if 2 <= w.step <= 4 then w.(step := w.step - 1) else w
      case Complete =>
        if w.step == 4 && !ForwardDisabled(4, w.form, w.loading) then w.(loading := true) else w
      case SaveFinished =>
        if w.loading then w.(loading := false, navigated := true) else w
  }

  function Run(w: Wizard, events: seq<Event>): Wizard
    decreases |events|
  {
    if events == [] then w else Run(Step(w, events[0]), events[1..])
  }

  /** What every reachable state satisfies: a later step is reached only with the
      earlier answers given, and every answer is one the page offers. */
  predicate Invariant(w: Wizard) {
    && 1 <= w.step <= 4
    && (w.step >= 2 ==> w.form.name != "")
    && (w.step >= 3 ==> |w.form.preferences| > 0)
    && (w.step >= 4 ==> w.form.travelStyle != "")
    && (forall p :: p in w.form.preferences ==> p in PreferenceIds)
    && NoDuplicates(w.form.preferences)
    && (w.form.travelStyle == "" || w.form.travelStyle in TravelStyleIds)
    && (w.form.budgetRange == "" || w.form.budgetRange in BudgetRangeIds)
    && (w.loading || w.navigated ==> w.form.budgetRange != "")
  }

  // ---------------------------------------------------------------------------
  // Properties
  // ---------------------------------------------------------------------------

  /** Each forward button is enabled exactly when its step's answer is given (and, for
      Complete, no save is under way). */
  lemma ForwardGuards(form: FormData, loading: bool)
    ensures !ForwardDisabled(1, form, loading) <==> |form.name| > 0
    ensures !ForwardDisabled(2, form, loading) <==> |form.preferences| >= 1
    ensures !ForwardDisabled(3, form, loading) <==> |form.travelStyle| > 0
    ensures !ForwardDisabled(4, form, loading) <==> |form.budgetRange| > 0 && !loading
  {
  }

  lemma InitialInvariant()
    ensures Invariant(Initial)
  {
  }

  /** Every event keeps the invariant. */
  lemma StepInvariant(w: Wizard, e: Event)
    requires Invariant(w)
    ensures Invariant(Step(w, e))
  {
    if !w.navigated && e.TogglePref? && w.step == 2 && e.id in PreferenceIds {
      ToggleNoDuplicates(w.form, e.id);
      ToggleFlipsOnlyThatInterest(w.form, e.id);
    }
  }

  lemma {:induction false} RunInvariant(w: Wizard, events: seq<Event>)
    requires Invariant(w)
    ensures Invariant(Run(w, events))
    decreases |events|
  {
    if events != [] {
      StepInvariant(w, events[0]);
      RunInvariant(Step(w, events[0]), events[1..]);
    }
  }

  /** Whatever the user does, the budget step is reached only with a name, at least one
      interest and a travel style, and the dashboard only after a budget was chosen. */
  lemma ReachableStates(events: seq<Event>)
    ensures Run(Initial, events).step == 4 ==>
      && Run(Initial, events).form.name != ""
      && |Run(Initial, events).form.preferences| > 0
      && Run(Initial, events).form.travelStyle != ""
    ensures Run(Initial, events).navigated ==> Run(Initial, events).form.budgetRange in BudgetRangeIds
    ensures forall p :: p in Run(Initial, events).form.preferences ==> p in PreferenceIds
  {
    RunInvariant(Initial, events);
  }

  /** Back stays enabled during the save: going back to the first step and clearing the
      name before the timer fires still ends on the dashboard, with an empty name. */
  lemma BackDuringSave(w: Wizard)
    requires w.step == 4 && w.loading && !w.navigated
    ensures Run(w, [Back, Back, Back, EditName(""), SaveFinished])
         == w.(step := 1, loading := false, navigated := true, form := w.form.(name := ""))
  {
    var w1 := Step(w, Back);
    var w2 := Step(w1, Back);
    var w3 := Step(w2, Back);
    var w4 := Step(w3, EditName(""));
    assert w3 == w.(step := 1);
    assert Run(w4, [SaveFinished]) == Step(w4, SaveFinished);
    assert Run(w3, [EditName(""), SaveFinished]) == Run(w4, [SaveFinished]);
    assert Run(w2, [Back, EditName(""), SaveFinished]) == Run(w3, [EditName(""), SaveFinished]);
    assert Run(w1, [Back, Back, EditName(""), SaveFinished]) == Run(w2, [Back, EditName(""), SaveFinished]);
  }

  /** Such a state is reachable: a user who answers every step and clicks Complete is saving. */
  lemma SavingReachable()
    ensures Run(Initial, [EditName("Ana"), Continue, TogglePref("food"), Continue,
                          ChooseStyle("solo"), Continue, ChooseBudget("budget"), Complete])
         == Wizard(4, true, FormData("Ana", ["food"], "solo", "budget"), false)
  {
    AnswerFirstSteps();
    AnswerLastSteps();
    RunConcat(Initial, [EditName("Ana"), Continue, TogglePref("food"), Continue],
              [ChooseStyle("solo"), Continue, ChooseBudget("budget"), Complete]);
  }

  lemma AnswerFirstSteps()
    ensures Run(Initial, [EditName("Ana"), Continue, TogglePref("food"), Continue])
         == Wizard(3, false, FormData("Ana", ["food"], "", ""), false)
  {
  }

  lemma AnswerLastSteps()
    ensures Run(Wizard(3, false, FormData("Ana", ["food"], "", ""), false),
                [ChooseStyle("solo"), Continue, ChooseBudget("budget"), Complete])
         == Wizard(4, true, FormData("Ana", ["food"], "solo", "budget"), false)
  {
  }

  lemma {:induction false} RunConcat(w: Wizard, a: seq<Event>, b: seq<Event>)
    ensures Run(w, a + b) == Run(Run(w, a), b)
    decreases |a|
  {
    if a == [] {
      assert a + b == b;
    } else {
      assert (a + b)[1..] == a[1..] + b;
      RunConcat(Step(w, a[0]), a[1..], b);
    }
  }
}

/** The pure parts of the daily-habit form: its initial and reset state,
    the live emissions preview, and the edits of the meal list. The form's
    inputs arrive already parsed (`parseInt`/`parseFloat` are not modelled).
    The central result is `PreviewMatchesServer`: `calculateEmissions` of a
    form differs from the total the server stores for the same record exactly
    by the meals entered with count 0 (a count the form's own input refuses,
    but one a record sent straight to the server may carry). The preview the form displays between edits
    is modelled by `Screen`, at the end. */
module HabitForm {
  import opened Wrappers
  import opened JsMath
  import opened Models
  import Client = ClientCalculator
  import Server = ServerCalculator

  /** `formData`: all three sections are always present in the form. */
  datatype FormData = FormData(transportation: Transport, meals: seq<Meal>, digitalWaste: DigitalWaste)

  /** The state the form starts in and returns to after a successful submit. */
  const InitialForm: FormData :=
    FormData(Transport("walking", 0.0), [Meal("vegan", Some(1.0))], DigitalWaste(Some(0.0), Some(0.0)))

  /** The meal `addMeal` appends. */
  const NewMeal: Meal := Meal("vegan", Some(1.0))

  /** What `calculateEmissions` returns. */
  datatype Preview = Preview(transportation: real, meals: real, digital: real, total: real, score: int)

  /** The unrounded price of the meals as the preview counts them: the sum of
      factor × count, where only an absent count defaults to 1. */
  function ExactPreviewMeals(meals: seq<Meal>): real {
    if |meals| == 0 then 0.0
    else Factor(Client.EmissionFactors.meals, meals[0].kind) * meals[0].count.GetOr(1.0)
         + ExactPreviewMeals(meals[1..])
  }

  /** The preview's meals fold: each meal's rounded emissions with the count
      as entered (only an absent count takes the default of 1). It is whole
      hundredths, 0 for no meals, and off the unrounded price by at most half
      a hundredth per meal. */
  function PreviewMeals(meals: seq<Meal>): (r: real)
    ensures IsCents(r)
    ensures |meals| == 0 ==> r == 0.0
    ensures var n := |meals| as real;
            ExactPreviewMeals(meals) - 0.005 * n <= r <= ExactPreviewMeals(meals) + 0.005 * n
  {
    if |meals| == 0 then CentsZero(); 0.0
    else
      var head := Client.MealEmissions(meals[0].kind, meals[0].count.GetOr(1.0));
      var rest := PreviewMeals(meals[1..]);
      CentsAdd(head, rest);
      head + rest
  }

  /** The fold in `reduce` order: appending a meal adds exactly that meal's
      rounded emissions. */
  lemma {:induction false} PreviewMealsAppend(meals: seq<Meal>, m: Meal)
    ensures PreviewMeals(meals + [m]) == PreviewMeals(meals) + Client.MealEmissions(m.kind, m.count.GetOr(1.0))
  {
    if |meals| == 0 {
      assert meals + [m] == [m];
      assert [m][1..] == [];
    } else {
      assert (meals + [m])[0] == meals[0];
      assert (meals + [m])[1..] == meals[1..] + [m];
      PreviewMealsAppend(meals[1..], m);
    }
  }

  /** `calculateEmissions()`: the three components are added without a
      final rounding, and the score is taken of that sum. */
  function CalculateEmissions(f: FormData): (r: Preview)
    ensures r.total == r.transportation + r.meals + r.digital
    ensures IsCents(r.transportation) && IsCents(r.meals) && IsCents(r.digital)
    ensures r.meals == PreviewMeals(f.meals)
    ensures r.score == Client.SustainabilityScore(r.total)
  {
    var t := Client.TransportationEmissions(f.transportation.kind, f.transportation.distance);
    var m := PreviewMeals(f.meals);
    var d := Client.DigitalEmissions(f.digitalWaste.emails.GetOr(0.0), f.digitalWaste.streamingHours.GetOr(0.0));
    Preview(t, m, d, t + m + d, Client.SustainabilityScore(t + m + d))
  }

  /** The activity record a submit sends for this form. */
  function ToActivity(f: FormData): Activity {
    Activity(Some(f.transportation), Some(f.meals), Some(f.digitalWaste))
  }

  /** What the server adds for meals entered with count 0: the preview counts
      them as nothing, the server as one meal each. */
  function ZeroCountGap(meals: seq<Meal>): real {
    if |meals| == 0 then 0.0
    else
      (if meals[0].count == Some(0.0) then Server.MealEmissions(meals[0].kind, 1.0) else 0.0)
      + ZeroCountGap(meals[1..])
  }

  /** No meal has a count of 0. */
  ghost predicate NoZeroCount(meals: seq<Meal>) {
    forall i :: 0 <= i < |meals| ==> meals[i].count != Some(0.0)
  }

  lemma {:induction false} MealsGap(meals: seq<Meal>)
    ensures Server.MealsEmissions(meals) == PreviewMeals(meals) + ZeroCountGap(meals)
  {
    if |meals| > 0 {
      var m := meals[0];
      Client.MealAgrees(m.kind, m.count.GetOr(1.0));
      if m.count == Some(0.0) {
        assert Client.MealEmissions(m.kind, 0.0) == 0.0;
      }
      MealsGap(meals[1..]);
    }
  }

  lemma {:induction false} NoZeroCountNoGap(meals: seq<Meal>)
    requires NoZeroCount(meals)
    ensures ZeroCountGap(meals) == 0.0
  {
    if |meals| > 0 {
      assert meals[0].count != Some(0.0);
      NoZeroCountNoGap(meals[1..]);
    }
  }

  /** The server's stored total for the form's record equals the preview
      total plus the zero-count gap; with no zero counts the two agree, and
      so do the two scores. The transport and digital components agree
      always. */
  lemma PreviewMatchesServer(f: FormData)
    ensures CalculateEmissions(f).transportation == Server.DailyFootprint(ToActivity(f)).transportationEmissions
    ensures CalculateEmissions(f).digital == Server.DailyFootprint(ToActivity(f)).digitalEmissions
    ensures NoZeroCount(f.meals) ==>
              && Server.DailyFootprint(ToActivity(f)).totalEmissions == CalculateEmissions(f).total
              && Server.SustainabilityScore(Server.DailyFootprint(ToActivity(f)).totalEmissions)
                 == CalculateEmissions(f).score
    ensures Server.DailyFootprint(ToActivity(f)).totalEmissions
            == CalculateEmissions(f).total + ZeroCountGap(f.meals)
  {
    var t := f.transportation;
    var d := f.digitalWaste;
    Client.TransportationAgrees(t.kind, t.distance);
    Client.DigitalAgrees(d.emails.GetOr(0.0), d.streamingHours.GetOr(0.0));
    MealsGap(f.meals);
    if NoZeroCount(f.meals) {
      NoZeroCountNoGap(f.meals);
      Client.ScoreAgrees(CalculateEmissions(f).total);
    }
  }

  /** A meat meal with count 0 previews as 0 kg, while the same record sent
      to the server is stored as 5 kg. */
  lemma ZeroCountMealDisagrees()
    ensures var f := InitialForm.(meals := [Meal("meat", Some(0.0))]);
            CalculateEmissions(f).total == 0.0
            && Server.DailyFootprint(ToActivity(f)).totalEmissions == 5.0
  {
    var f := InitialForm.(meals := [Meal("meat", Some(0.0))]);
    assert f.meals[1..] == [];
    assert ZeroCountGap(f.meals) == Server.MealEmissions("meat", 1.0) == 5.0;
    PreviewMatchesServer(f);
  }

  /** The preview of the untouched form: one vegan meal, 1.5 kg, score 94. */
  lemma InitialPreview()
    ensures CalculateEmissions(InitialForm) == Preview(0.0, 1.5, 0.0, 1.5, 94)
  {
    assert InitialForm.meals[1..] == [];
  }

  // ---------------------------------------------------------------------------
  // Editing the meal list
  // ---------------------------------------------------------------------------

  /** `addMeal()`: appends a vegan meal with count 1. */
  function AddMeal(f: FormData): (r: FormData)
    ensures |r.meals| == |f.meals| + 1
    ensures r.meals[..|f.meals|] == f.meals
    ensures r.meals[|f.meals|] == NewMeal
    ensures r.transportation == f.transportation && r.digitalWaste == f.digitalWaste
  {
    f.(meals := f.meals + [NewMeal])
  }

  /** `meals.filter((_, i) => i !== index)`, where `from` is the position of
      `s[0]` in the whole list. */
  function DropIndex(s: seq<Meal>, index: int, from: int): (r: seq<Meal>)
    ensures from <= index < from + |s| ==> r == s[..index - from] + s[index - from + 1..]
    ensures !(from <= index < from + |s|) ==> r == s
  {
    if |s| == 0 then []
    else
      var rest := DropIndex(s[1..], index, from + 1);
      if from == index then
        assert s[..0] + s[1..] == s[1..];
        rest
      else
        assert from < index < from + |s| ==> s[..index - from] == [s[0]] + s[1..][..index - from - 1];
        assert from < index < from + |s| ==> s[index - from + 1..] == s[1..][index - from..];
        [s[0]] + rest
  }

  /** `removeMeal(index)`: removes exactly the meal at `index`; any other
      index leaves the list as it is. */
  function RemoveMeal(f: FormData, index: int): (r: FormData)
    ensures 0 <= index < |f.meals| ==> r.meals == f.meals[..index] + f.meals[index + 1..]
    ensures !(0 <= index < |f.meals|) ==> r.meals == f.meals
    ensures r.transportation == f.transportation && r.digitalWaste == f.digitalWaste
  {
    f.(meals := DropIndex(f.meals, index, 0))
  }

  /** The edit `handleMealChange` applies: the field and its parsed value. */
  datatype MealEdit = SetKind(kind: string) | SetCount(count: int)

  /** `handleMealChange(index, field, value)` for an index the form renders. */
  function HandleMealChange(f: FormData, index: nat, edit: MealEdit): (r: FormData)
    requires index < |f.meals|
    ensures |r.meals| == |f.meals|
    ensures forall j :: 0 <= j < |f.meals| && j != index ==> r.meals[j] == f.meals[j]
    ensures edit.SetKind? ==> r.meals[index].kind == edit.kind && r.meals[index].count == f.meals[index].count
    ensures edit.SetCount? ==> r.meals[index].kind == f.meals[index].kind
                               && r.meals[index].count == Some(edit.count as real)
    ensures r.transportation == f.transportation && r.digitalWaste == f.digitalWaste
  {
    var m := f.meals[index];
    var m' := match edit
      case SetKind(k) => m.(kind := k)
      case SetCount(c) => m.(count := Some(c as real));
    f.(meals := f.meals[index := m'])
  }

  /** A user action on the form. Removal and per-meal edits are offered only
      where the form renders a control for them. */
  datatype Action =
    | AddMealAction
    | RemoveMealAction(index: int)
    | MealChangeAction(index: int, edit: MealEdit)
    | SetTransportKind(kind: string)
    | SetDistance(distance: real)
    | SetEmails(emails: int)
    | SetStreamingHours(hours: int)
    | SubmitAction(succeeded: bool)

  /** The form after one action. The remove button exists only while there is
      more than one meal; a successful submit resets the form, a failed one
      keeps what was entered. */
  function Step(f: FormData, a: Action): (r: FormData)
    ensures a.SetTransportKind? ==>
              r.transportation == Transport(a.kind, f.transportation.distance)
              && r.meals == f.meals && r.digitalWaste == f.digitalWaste
    ensures a.SetDistance? ==>
              r.transportation == Transport(f.transportation.kind, a.distance)
              && r.meals == f.meals && r.digitalWaste == f.digitalWaste
    ensures a.SetEmails? ==>
              r.digitalWaste == DigitalWaste(Some(a.emails as real), f.digitalWaste.streamingHours)
              && r.transportation == f.transportation && r.meals == f.meals
    ensures a.SetStreamingHours? ==>
              r.digitalWaste == DigitalWaste(f.digitalWaste.emails, Some(a.hours as real))
              && r.transportation == f.transportation && r.meals == f.meals
    ensures a.RemoveMealAction? && |f.meals| <= 1 ==> r == f
    ensures a.MealChangeAction? && !(0 <= a.index < |f.meals|) ==> r == f
  {
    match a
    case AddMealAction => AddMeal(f)
    case RemoveMealAction(i) => if |f.meals| > 1 then RemoveMeal(f, i) else f
    case MealChangeAction(i, e) => if 0 <= i < |f.meals| then HandleMealChange(f, i, e) else f
    case SetTransportKind(k) => f.(transportation := f.transportation.(kind := k))
    case SetDistance(d) => f.(transportation := f.transportation.(distance := d))
    case SetEmails(n) => f.(digitalWaste := f.digitalWaste.(emails := Some(n as real)))
    case SetStreamingHours(n) => f.(digitalWaste := f.digitalWaste.(streamingHours := Some(n as real)))
    case SubmitAction(ok) => if ok then InitialForm else f
  }

  /** The form after a sequence of actions. */
  function Run(f: FormData, actions: seq<Action>): FormData
    decreases |actions|
  {
    if |actions| == 0 then f else Run(Step(f, actions[0]), actions[1..])
  }

  /** A successful submit brings the form back to its initial state, whatever
      was entered. */
  lemma SubmitResets(f: FormData)
    ensures Step(f, SubmitAction(true)) == InitialForm
    ensures Step(f, SubmitAction(false)) == f
  {
  }

  /** One action never empties a non-empty meal list. */
  lemma StepKeepsAMeal(f: FormData, a: Action)
    requires |f.meals| >= 1
    ensures |Step(f, a).meals| >= 1
  {
  }

  /** Whatever the user does, starting from a form with a meal, the form
      always shows at least one meal. */
  lemma {:induction false} RunKeepsAMeal(f: FormData, actions: seq<Action>)
    requires |f.meals| >= 1
    ensures |Run(f, actions).meals| >= 1
    decreases |actions|
  {
    if |actions| > 0 {
      StepKeepsAMeal(f, actions[0]);
      RunKeepsAMeal(Step(f, actions[0]), actions[1..]);
    }
  }

  /** In particular from the initial form. */
  lemma ReachableFormHasAMeal(actions: seq<Action>)
    ensures |Run(InitialForm, actions).meals| >= 1
  {
    RunKeepsAMeal(InitialForm, actions);
  }

  // ---------------------------------------------------------------------------
  // The displayed preview
  // ---------------------------------------------------------------------------

  /** What the component keeps between renders: the form and the `preview`
      state (`None` for `null`: before the first refresh and after a
      successful submit). */
  datatype Screen = Screen(form: FormData, preview: Option<Preview>)

  /** `preview || calculateEmissions()`: the figures the form displays. */
  function Shown(s: Screen): Preview {
    s.preview.GetOr(CalculateEmissions(s.form))
  }

  /** The component after mounting: the effect stores the initial preview. */
  const Mounted: Screen := Screen(InitialForm, Some(CalculateEmissions(InitialForm)))

  /** The form renders a control for the action: a remove button only while
      there is more than one meal, and controls only for existing meals. */
  predicate Offered(f: FormData, a: Action) {
    match a
    case RemoveMealAction(i) => |f.meals| > 1 && 0 <= i < |f.meals|
    case MealChangeAction(i, _) => 0 <= i < |f.meals|
    case _ => true
  }

  /** The handlers as written: each updates the form and then calls
      `updatePreview()`, whose `calculateEmissions` still reads the form of
      the render the handler belongs to, that is, the form before the edit;
      `addMeal` does not refresh the preview at all. */
  function ScreenStepAsWritten(s: Screen, a: Action): (r: Screen)
    ensures r.form == Step(s.form, a)
    ensures Offered(s.form, a) && !a.AddMealAction? && !a.SubmitAction? ==>
              r.preview == Some(CalculateEmissions(s.form))
    ensures a.AddMealAction? ==> r.preview == s.preview
    ensures a.SubmitAction? ==> r.preview == if a.succeeded then None else s.preview
  {
    if !Offered(s.form, a) then s
    else
      match a
      case AddMealAction => s.(form := AddMeal(s.form))
      case SubmitAction(ok) => if ok then Screen(InitialForm, None) else s
      case _ => Screen(Step(s.form, a), Some(CalculateEmissions(s.form)))
  }

  /** The handlers with the preview refreshed from the edited form. */
  function ScreenStep(s: Screen, a: Action): (r: Screen)
    ensures r.form == Step(s.form, a)
    ensures Offered(s.form, a) && !a.SubmitAction? ==> Shown(r) == CalculateEmissions(r.form)
    ensures Shown(s) == CalculateEmissions(s.form) ==> Shown(r) == CalculateEmissions(r.form)
    ensures a.SubmitAction? ==> r.preview == if a.succeeded then None else s.preview
  {
    if !Offered(s.form, a) then s
    else
      match a
      case SubmitAction(ok) => if ok then Screen(InitialForm, None) else s
      case _ =>
        var f := Step(s.form, a);
        Screen(f, Some(CalculateEmissions(f)))
  }

  function RunScreenAsWritten(s: Screen, actions: seq<Action>): Screen
    decreases |actions|
  {
    if |actions| == 0 then s else RunScreenAsWritten(ScreenStepAsWritten(s, actions[0]), actions[1..])
  }

  function RunScreen(s: Screen, actions: seq<Action>): Screen
    decreases |actions|
  {
    if |actions| == 0 then s else RunScreen(ScreenStep(s, actions[0]), actions[1..])
  }

  /** As written, the displayed preview lags one edit behind: choosing a car
      and then 10 km shows 1.5 kg (the form with the car at 0 km), while the
      form submitted from that screen is stored as 3.6 kg. */
  lemma StalePreviewAsWritten()
    ensures var s := RunScreenAsWritten(Mounted, [SetTransportKind("car"), SetDistance(10.0)]);
            && s.form == InitialForm.(transportation := Transport("car", 10.0))
            && Shown(s).total == 1.5
            && CalculateEmissions(s.form).total == 3.6
            && Server.DailyFootprint(ToActivity(s.form)).totalEmissions == 3.6
  {
    var actions := [SetTransportKind("car"), SetDistance(10.0)];
    var s1 := ScreenStepAsWritten(Mounted, actions[0]);
    assert actions[1..] == [SetDistance(10.0)];
    assert s1 == Screen(InitialForm.(transportation := Transport("car", 0.0)), Some(CalculateEmissions(InitialForm)));
    InitialPreview();
    var f := InitialForm.(transportation := Transport("car", 10.0));
    assert f.meals[1..] == [];
    assert ZeroCountGap(f.meals) == 0.0;
    Server.CategoryExamples();
    PreviewMatchesServer(f);
  }

  /** Typing the distance as "1" and then "0" is two changes: the screen then
      shows 1.71 kg (the car at 1 km), while the form holds 10 km. */
  lemma StalePreviewWhileTyping()
    ensures var s := RunScreenAsWritten(Mounted, [SetTransportKind("car"), SetDistance(1.0), SetDistance(10.0)]);
            && s.form == InitialForm.(transportation := Transport("car", 10.0))
            && Shown(s).total == 1.71
  {
    var actions := [SetTransportKind("car"), SetDistance(1.0), SetDistance(10.0)];
    var s1 := ScreenStepAsWritten(Mounted, actions[0]);
    assert actions[1..] == [SetDistance(1.0), SetDistance(10.0)];
    assert actions[1..][1..] == [SetDistance(10.0)];
    var f1 := InitialForm.(transportation := Transport("car", 1.0));
    var s2 := ScreenStepAsWritten(s1, actions[1]);
    assert s2.form == f1;
    assert Factor(Client.EmissionFactors.transportation, "car") * 1.0 == 0.21;
    Round2OfCents(0.21);
    assert Client.TransportationEmissions("car", 1.0) == 0.21;
    InitialPreview();
    assert CalculateEmissions(f1).meals == CalculateEmissions(InitialForm).meals;
    assert CalculateEmissions(f1).digital == CalculateEmissions(InitialForm).digital;
  }

  /** With the preview refreshed from the edited form, whatever the user
      does, the form displays the figures of the form it holds. */
  lemma {:induction false} ScreenAlwaysCurrent(s: Screen, actions: seq<Action>)
    requires Shown(s) == CalculateEmissions(s.form)
    ensures Shown(RunScreen(s, actions)) == CalculateEmissions(RunScreen(s, actions).form)
    decreases |actions|
  {
    if |actions| > 0 {
      ScreenAlwaysCurrent(ScreenStep(s, actions[0]), actions[1..]);
    }
  }

  /** In particular from the mounted component. */
  lemma MountedScreenAlwaysCurrent(actions: seq<Action>)
    ensures Shown(RunScreen(Mounted, actions)) == CalculateEmissions(RunScreen(Mounted, actions).form)
  {
    ScreenAlwaysCurrent(Mounted, actions);
  }
}

/** The per-project test list (src/screens/TestList.js): a title, then an
    error text, an empty notice or one card per test with its frequency
    label. */
module TestList {
  import opened Common
  import opened ProjectContext

  /** `frequencyLabels[test.test_frequency] || 'Unknown'`. */
  function FrequencyLabel(f: Frequency): (r: string)
    ensures r == "Unknown" <==> f.Unrecognised?
  {
    match f
    case Daily => "Daily"
    case Weekly => "Weekly"
    case OnceAtEnd => "One Time at the End"
    case BeforeStart => "One Time Before Start"
    case DateSchedule => "As per the Date schedule"
    case Unrecognised(_) => "Unknown"
  }

  /** The five known codes have five different labels, so the label names the code. */
  lemma KnownLabelsDistinct(a: Frequency, b: Frequency)
    requires !a.Unrecognised? && FrequencyLabel(a) == FrequencyLabel(b)
    ensures FrequencyCode(a) == FrequencyCode(b)
  {
  }

  /** A test shown with frequency 'Unknown' is never among today's tasks. */
  lemma UnknownNeverScheduled(t: TestType, d: int)
    requires FrequencyLabel(t.frequency) == "Unknown"
    ensures !IsTestScheduledToday(t.frequency, t.noOfDays, d)
  {
  }

  datatype TestCard = TestCard(key: int, name: string, frequency: string)

  /** The body under 'Tests Overview'. */
  datatype TestsView = Failed(message: string) | NoTests | Cards(cards: seq<TestCard>)

  /** The screen: its title and body, or the TypeError a render throws. */
  datatype Screen = Crashed | Shown(title: string, body: TestsView)

  /** The fields the screen destructures from the project context; None is
      a field the context value does not define. `errors` maps a reference
      number to that project's `tests` error text. */
  datatype ScreenContext = ScreenContext(
    testsByProject: map<string, seq<TestType>>,
    projectTitles: Option<map<string, string>>,
    errors: Option<map<string, Option<string>>>)

  function CardsOf(tests: seq<TestType>): (r: seq<TestCard>)
    ensures |r| == |tests|
    ensures forall i :: 0 <= i < |tests| ==>
      r[i].key == tests[i].id && r[i].name == tests[i].name &&
      (r[i].frequency == "Unknown" <==> tests[i].frequency.Unrecognised?)
  {
    if |tests| == 0 then []
    else [TestCard(tests[0].id, tests[0].name, FrequencyLabel(tests[0].frequency))] + CardsOf(tests[1..])
  }

  /** The body once the tests and the project's error text are known: the
      error wins, then an empty list shows the notice, else the cards. */
  function Body(testsError: Option<string>, tests: seq<TestType>): (r: TestsView)
    ensures r.Failed? <==> Truthy(testsError)
    ensures r.Failed? ==> r.message == testsError.value
    ensures r.NoTests? <==> !Truthy(testsError) && |tests| == 0
    ensures r.Cards? ==> |r.cards| == |tests| > 0 && r.cards == CardsOf(tests)
  {
    if Truthy(testsError) then Failed(testsError.value)
    else if |tests| == 0 then NoTests
    else Cards(CardsOf(tests))
  }

  function TestsOf(ctx: ScreenContext, ref: string): seq<TestType>
  {
    if ref in ctx.testsByProject then ctx.testsByProject[ref] else []
  }

  /** The render as written: `projectTitles[ref_num]` and `errors[ref_num]`
      index the destructured fields directly, which throws when the context
      does not define them. */
  function RenderAsWritten(ctx: ScreenContext, ref: string): (r: Screen)
    ensures r.Crashed? <==> ctx.projectTitles.None? || ctx.errors.None?
  {
    if ctx.projectTitles.None? || ctx.errors.None? then Crashed
    else
      var titles, errors := ctx.projectTitles.value, ctx.errors.value;
      var title := OrDefault(if ref in titles then Some(titles[ref]) else None, ref);
      Shown(title, Body(if ref in errors then errors[ref] else None, TestsOf(ctx, ref)))
  }

  /** The context value of context/ProjectContext.js defines `testsByProject`
      but neither `projectTitles` nor `errors`. */
  function ProviderContext(testsByProject: map<string, seq<TestType>>): ScreenContext
  {
    ScreenContext(testsByProject, None, None)
  }

  /** Under that provider the screen throws for every project. */
  lemma RenderUnderProviderCrashes(testsByProject: map<string, seq<TestType>>, ref: string)
    ensures RenderAsWritten(ProviderContext(testsByProject), ref) == Crashed
  {
  }

  /** The render with the missing fields read as empty (`projectTitles?.[ref_num]`,
      `errors?.[ref_num]?.tests`): it never throws, the title falls back to
      the reference number, and the body follows the error/empty/cards order. */
  function Render(ctx: ScreenContext, ref: string): (r: Screen)
    ensures r.Shown?
    ensures ctx.projectTitles.None? ==> r.title == ref
    ensures ctx.projectTitles.Some? && ctx.errors.Some? ==> r == RenderAsWritten(ctx, ref)
    ensures ctx.errors.None? ==> r.body == Body(None, TestsOf(ctx, ref))
  {
    var title :=
      if ctx.projectTitles.Some? && ref in ctx.projectTitles.value then OrDefault(Some(ctx.projectTitles.value[ref]), ref)
      else ref;
    var testsError :=
      if ctx.errors.Some? && ref in ctx.errors.value then ctx.errors.value[ref] else None;
    Shown(title, Body(testsError, TestsOf(ctx, ref)))
  }

  /** Under the provider, the repaired screen lists the project's tests. */
  lemma RenderUnderProviderShowsTests(testsByProject: map<string, seq<TestType>>, ref: string)
    ensures var r := Render(ProviderContext(testsByProject), ref);
      r.title == ref &&
      (ref !in testsByProject || |testsByProject[ref]| == 0 ==> r.body == NoTests) &&
      (ref in testsByProject && |testsByProject[ref]| > 0 ==> r.body.Cards? && r.body.cards == CardsOf(testsByProject[ref]))
  {
  }
}

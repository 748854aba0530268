/** `HookListener`: subscribes to the test runner's events and turns them
    into fixture-service calls, gated by the configured lifetime (`feature`
    or `scenario`). */
module Hooks {
  import opened Wrappers
  import opened World
  import opened Fixtures

  /** The Behat events the listener subscribes to: the exercise start, and
      before and after each feature, scenario and outline example. */
  datatype BehatEvent =
    | ExerciseBefore
    | FeatureBefore
    | FeatureAfter
    | ExampleBefore
    | ScenarioBefore
    | ExampleAfter
    | ScenarioAfter

  /** The listener's handler methods. */
  datatype Handler = BeforeExercise | BeforeFeature | AfterFeature | BeforeScenario | AfterScenario

  /** `getSubscribedEvents`: each event with the handler it goes to. */
  function SubscribedEvents(): (table: seq<(BehatEvent, Handler)>)
    ensures |table| == 7
    ensures forall e: BehatEvent :: (e, HandlerFor(e)) in table
    ensures forall i, j :: 0 <= i < j < |table| ==> table[i].0 != table[j].0
  {
    var table := [
      (ExerciseBefore, BeforeExercise),
      (FeatureBefore, BeforeFeature),
      (FeatureAfter, AfterFeature),
      (ExampleBefore, BeforeScenario),
      (ScenarioBefore, BeforeScenario),
      (ExampleAfter, AfterScenario),
      (ScenarioAfter, AfterScenario)];
    assert forall e: BehatEvent :: table[Position(e)] == (e, HandlerFor(e));
    table
  }

  /** Where an event sits in the subscription table. */
  function Position(e: BehatEvent): nat {
    match e
    case ExerciseBefore => 0
    case FeatureBefore => 1
    case FeatureAfter => 2
    case ExampleBefore => 3
    case ScenarioBefore => 4
    case ExampleAfter => 5
    case ScenarioAfter => 6
  }

  /** The handler the event dispatcher calls for an event. */
  function HandlerFor(e: BehatEvent): Handler {
    match e
    case ExerciseBefore => BeforeExercise
    case FeatureBefore => BeforeFeature
    case FeatureAfter => AfterFeature
    case ExampleBefore | ScenarioBefore => BeforeScenario
    case ExampleAfter | ScenarioAfter => AfterScenario
  }

  /** Outline examples are handled exactly like scenarios. */
  lemma ExamplesLikeScenarios()
    ensures (ExampleBefore, BeforeScenario) in SubscribedEvents() && (ScenarioBefore, BeforeScenario) in SubscribedEvents()
    ensures (ExampleAfter, AfterScenario) in SubscribedEvents() && (ScenarioAfter, AfterScenario) in SubscribedEvents()
  {
    assert HandlerFor(ExampleBefore) == HandlerFor(ScenarioBefore) == BeforeScenario;
    assert HandlerFor(ExampleAfter) == HandlerFor(ScenarioAfter) == AfterScenario;
  }

  /** What a handler calls under a lifetime: the exercise handler always
      caches; the feature handlers act only for `feature`, the scenario
      handlers only for `scenario`. */
  function CallOf(lifetime: string, h: Handler): (c: Option<Call>)
    ensures h == BeforeExercise ==> c == Some(Cache)
    ensures (h == BeforeFeature || h == AfterFeature) ==> (c.Some? <==> lifetime == "feature")
    ensures (h == BeforeScenario || h == AfterScenario) ==> (c.Some? <==> lifetime == "scenario")
    ensures c.Some? && (h == BeforeFeature || h == BeforeScenario) ==> c.value == Reload
    ensures c.Some? && (h == AfterFeature || h == AfterScenario) ==> c.value == Flush
  {
    match h
    case BeforeExercise => Some(Cache)
    case BeforeFeature => if lifetime == "feature" then Some(Reload) else None
    case AfterFeature => if lifetime == "feature" then Some(Flush) else None
    case BeforeScenario => if lifetime == "scenario" then Some(Reload) else None
    case AfterScenario => if lifetime == "scenario" then Some(Flush) else None
  }

  /** For either configured lifetime exactly one of the two handler pairs
      is active. */
  lemma ExactlyOnePairActive(lifetime: string)
    requires lifetime == "feature" || lifetime == "scenario"
    ensures CallOf(lifetime, BeforeFeature).Some? != CallOf(lifetime, BeforeScenario).Some?
    ensures CallOf(lifetime, AfterFeature).Some? != CallOf(lifetime, AfterScenario).Some?
    ensures CallOf(lifetime, BeforeFeature).Some? == CallOf(lifetime, AfterFeature).Some?
  {
  }

  /** The service call one event produces, if any. */
  function EventCalls(lifetime: string, e: BehatEvent): (calls: seq<Call>)
    ensures |calls| <= 1
  {
    var c := CallOf(lifetime, HandlerFor(e));
    if c.Some? then [c.value] else []
  }

  /** The service calls a sequence of events produces. */
  function Calls(lifetime: string, events: seq<BehatEvent>): (calls: seq<Call>)
    ensures |calls| <= |events|
  {
    if events == [] then [] else EventCalls(lifetime, events[0]) + Calls(lifetime, events[1..])
  }

  lemma {:induction false} CallsAppend(lifetime: string, a: seq<BehatEvent>, b: seq<BehatEvent>)
    ensures Calls(lifetime, a + b) == Calls(lifetime, a) + Calls(lifetime, b)
  {
    if a == [] {
      assert a + b == b;
    } else {
      assert (a + b)[0] == a[0] && (a + b)[1..] == a[1..] + b;
      CallsAppend(lifetime, a[1..], b);
      var first := EventCalls(lifetime, a[0]);
      assert first + (Calls(lifetime, a[1..]) + Calls(lifetime, b)) == first + Calls(lifetime, a[1..]) + Calls(lifetime, b);
    }
  }

  /** `n` reload-then-flush cycles. */
  function Cycles(n: nat): (calls: seq<Call>)
    ensures |calls| == 2 * n
  {
    if n == 0 then [] else [Reload, Flush] + Cycles(n - 1)
  }

  /** The events of one scenario, or of one outline example. */
  function ScenarioEvents(example: bool): seq<BehatEvent> {
    if example then [ExampleBefore, ExampleAfter] else [ScenarioBefore, ScenarioAfter]
  }

  /** The events of a feature whose scenarios are listed (`true` for an
      outline example). */
  function ScenariosEvents(scenarios: seq<bool>): seq<BehatEvent> {
    if scenarios == [] then [] else ScenarioEvents(scenarios[0]) + ScenariosEvents(scenarios[1..])
  }

  function FeatureEvents(scenarios: seq<bool>): seq<BehatEvent> {
    [FeatureBefore] + ScenariosEvents(scenarios) + [FeatureAfter]
  }

  /** The events of a whole exercise. */
  function FeaturesEvents(features: seq<seq<bool>>): seq<BehatEvent> {
    if features == [] then [] else FeatureEvents(features[0]) + FeaturesEvents(features[1..])
  }

  function ExerciseEvents(features: seq<seq<bool>>): seq<BehatEvent> {
    [ExerciseBefore] + FeaturesEvents(features)
  }

  function ScenarioCount(features: seq<seq<bool>>): nat {
    if features == [] then 0 else |features[0]| + ScenarioCount(features[1..])
  }

  lemma CyclesAdd(m: nat, n: nat)
    ensures Cycles(m) + Cycles(n) == Cycles(m + n)
  {
    if m > 0 {
      CyclesAdd(m - 1, n);
      assert [Reload, Flush] + Cycles(m - 1) + Cycles(n) == [Reload, Flush] + (Cycles(m - 1) + Cycles(n));
    }
  }

  /** One scenario or example is one reload-then-flush cycle under
      `scenario`, and nothing under `feature`. */
  lemma ScenarioCalls(lifetime: string, example: bool)
    requires lifetime == "feature" || lifetime == "scenario"
    ensures Calls(lifetime, ScenarioEvents(example)) == if lifetime == "scenario" then [Reload, Flush] else []
  {
    var one := ScenarioEvents(example);
    ExamplesLikeScenarios();
    assert one[1..][1..] == [];
    assert Calls(lifetime, one) == EventCalls(lifetime, one[0]) + (EventCalls(lifetime, one[1]) + []);
  }

  /** Every scenario or example of a feature is one reload-then-flush
      cycle under `scenario`, and none under `feature`. */
  lemma {:induction false} ScenariosCalls(lifetime: string, scenarios: seq<bool>)
    requires lifetime == "feature" || lifetime == "scenario"
    ensures Calls(lifetime, ScenariosEvents(scenarios)) == if lifetime == "scenario" then Cycles(|scenarios|) else []
  {
    if scenarios != [] {
      var one, more := ScenarioEvents(scenarios[0]), scenarios[1..];
      var tail := ScenariosEvents(more);
      assert ScenariosEvents(scenarios) == one + tail;
      ScenarioCalls(lifetime, scenarios[0]);
      CallsAppend(lifetime, one, tail);
      ScenariosCalls(lifetime, more);
      if lifetime == "scenario" {
        CyclesAdd(1, |more|);
      }
    }
  }

  /** A feature is one reload-then-flush cycle under `feature`, and one per
      scenario or example under `scenario`. */
  lemma FeatureCalls(lifetime: string, scenarios: seq<bool>)
    requires lifetime == "feature" || lifetime == "scenario"
    ensures Calls(lifetime, FeatureEvents(scenarios))
         == if lifetime == "feature" then Cycles(1) else Cycles(|scenarios|)
  {
    var inner := ScenariosEvents(scenarios);
    CallsAppend(lifetime, [FeatureBefore] + inner, [FeatureAfter]);
    CallsAppend(lifetime, [FeatureBefore], inner);
    ScenariosCalls(lifetime, scenarios);
    if lifetime == "feature" {
      assert Calls(lifetime, inner) == [];
    }
  }

  lemma CyclesJoin(calls: seq<Call>, m: nat, n: nat, total: nat)
    requires calls == Cycles(m) + Cycles(n) && total == m + n
    ensures calls == Cycles(total)
  {
    CyclesAdd(m, n);
  }

  /** The number of reload-then-flush cycles of an exercise: one per
      feature under `feature`, one per scenario or example under `scenario`. */
  function GroupCount(lifetime: string, features: seq<seq<bool>>): nat {
    if lifetime == "feature" then |features| else ScenarioCount(features)
  }

  lemma {:induction false} FeaturesCalls(lifetime: string, features: seq<seq<bool>>)
    requires lifetime == "feature" || lifetime == "scenario"
    ensures Calls(lifetime, FeaturesEvents(features)) == Cycles(GroupCount(lifetime, features))
  {
    if features == [] {
      assert FeaturesEvents(features) == [] && Calls(lifetime, []) == [];
      assert GroupCount(lifetime, features) == 0 && Cycles(0) == [];
    } else {
      var f, more := features[0], features[1..];
      var head, tail := FeatureEvents(f), FeaturesEvents(more);
      var k := if lifetime == "feature" then 1 else |f|;
      assert FeaturesEvents(features) == head + tail;
      CallsAppend(lifetime, head, tail);
      FeatureCalls(lifetime, f);
      assert Calls(lifetime, head) == Cycles(k);
      FeaturesCalls(lifetime, more);
      assert GroupCount(lifetime, features) == k + GroupCount(lifetime, more);
      CyclesJoin(Calls(lifetime, head + tail), k, GroupCount(lifetime, more), GroupCount(lifetime, features));
    }
  }

  /** A whole exercise caches once and then reloads and flushes once per
      group: per feature under `feature`, per scenario or example under
      `scenario`. */
  lemma ExerciseCalls(lifetime: string, features: seq<seq<bool>>)
    requires lifetime == "feature" || lifetime == "scenario"
    ensures Calls(lifetime, ExerciseEvents(features))
         == [Cache] + if lifetime == "feature" then Cycles(|features|) else Cycles(ScenarioCount(features))
  {
    CallsAppend(lifetime, [ExerciseBefore], FeaturesEvents(features));
    FeaturesCalls(lifetime, features);
  }

  /** The fixture-service operation behind `call`. */
  method Invoke(service: FixtureService, call: Call, host: Host) returns (r: Outcome<Error>)
    requires service.Valid()
    modifies service, host
    ensures service.calls == old(service.calls) + [call]
  {
    match call
    case Cache => r := service.CacheFixtures(host);
    case Reload => r := service.ReloadFixtures(host);
    case Flush => r := service.Flush(host);
  }

  class HookListener {
    /** `feature` or `scenario` */
    const lifetime: string
    var fixtureService: FixtureService?

    predicate Valid()
      reads this
    {
      fixtureService != null ==> fixtureService.Valid()
    }

    constructor(lifetime: string)
      ensures this.lifetime == lifetime && fixtureService == null && Valid()
    {
      this.lifetime := lifetime;
      fixtureService := null;
    }

    /** `setFixtureService`. */
    method SetFixtureService(service: FixtureService)
      requires service.Valid()
      modifies this`fixtureService
      ensures fixtureService == service && Valid()
    {
      fixtureService := service;
    }

    /** Makes `call` on the fixture service; without one it throws. */
    method Perform(call: Call, host: Host) returns (r: Outcome<Error>)
      requires Valid()
      modifies fixtureService, host
      ensures Valid()
      ensures fixtureService == null ==>
        r == Fail(NullReference("fixtureService")) && unchanged(host)
      ensures fixtureService != null ==> fixtureService.calls == old(fixtureService.calls) + [call]
    {
      if fixtureService == null {
        return Fail(NullReference("fixtureService"));
      }
      r := Invoke(fixtureService, call, host);
    }

    /** `beforeExercise`: the fixtures are cached whatever the lifetime. */
    method BeforeExercise(host: Host) returns (r: Outcome<Error>)
      requires Valid()
      modifies fixtureService, host
      ensures Valid()
      ensures fixtureService != null ==> fixtureService.calls == old(fixtureService.calls) + [Cache]
      ensures fixtureService == null ==> r == Fail(NullReference("fixtureService")) && unchanged(host)
    {
      r := Perform(Cache, host);
    }

    /** `beforeFeature`: reloads only for the `feature` lifetime. */
    method BeforeFeature(host: Host) returns (r: Outcome<Error>)
      requires Valid()
      modifies fixtureService, host
      ensures lifetime != "feature" ==>
        r == Pass && unchanged(host) && (fixtureService != null ==> unchanged(fixtureService))
      ensures Valid()
      ensures lifetime == "feature" && fixtureService != null ==>
        fixtureService.calls == old(fixtureService.calls) + [Reload]
      ensures lifetime == "feature" && fixtureService == null ==>
        r == Fail(NullReference("fixtureService")) && unchanged(host)
    {
      if lifetime != "feature" {
        return Pass;
      }
      r := Perform(Reload, host);
    }

    /** `afterFeature`: flushes only for the `feature` lifetime. */
    method AfterFeature(host: Host) returns (r: Outcome<Error>)
      requires Valid()
      modifies fixtureService, host
      ensures lifetime != "feature" ==>
        r == Pass && unchanged(host) && (fixtureService != null ==> unchanged(fixtureService))
      ensures Valid()
      ensures lifetime == "feature" && fixtureService != null ==>
        fixtureService.calls == old(fixtureService.calls) + [Flush]
      ensures lifetime == "feature" && fixtureService == null ==>
        r == Fail(NullReference("fixtureService")) && unchanged(host)
    {
      if lifetime != "feature" {
        return Pass;
      }
      r := Perform(Flush, host);
    }

    /** `beforeScenario`: reloads only for the `scenario` lifetime. */
    method BeforeScenario(host: Host) returns (r: Outcome<Error>)
      requires Valid()
      modifies fixtureService, host
      ensures lifetime != "scenario" ==>
        r == Pass && unchanged(host) && (fixtureService != null ==> unchanged(fixtureService))
      ensures Valid()
      ensures lifetime == "scenario" && fixtureService != null ==>
        fixtureService.calls == old(fixtureService.calls) + [Reload]
      ensures lifetime == "scenario" && fixtureService == null ==>
        r == Fail(NullReference("fixtureService")) && unchanged(host)
    {
      if lifetime != "scenario" {
        return Pass;
      }
      r := Perform(Reload, host);
    }

    /** `afterScenario`: flushes only for the `scenario` lifetime. */
    method AfterScenario(host: Host) returns (r: Outcome<Error>)
      requires Valid()
      modifies fixtureService, host
      ensures lifetime != "scenario" ==>
        r == Pass && unchanged(host) && (fixtureService != null ==> unchanged(fixtureService))
      ensures Valid()
      ensures lifetime == "scenario" && fixtureService != null ==>
        fixtureService.calls == old(fixtureService.calls) + [Flush]
      ensures lifetime == "scenario" && fixtureService == null ==>
        r == Fail(NullReference("fixtureService")) && unchanged(host)
    {
      if lifetime != "scenario" {
        return Pass;
      }
      r := Perform(Flush, host);
    }

    /** The event dispatcher delivering `e` to the handler the table names:
        the calls made are those `Calls` predicts. */
    method Notify(e: BehatEvent, host: Host) returns (r: Outcome<Error>)
      requires Valid()
      modifies fixtureService, host
      ensures Valid()
      ensures fixtureService != null ==> fixtureService.calls == old(fixtureService.calls) + Calls(lifetime, [e])
      ensures CallOf(lifetime, HandlerFor(e)).None? ==>
        r == Pass && unchanged(host) && (fixtureService != null ==> unchanged(fixtureService))
      ensures CallOf(lifetime, HandlerFor(e)).Some? && fixtureService == null ==>
        r == Fail(NullReference("fixtureService")) && unchanged(host)
    {
      match HandlerFor(e)
      case BeforeExercise => r := BeforeExercise(host);
      case BeforeFeature => r := BeforeFeature(host);
      case AfterFeature => r := AfterFeature(host);
      case BeforeScenario => r := BeforeScenario(host);
      case AfterScenario => r := AfterScenario(host);
    }
  }
}

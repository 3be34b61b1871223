/** The PC builder state machine: a transition table over nine states with two invoked actors. */
module BuilderMachine {
  import opened Basics

  datatype Kind = Cpu | Gpu | Motherboard | Ram | Case | Cooler | Storage | Psu

  /** `SelectedComponents`: a partial record of ids. */
  type Selection = map<Kind, string>

  datatype Preferences = Preferences(budget: Option<int>, purpose: string, resolution: string, refreshHz: int,
                                     region: string, brandBias: seq<string>)

  const DEFAULT_PREFERENCES := Preferences(None, "gaming", "1440p", 144, "SA", [])

  datatype Compatibility = Compatibility(valid: bool, details: seq<string>)
  datatype Performance = Performance(expectedFps: int)
  datatype Bundle = Bundle(compatibility: Compatibility, performance: Option<Performance>)
  datatype Builds = Builds(count: nat, notes: seq<string>)

  /** The answer to one backend call: a payload, or the text of the error it was rejected with. */
  datatype Reply<+T> = Answer(value: T) | Error(message: string)

  datatype Question = Question(selected: Selection, preferences: Preferences)

  /** The backend; it may answer each invocation, counted from 0, differently. */
  datatype Backend = Backend(
    compatibility: (Question, nat) -> Reply<Compatibility>,
    performance: (Question, nat) -> Reply<Performance>,
    builds: (Preferences, nat) -> Reply<Builds>)

  predicate Picked(s: Selection, k: Kind) {
    k in s && s[k] != ""
  }

  /** `validateAndMeasure`: performance is asked for only when a CPU and a GPU are selected. */
  function ValidateAndMeasure(b: Backend, q: Question, n: nat): Reply<Bundle> {
    match b.compatibility(q, n)
    case Error(m) => Error(m)
    case Answer(c) =>
      if Picked(q.selected, Cpu) && Picked(q.selected, Gpu) then
        match b.performance(q, n)
        case Error(m) => Error(m)
        case Answer(p) => Answer(Bundle(c, Some(p)))
      else Answer(Bundle(c, None))
  }

  datatype Context = Context(
    selected: Selection,
    preferences: Preferences,
    validation: Option<Bundle>,
    generatedBuilds: Option<Builds>,
    error: Option<string>,
    buildError: Option<string>,
    activeKind: Kind)

  /** What the context asks the backend. */
  function Posed(c: Context): Question {
    Question(c.selected, c.preferences)
  }

  const INITIAL_CONTEXT := Context(map[], DEFAULT_PREFERENCES, None, None, None, None, Cpu)

  datatype Node =
    | Idle | SelectingCpu | SelectingMotherboard | Validating | ValidConfiguration
    | InvalidConfiguration | GeneratingBuild | BuildGenerated | BuildError

  /** The actor that is running, with the input it was started with. */
  datatype Actor = ValidateWithBackend(input: Question) | GenerateWithBackend(preferences: Preferences)

  /** `invocations` counts the actors started so far; the running one has number `invocations - 1`. */
  datatype Machine = Machine(node: Node, context: Context, actor: Option<Actor>, invocations: nat)

  const INITIAL := Machine(Idle, INITIAL_CONTEXT, None, 0)

  datatype Event =
    | Start
    | GenerateBuild
    | ApplyGeneratedBuild(selection: Selection)
    | SelectComponent(kind: Kind, componentId: string)
    | SetPreferences(preferences: Preferences)
    | Retry
    | Reset
    | Settle  // the running actor's promise settles

  function AssignSelection(c: Context, kind: Kind, id: string): Context {
    c.(selected := c.selected[kind := id], activeKind := kind, error := None)
  }

  function AssignFullSelection(c: Context, selection: Selection): Context {
    c.(selected := selection, error := None)
  }

  function AssignPreferences(c: Context, p: Preferences): Context {
    c.(preferences := p, error := None)
  }

  /** Entering a state that invokes an actor snapshots the context for it. */
  function Enter(m: Machine, node: Node, c: Context): Machine {
    match node
    case Validating => Machine(node, c, Some(ValidateWithBackend(Posed(c))), m.invocations + 1)
    case GeneratingBuild => Machine(node, c, Some(GenerateWithBackend(c.preferences)), m.invocations + 1)
    case _ => Machine(node, c, None, m.invocations)
  }

  function SettleActor(b: Backend, m: Machine): Machine
    requires m.actor.Some? && m.invocations > 0
  {
    match m.actor.value
    case ValidateWithBackend(q) => (
      match ValidateAndMeasure(b, q, m.invocations - 1)
      case Answer(output) =>
        var c := m.context.(validation := Some(output), error := None);
        Enter(m, if output.compatibility.valid then ValidConfiguration else InvalidConfiguration, c)
      case Error(message) => Enter(m, InvalidConfiguration, m.context.(error := Some(message))))
    case GenerateWithBackend(p) =>
      match b.builds(p, m.invocations - 1)
      case Answer(output) => Enter(m, BuildGenerated, m.context.(generatedBuilds := Some(output), buildError := None))
      case Error(message) => Enter(m, BuildError, m.context.(buildError := Some(message)))
  }

  /** The states with handlers for RESET and APPLY_GENERATED_BUILD: all but idle and the two invoking ones. */
  predicate IsOpen(n: Node) {
    !n.Idle? && !n.Validating? && !n.GeneratingBuild?
  }

  /** The events a state has a handler for; all others are dropped. */
  predicate Accepts(m: Machine, e: Event) {
    match e
    case Start => m.node.Idle?
    case GenerateBuild => m.node.Idle? || IsOpen(m.node)
    case ApplyGeneratedBuild(_) => IsOpen(m.node)
    case SelectComponent(_, _) => m.node.Idle? || (IsOpen(m.node) && !m.node.BuildError?)
    case SetPreferences(_) => m.node.Idle? || IsOpen(m.node)
    case Retry => m.node.InvalidConfiguration?
    case Reset => IsOpen(m.node)
    case Settle => m.actor.Some? && m.invocations > 0
  }

  function Step(b: Backend, m: Machine, e: Event): Machine {
    if !Accepts(m, e) then m
    else match e
      case Start => Enter(m, SelectingCpu, m.context)
      case GenerateBuild => Enter(m, GeneratingBuild, m.context)
      case ApplyGeneratedBuild(selection) => Enter(m, Validating, AssignFullSelection(m.context, selection))
      case SelectComponent(kind, id) => Enter(m, Validating, AssignSelection(m.context, kind, id))
      case SetPreferences(p) =>
        var c := AssignPreferences(m.context, p);
        if m.node.ValidConfiguration? || m.node.InvalidConfiguration? then Enter(m, Validating, c)
        else m.(context := c)
      case Retry => Enter(m, Validating, m.context)
      case Reset => Enter(m, Idle, INITIAL_CONTEXT)
      case Settle => SettleActor(b, m)
  }

  function Run(b: Backend, m: Machine, es: seq<Event>): Machine
    decreases |es|
  {
    if es == [] then m else Run(b, Step(b, m, es[0]), es[1..])
  }

  lemma {:induction false} RunAppend(b: Backend, m: Machine, es: seq<Event>, fs: seq<Event>)
    ensures Run(b, m, es + fs) == Run(b, Run(b, m, es), fs)
    decreases |es|
  {
    if es == [] {
      assert es + fs == fs;
    } else {
      assert (es + fs)[1..] == es[1..] + fs;
      RunAppend(b, Step(b, m, es[0]), es[1..], fs);
    }
  }

  // ---------- freshness ----------

  /** The stored validation is what the backend answered, on some invocation so far, to exactly the
      selection and preferences in the context. */
  ghost predicate Fresh(b: Backend, m: Machine) {
    && m.context.validation.Some?
    && exists n :: 0 <= n < m.invocations &&
         ValidateAndMeasure(b, Posed(m.context), n) == Answer(m.context.validation.value)
  }

  ghost predicate Invariant(b: Backend, m: Machine) {
    && !m.node.SelectingMotherboard?
    // at most one actor runs, only in its own state, and its input is still the context
    && (m.node.Validating? <==> m.actor == Some(ValidateWithBackend(Posed(m.context))))
    && (m.node.GeneratingBuild? <==> m.actor == Some(GenerateWithBackend(m.context.preferences)))
    && (!m.node.Validating? && !m.node.GeneratingBuild? ==> m.actor.None?)
    && (m.actor.Some? ==> m.invocations > 0)
    && (m.node.ValidConfiguration? ==>
          Fresh(b, m) && m.context.validation.value.compatibility.valid && m.context.error.None?)
    && (m.node.InvalidConfiguration? && m.context.error.None? ==>
          Fresh(b, m) && !m.context.validation.value.compatibility.valid)
    && (m.node.BuildGenerated? ==> m.context.generatedBuilds.Some? && m.context.buildError.None?)
    && (m.node.BuildError? ==> m.context.buildError.Some?)
  }

  lemma StepKeepsInvariant(b: Backend, m: Machine, e: Event)
    requires Invariant(b, m)
    ensures Invariant(b, Step(b, m, e))
  {
    var m' := Step(b, m, e);
    if e.Settle? && Accepts(m, e) && m.actor.value.ValidateWithBackend? {
      var q, n := m.actor.value.input, m.invocations - 1;
      if ValidateAndMeasure(b, q, n).Answer? {
        assert ValidateAndMeasure(b, Posed(m'.context), n) == Answer(m'.context.validation.value);
      }
    }
  }

  lemma {:induction false} RunKeepsInvariant(b: Backend, m: Machine, es: seq<Event>)
    requires Invariant(b, m)
    ensures Invariant(b, Run(b, m, es))
    decreases |es|
  {
    if es != [] {
      StepKeepsInvariant(b, m, es[0]);
      RunKeepsInvariant(b, Step(b, m, es[0]), es[1..]);
    }
  }

  /** In every reachable state: a configuration shown as valid was accepted by the backend for exactly
      this selection and these preferences, and one shown as invalid without an error was refused for them. */
  lemma VerdictIsFresh(b: Backend, es: seq<Event>)
    ensures var m := Run(b, INITIAL, es);
            && (m.node.ValidConfiguration? ==>
                  && Fresh(b, m) && m.context.validation.value.compatibility.valid && m.context.error.None?
                  && (m.context.validation.value.performance.Some?
                      <==> Picked(m.context.selected, Cpu) && Picked(m.context.selected, Gpu)))
            && (m.node.InvalidConfiguration? && m.context.error.None? ==>
                  Fresh(b, m) && !m.context.validation.value.compatibility.valid)
  {
    RunKeepsInvariant(b, INITIAL, es);
  }

  /** At most one actor is in flight, only in its own state, its input equals the current context,
      and `selecting_motherboard` is never entered. */
  lemma ActorMatchesContext(b: Backend, es: seq<Event>)
    ensures var m := Run(b, INITIAL, es);
            && m.node != SelectingMotherboard
            && m.actor == match m.node
                          case Validating => Some(ValidateWithBackend(Posed(m.context)))
                          case GeneratingBuild => Some(GenerateWithBackend(m.context.preferences))
                          case _ => None
  {
    RunKeepsInvariant(b, INITIAL, es);
  }

  // ---------- where every event leads ----------

  ghost predicate ShowsVerdict(n: Node) {
    n == ValidConfiguration || n == InvalidConfiguration
  }

  /** The handlers of every state, state by state. */
  lemma HandlersOfState(b: Backend, es: seq<Event>, e: Event)
    ensures Accepts(Run(b, INITIAL, es), e) <==>
            match Run(b, INITIAL, es).node
            case Idle => e.Start? || e.SelectComponent? || e.SetPreferences? || e.GenerateBuild?
            case SelectingCpu | SelectingMotherboard | ValidConfiguration | BuildGenerated =>
              e.SelectComponent? || e.SetPreferences? || e.GenerateBuild? || e.ApplyGeneratedBuild? || e.Reset?
            case InvalidConfiguration =>
              e.SelectComponent? || e.SetPreferences? || e.GenerateBuild? || e.ApplyGeneratedBuild? || e.Reset?
                  || e.Retry?
            case BuildError => e.SetPreferences? || e.GenerateBuild? || e.ApplyGeneratedBuild? || e.Reset?
            case Validating | GeneratingBuild => e.Settle?
  {
    RunKeepsInvariant(b, INITIAL, es);
  }

  /** The state that an accepted event leads to, out of every reachable state. */
  lemma AcceptedLeadsTo(b: Backend, es: seq<Event>, e: Event)
    requires Accepts(Run(b, INITIAL, es), e)
    ensures var from, to := Run(b, INITIAL, es).node, Step(b, Run(b, INITIAL, es), e).node;
            && (to == SelectingCpu <==> e.Start? || (e.SetPreferences? && from == SelectingCpu))
            && (to == GeneratingBuild <==> e.GenerateBuild?)
            && (to == Validating <==>
                  e.SelectComponent? || e.ApplyGeneratedBuild? || e.Retry? || (e.SetPreferences? && ShowsVerdict(from)))
            && (to == Idle <==> e.Reset? || (e.SetPreferences? && from == Idle))
            && (ShowsVerdict(to) <==> e.Settle? && from == Validating)
            && (to == BuildGenerated || to == BuildError <==>
                  (e.Settle? && from == GeneratingBuild)
                      || (e.SetPreferences? && (from == BuildGenerated || from == BuildError)))
  {
    RunKeepsInvariant(b, INITIAL, es);
  }

  /** What an accepted event does to the context, out of every reachable state. */
  lemma AcceptedChanges(b: Backend, es: seq<Event>, e: Event)
    requires Accepts(Run(b, INITIAL, es), e) && !e.Settle?
    ensures var c, d := Run(b, INITIAL, es).context, Step(b, Run(b, INITIAL, es), e).context;
            match e
            case SelectComponent(kind, id) =>
              d == c.(selected := c.selected[kind := id], activeKind := kind, error := None)
            case ApplyGeneratedBuild(selection) => d == c.(selected := selection, error := None)
            case SetPreferences(p) => d == c.(preferences := p, error := None)
            case Reset =>
              d == Context(map[], Preferences(None, "gaming", "1440p", 144, "SA", []), None, None, None, None, Cpu)
            case _ => d == c
  {
  }

  /** What the invocation `n` of the backend says about a question: the compatibility check first, and
      performance only for a selection with both a CPU and a GPU. */
  ghost predicate SaysOf(b: Backend, q: Question, n: nat, reply: Reply<Bundle>) {
    var both := Cpu in q.selected && q.selected[Cpu] != "" && Gpu in q.selected && q.selected[Gpu] != "";
    match b.compatibility(q, n)
    case Error(m) => reply == Error(m)
    case Answer(c) =>
      if !both then reply == Answer(Bundle(c, None))
      else match b.performance(q, n)
        case Error(m) => reply == Error(m)
        case Answer(p) => reply == Answer(Bundle(c, Some(p)))
  }

  lemma ValidateAndMeasureMeans(b: Backend, q: Question, n: nat, reply: Reply<Bundle>)
    ensures SaysOf(b, q, n, reply) <==> ValidateAndMeasure(b, q, n) == reply
  {
  }

  /** How validation ends, out of every reachable state: with the backend's reply, on this very
      invocation, to the current question. An answer is stored and shown as the verdict it gives; an
      error is shown, and the validation stored before stays. */
  lemma ValidationSettles(b: Backend, es: seq<Event>, reply: Reply<Bundle>)
    requires Run(b, INITIAL, es).node == Validating
    requires var m := Run(b, INITIAL, es); m.invocations > 0 ==> SaysOf(b, Posed(m.context), m.invocations - 1, reply)
    ensures var m := Run(b, INITIAL, es);
            && m.invocations > 0
            && Accepts(m, Settle)
            && var m' := Step(b, m, Settle);
               match reply
               case Answer(bundle) =>
                 && m'.node == (if bundle.compatibility.valid then ValidConfiguration else InvalidConfiguration)
                 && m'.context == m.context.(validation := Some(bundle), error := None)
               case Error(message) =>
                 m'.node == InvalidConfiguration && m'.context == m.context.(error := Some(message))
  {
    RunKeepsInvariant(b, INITIAL, es);
    var m := Run(b, INITIAL, es);
    ValidateAndMeasureMeans(b, Posed(m.context), m.invocations - 1, reply);
  }

  /** How generation ends: with the backend's builds for the current preferences, or its error. */
  lemma GenerationSettles(b: Backend, es: seq<Event>)
    requires Run(b, INITIAL, es).node == GeneratingBuild
    ensures var m := Run(b, INITIAL, es);
            && m.invocations > 0
            && Accepts(m, Settle)
            && var m' := Step(b, m, Settle);
               match b.builds(m.context.preferences, m.invocations - 1)
               case Answer(builds) =>
                 m'.node == BuildGenerated && m'.context
                     == m.context.(generatedBuilds := Some(builds), buildError := None)
               case Error(message) =>
                 m'.node == BuildError && m'.context == m.context.(buildError := Some(message))
  {
    RunKeepsInvariant(b, INITIAL, es);
  }

  /** RETRY asks the current question once more, on a new invocation, and shows the reply to it. */
  lemma RetryAsksAgain(b: Backend, es: seq<Event>, reply: Reply<Bundle>)
    requires Accepts(Run(b, INITIAL, es), Retry)
    requires var m := Run(b, INITIAL, es); SaysOf(b, Posed(m.context), m.invocations, reply)
    ensures var m := Run(b, INITIAL, es);
            var m' := Run(b, INITIAL, es + [Retry] + [Settle]);
            match reply
            case Answer(bundle) =>
              && m'.node == (if bundle.compatibility.valid then ValidConfiguration else InvalidConfiguration)
              && m'.context == m.context.(validation := Some(bundle), error := None)
            case Error(message) =>
              m'.node == InvalidConfiguration && m'.context == m.context.(error := Some(message))
  {
    RunSnoc(b, INITIAL, es, Retry);
    RunSnoc(b, INITIAL, es + [Retry], Settle);
    ValidationSettles(b, es + [Retry], reply);
  }

  lemma RunSnoc(b: Backend, m: Machine, es: seq<Event>, e: Event)
    ensures Run(b, m, es + [e]) == Step(b, Run(b, m, es), e)
  {
    RunAppend(b, m, es, [e]);
    assert [e][1..] == [] && Run(b, Step(b, Run(b, m, es), e), []) == Step(b, Run(b, m, es), e);
  }

  // ---------- replay and reset ----------

  /** The events that were accepted, in order. */
  function AcceptedEvents(b: Backend, m: Machine, es: seq<Event>): seq<Event>
    decreases |es|
  {
    if es == [] then []
    else (if Accepts(m, es[0]) then [es[0]] else []) + AcceptedEvents(b, Step(b, m, es[0]), es[1..])
  }

  /** Dropped events leave no trace: replaying the accepted ones alone gives the same machine, and
      none of them is dropped on replay. */
  lemma {:induction false} ReplayAccepted(b: Backend, m: Machine, es: seq<Event>)
    ensures Run(b, m, AcceptedEvents(b, m, es)) == Run(b, m, es)
    ensures AcceptedEvents(b, m, AcceptedEvents(b, m, es)) == AcceptedEvents(b, m, es)
    decreases |es|
  {
    if es != [] {
      var m' := Step(b, m, es[0]);
      ReplayAccepted(b, m', es[1..]);
      var rest := AcceptedEvents(b, m', es[1..]);
      if Accepts(m, es[0]) {
        assert AcceptedEvents(b, m, es) == [es[0]] + rest && ([es[0]] + rest)[1..] == rest;
      } else {
        assert AcceptedEvents(b, m, es) == rest;
      }
    }
  }

  lemma {:induction false} AcceptedAppend(b: Backend, m: Machine, es: seq<Event>, fs: seq<Event>)
    ensures AcceptedEvents(b, m, es + fs) == AcceptedEvents(b, m, es) + AcceptedEvents(b, Run(b, m, es), fs)
    ensures |AcceptedEvents(b, m, es)| <= |es|
    decreases |es|
  {
    if es == [] {
      assert es + fs == fs;
    } else {
      assert (es + fs)[1..] == es[1..] + fs;
      AcceptedAppend(b, Step(b, m, es[0]), es[1..], fs);
    }
  }

  lemma LastIsAccepted(b: Backend, m: Machine, es: seq<Event>, e: Event)
    requires AcceptedEvents(b, m, es + [e]) == es + [e]
    ensures Accepts(Run(b, m, es), e)
  {
    AcceptedAppend(b, m, es, [e]);
    assert [e][1..] == [] && AcceptedEvents(b, Step(b, Run(b, m, es), e), []) == [];
    assert |AcceptedEvents(b, Run(b, m, es), [e])| > 0;
  }

  /** On every run the last accepted event says which actor is running: GENERATE_BUILD the generating
      one; SELECT_COMPONENT, APPLY_GENERATED_BUILD, RETRY, or SET_PREFERENCES while a verdict was
      shown, the validating one; any other none. */
  lemma LastEventDecides(b: Backend, es: seq<Event>)
    ensures var node, acc := Run(b, INITIAL, es).node, AcceptedEvents(b, INITIAL, es);
            && (acc == [] ==> node == Idle)
            && (acc != [] ==>
                  var last, before := acc[|acc| - 1], Run(b, INITIAL, acc[..|acc| - 1]).node;
                  && (node == GeneratingBuild <==> last == GenerateBuild)
                  && (node == Validating <==>
                        last.SelectComponent? || last.ApplyGeneratedBuild? || last == Retry
                        || (last.SetPreferences? && ShowsVerdict(before))))
  {
    var acc := AcceptedEvents(b, INITIAL, es);
    ReplayAccepted(b, INITIAL, es);
    if acc != [] {
      var front, last := acc[..|acc| - 1], acc[|acc| - 1];
      assert acc == front + [last];
      LastIsAccepted(b, INITIAL, front, last);
      RunSnoc(b, INITIAL, front, last);
      AcceptedLeadsTo(b, front, last);
    }
  }

  /** The selection read off a list of events, without any machine. */
  function FoldSelection(s: Selection, es: seq<Event>): Selection
    decreases |es|
  {
    if es == [] then s
    else FoldSelection(match es[0]
                       case SelectComponent(kind, id) => s[kind := id]
                       case ApplyGeneratedBuild(selection) => selection
                       case Reset => map[]
                       case _ => s, es[1..])
  }

  /** `selected` is the fold of the accepted SELECT and APPLY events since the last RESET. */
  lemma {:induction false} SelectionIsFold(b: Backend, m: Machine, es: seq<Event>)
    ensures Run(b, m, es).context.selected == FoldSelection(m.context.selected, AcceptedEvents(b, m, es))
    decreases |es|
  {
    if es != [] {
      var m' := Step(b, m, es[0]);
      SelectionIsFold(b, m', es[1..]);
      var rest := AcceptedEvents(b, m', es[1..]);
      assert ([es[0]] + rest)[1..] == rest && [] + rest == rest;
    }
  }

  /** The backend as seen after `k` invocations. */
  function Later(b: Backend, k: nat): Backend {
    Backend((q: Question, n: nat) => b.compatibility(q, n + k),
            (q: Question, n: nat) => b.performance(q, n + k),
            (p: Preferences, n: nat) => b.builds(p, n + k))
  }

  ghost function Offset(m: Machine, k: nat): Machine {
    m.(invocations := m.invocations + k)
  }

  lemma {:induction false} RunOffset(b: Backend, k: nat, m: Machine, es: seq<Event>)
    requires Invariant(Later(b, k), m)
    ensures Run(b, Offset(m, k), es) == Offset(Run(Later(b, k), m, es), k)
    decreases |es|
  {
    if es != [] {
      StepKeepsInvariant(Later(b, k), m, es[0]);
      assert Step(b, Offset(m, k), es[0]) == Offset(Step(Later(b, k), m, es[0]), k);
      RunOffset(b, k, Step(Later(b, k), m, es[0]), es[1..]);
    }
  }

  /** RESET, wherever it is accepted, is a fresh start: whatever follows behaves as it would on a
      new machine facing the same backend from that moment on. */
  lemma ResetIsFreshStart(b: Backend, before: seq<Event>, after: seq<Event>)
    requires Accepts(Run(b, INITIAL, before), Reset)
    ensures var k := Run(b, INITIAL, before).invocations;
            Run(b, INITIAL, before + [Reset] + after) == Offset(Run(Later(b, k), INITIAL, after), k)
  {
    var m := Run(b, INITIAL, before);
    RunAppend(b, INITIAL, before + [Reset], after);
    RunAppend(b, INITIAL, before, [Reset]);
    assert [Reset][1..] == [] && Run(b, m, [Reset]) == Step(b, m, Reset) == Offset(INITIAL, m.invocations);
    RunOffset(b, m.invocations, INITIAL, after);
  }

  // ---------- how long a validation stays current ----------

  /** The question answered last, if any since the last RESET, after one more event. */
  ghost function NowAnswered(b: Backend, m: Machine, e: Event, asked: Option<Question>): Option<Question> {
    if !Accepts(m, e) then asked
    else match e
      case Reset => None
      case Settle =>
        (match m.actor.value
         case ValidateWithBackend(q) => if ValidateAndMeasure(b, q, m.invocations - 1).Answer? then Some(q) else asked
         case GenerateWithBackend(_) => asked)
      case _ => asked
  }

  ghost function Asked(b: Backend, m: Machine, es: seq<Event>, asked: Option<Question>): Option<Question>
    decreases |es|
  {
    if es == [] then asked else Asked(b, Step(b, m, es[0]), es[1..], NowAnswered(b, m, es[0], asked))
  }

  /** The stored validation answers `asked`; where a verdict is shown, that is the current question. */
  ghost predicate AnswersAsked(b: Backend, m: Machine, asked: Option<Question>) {
    && Invariant(b, m)
    && (m.context.validation.Some? <==> asked.Some?)
    && (asked.Some? ==> exists n ::
          0 <= n < m.invocations && ValidateAndMeasure(b, asked.value, n) == Answer(m.context.validation.value))
    && (m.node.ValidConfiguration? || (m.node.InvalidConfiguration? && m.context.error.None?) ==> IsCurrent(m, asked))
  }

  /** The last answer was to the question that the context poses now. */
  ghost predicate IsCurrent(m: Machine, asked: Option<Question>) {
    asked == Some(Posed(m.context))
  }

  lemma StepKeepsAnswer(b: Backend, m: Machine, e: Event, asked: Option<Question>)
    requires AnswersAsked(b, m, asked)
    ensures AnswersAsked(b, Step(b, m, e), NowAnswered(b, m, e, asked))
  {
    StepKeepsInvariant(b, m, e);
    var m', asked' := Step(b, m, e), NowAnswered(b, m, e, asked);
    if asked'.Some? {
      if asked' == asked && m'.context.validation == m.context.validation {
        var n :| 0 <= n < m.invocations && ValidateAndMeasure(b, asked.value, n) == Answer(m.context.validation.value);
        assert n < m'.invocations;
      } else {
        assert ValidateAndMeasure(b, asked'.value, m.invocations - 1) == Answer(m'.context.validation.value);
      }
    }
  }

  lemma {:induction false} RunKeepsAnswer(b: Backend, m: Machine, es: seq<Event>, asked: Option<Question>)
    requires AnswersAsked(b, m, asked)
    ensures AnswersAsked(b, Run(b, m, es), Asked(b, m, es, asked))
    decreases |es|
  {
    if es != [] {
      StepKeepsAnswer(b, m, es[0], asked);
      RunKeepsAnswer(b, Step(b, m, es[0]), es[1..], NowAnswered(b, m, es[0], asked));
    }
  }

  /** In every reachable state the stored validation is the backend's answer to the question asked
      last, and a verdict is shown only while that question is the current one. */
  lemma ValidationAnswersLastQuestion(b: Backend, es: seq<Event>)
    ensures var m, asked := Run(b, INITIAL, es), Asked(b, INITIAL, es, None);
            && (m.context.validation.Some? <==> asked.Some?)
            && (asked.Some? ==> exists n ::
                  0 <= n < m.invocations && ValidateAndMeasure(b, asked.value, n) == Answer(m.context.validation.value))
            && (m.node.ValidConfiguration? || (m.node.InvalidConfiguration? && m.context.error.None?) ==>
                IsCurrent(m, asked))
  {
    RunKeepsAnswer(b, INITIAL, es, None);
  }

  /** The event leaves selection and preferences as they are, and forgets no answer. */
  ghost predicate KeepsQuestion(c: Context, e: Event) {
    match e
    case SetPreferences(p) => p == c.preferences
    case SelectComponent(kind, id) => kind in c.selected && c.selected[kind] == id
    case ApplyGeneratedBuild(selection) => selection == c.selected
    case Reset => false
    case _ => true
  }

  /** Out of any reachable state whose validation is current, it stays current exactly when the event
      is dropped or keeps the question: new preferences after a generated build outdate it. */
  lemma StaysCurrentIff(b: Backend, es: seq<Event>, e: Event)
    requires IsCurrent(Run(b, INITIAL, es), Asked(b, INITIAL, es, None))
    ensures var m, asked := Run(b, INITIAL, es), Asked(b, INITIAL, es, None);
            IsCurrent(Step(b, m, e), NowAnswered(b, m, e, asked)) <==> !Accepts(m, e) || KeepsQuestion(m.context, e)
  {
    var m := Run(b, INITIAL, es);
    RunKeepsAnswer(b, INITIAL, es, None);
    match e {
      case SelectComponent(kind, id) =>
        if kind in m.context.selected && m.context.selected[kind] == id {
          assert m.context.selected[kind := id] == m.context.selected;
        } else {
          assert m.context.selected[kind := id][kind] == id;
        }
      case _ =>
    }
  }

  /** The shortest such run: after a generated build the old validation stays, whatever preferences
      are set, and it is still current exactly if they are the ones it was asked for. */
  lemma PreferencesCanOutdateValidation(b: Backend, p: Preferences, c: Compatibility)
    requires b.compatibility(Question(map[Ram := "r"], DEFAULT_PREFERENCES), 0) == Answer(c)
    requires b.builds(DEFAULT_PREFERENCES, 1).Answer?
    ensures var es := [SelectComponent(Ram, "r"), Settle, GenerateBuild, Settle, SetPreferences(p)];
            var m := Run(b, INITIAL, es);
            && m.node == BuildGenerated && m.context.preferences == p
            && m.context.validation == Some(Bundle(c, None))
            && (IsCurrent(m, Asked(b, INITIAL, es, None)) <==> p == DEFAULT_PREFERENCES)
  {
    var e1, e2, e3, e4, e5 := SelectComponent(Ram, "r"), Settle, GenerateBuild, Settle, SetPreferences(p);
    var q := Question(map[Ram := "r"], DEFAULT_PREFERENCES);
    var m1 := Step(b, INITIAL, e1);
    var m2 := Step(b, m1, e2);
    var m3 := Step(b, m2, e3);
    var m4 := Step(b, m3, e4);
    assert m1.context.selected == map[Ram := "r"] && m1.invocations == 1;
    assert m2.context.validation == Some(Bundle(c, None)) && IsOpen(m2.node) && NowAnswered(b, m1, e2, None) == Some(q);
    assert m3.actor == Some(GenerateWithBackend(DEFAULT_PREFERENCES)) && m3.invocations == 2;
    assert m4.node == BuildGenerated && NowAnswered(b, m3, e4, Some(q)) == Some(q);
    FiveEvents(b, INITIAL, e1, e2, e3, e4, e5, None);
  }

  lemma FiveEvents(b: Backend, m: Machine, e1: Event, e2: Event, e3: Event, e4: Event, e5: Event,
                   asked: Option<Question>)
    ensures var m1, a1 := Step(b, m, e1), NowAnswered(b, m, e1, asked);
            var m2, a2 := Step(b, m1, e2), NowAnswered(b, m1, e2, a1);
            var m3, a3 := Step(b, m2, e3), NowAnswered(b, m2, e3, a2);
            var m4, a4 := Step(b, m3, e4), NowAnswered(b, m3, e4, a3);
            && Run(b, m, [e1, e2, e3, e4, e5]) == Step(b, m4, e5)
            && Asked(b, m, [e1, e2, e3, e4, e5], asked) == NowAnswered(b, m4, e5, a4)
  {
    var m1, a1 := Step(b, m, e1), NowAnswered(b, m, e1, asked);
    var m2, a2 := Step(b, m1, e2), NowAnswered(b, m1, e2, a1);
    RunCons(b, m, e1, [e2, e3, e4, e5], asked);
    RunCons(b, m1, e2, [e3, e4, e5], a1);
    RunCons(b, m2, e3, [e4, e5], a2);
    RunCons(b, Step(b, m2, e3), e4, [e5], NowAnswered(b, m2, e3, a2));
    RunCons(b, Step(b, Step(b, m2, e3), e4), e5, [], NowAnswered(b, Step(b, m2, e3), e4, NowAnswered(b, m2, e3, a2)));
    assert [e1] + [e2, e3, e4, e5] == [e1, e2, e3, e4, e5] && [e2] + [e3, e4, e5] == [e2, e3, e4, e5]
        && [e3] + [e4, e5] == [e3, e4, e5] && [e4] + [e5] == [e4, e5] && [e5] + [] == [e5];
  }

  lemma RunCons(b: Backend, m: Machine, e: Event, es: seq<Event>, asked: Option<Question>)
    ensures Run(b, m, [e] + es) == Run(b, Step(b, m, e), es)
    ensures Asked(b, m, [e] + es, asked) == Asked(b, Step(b, m, e), es, NowAnswered(b, m, e, asked))
  {
    assert ([e] + es)[1..] == es;
  }
}

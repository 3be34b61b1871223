/** The picker's `validateSelection` effect: cancel on change, replies in any order. */
module ValidationEffect {
  import opened Basics
  import opened BuilderMachine

  /** What the effect depends on. */
  datatype Input = Input(hasParts: bool, question: Question)

  /** One run of the effect that reached the backend. */
  datatype Call = Call(input: Input, cancelled: bool, settled: bool)

  datatype Picker = Picker(
    input: Input,
    calls: seq<Call>,
    compatibility: Option<Compatibility>,
    performance: Option<Performance>,
    validationError: Option<string>,
    validating: bool)

  datatype Event = Change(input: Input) | Replied(call: nat)

  /** The cleanup of every earlier effect has run. */
  function CancelAll(cs: seq<Call>): seq<Call> {
    seq(|cs|, i requires 0 <= i < |cs| => cs[i].(cancelled := true))
  }

  /** The effect body up to its await. */
  function StartEffect(p: Picker, input: Input): Picker {
    var calls := CancelAll(p.calls);
    if !input.hasParts then p.(input := input, calls := calls, compatibility := None, performance := None,
                               validationError := None)
    else p.(input := input, calls := calls + [Call(input, false, false)], validationError := None, validating := true)
  }

  function Step(b: Backend, p: Picker, e: Event): Picker {
    match e
    case Change(input) => StartEffect(p, input)
    case Replied(i) =>
      if i >= |p.calls| || p.calls[i].settled then p
      else
        var q := p.(calls := p.calls[i := p.calls[i].(settled := true)]);
        if p.calls[i].cancelled then q
        else match ValidateAndMeasure(b, p.calls[i].input.question, i)
          case Answer(bundle) => q.(compatibility := Some(bundle.compatibility), performance := bundle.performance,
                                    validating := false)
          case Error(m) => q.(validationError := Some(m), compatibility := None, performance := None,
                              validating := false)
  }

  /** Mounting runs the effect once. */
  function Mount(input: Input): Picker {
    StartEffect(Picker(input, [], None, None, None, false), input)
  }

  function Run(b: Backend, p: Picker, es: seq<Event>): Picker
    decreases |es|
  {
    if es == [] then p else Run(b, Step(b, p, es[0]), es[1..])
  }

  predicate Live(c: Call) {
    !c.cancelled && !c.settled
  }

  ghost predicate Awaiting(p: Picker) {
    exists i :: 0 <= i < |p.calls| && Live(p.calls[i])
  }

  /** The panel shows the backend's answer for the current input, or nothing because of an error or
      because nothing is selected. */
  ghost predicate ShowsCurrent(b: Backend, p: Picker) {
    if p.compatibility.Some? then
      && p.validationError.None? && p.input.hasParts
      && exists n :: 0 <= n < |p.calls| &&
           ValidateAndMeasure(b, p.input.question, n) == Answer(Bundle(p.compatibility.value, p.performance))
    else p.performance.None? && (p.validationError.Some? || !p.input.hasParts)
  }

  ghost predicate Invariant(b: Backend, p: Picker) {
    && (forall i :: 0 <= i < |p.calls| && !p.calls[i].cancelled ==>
          i == |p.calls| - 1 && p.calls[i].input == p.input && p.input.hasParts)
    && (!Awaiting(p) ==> ShowsCurrent(b, p))
    && (Awaiting(p) ==> p.validating && p.validationError.None?)
    && (p.validating && !Awaiting(p) ==> !p.input.hasParts)
  }

  lemma StepKeepsInvariant(b: Backend, p: Picker, e: Event)
    requires Invariant(b, p)
    ensures Invariant(b, Step(b, p, e))
  {
    var q := Step(b, p, e);
    match e {
      case Change(input) =>
        if input.hasParts { assert Live(q.calls[|q.calls| - 1]); }
      case Replied(i) =>
        if i < |p.calls| && !p.calls[i].settled {
          if p.calls[i].cancelled {
            if j :| 0 <= j < |p.calls| && Live(p.calls[j]) { assert Live(q.calls[j]); }
            if j :| 0 <= j < |q.calls| && Live(q.calls[j]) { assert Live(p.calls[j]); }
          } else {
            assert Live(p.calls[i]);
            if ValidateAndMeasure(b, p.calls[i].input.question, i).Answer? {
              assert ValidateAndMeasure(b, q.input.question, i) == Answer(Bundle(q.compatibility.value, q.performance));
            }
          }
        }
    }
  }

  lemma {:induction false} RunKeepsInvariant(b: Backend, p: Picker, es: seq<Event>)
    requires Invariant(b, p)
    ensures Invariant(b, Run(b, p, es))
    decreases |es|
  {
    if es != [] {
      StepKeepsInvariant(b, p, es[0]);
      RunKeepsInvariant(b, Step(b, p, es[0]), es[1..]);
    }
  }

  /** For any order of selection changes and replies: at most the latest call is live, and when no
      live call is outstanding the panel shows the answer for the current selection. */
  lemma NoStaleAnswerShown(b: Backend, input: Input, es: seq<Event>)
    ensures var p := Run(b, Mount(input), es);
            && (forall i :: 0 <= i < |p.calls| && Live(p.calls[i]) ==>
                i == |p.calls| - 1 && p.calls[i].input == p.input)
            && (!Awaiting(p) ==> ShowsCurrent(b, p))
  {
    var p := Mount(input);
    if input.hasParts { assert Live(p.calls[0]); }
    RunKeepsInvariant(b, p, es);
  }

  /** What a viewer sees. */
  function Visible(p: Picker): (Option<Compatibility>, Option<Performance>, Option<string>, bool) {
    (p.compatibility, p.performance, p.validationError, p.validating)
  }

  /** A reply to any call but the latest one's changes nothing that is shown. */
  lemma StaleReplyIsInvisible(b: Backend, input: Input, es: seq<Event>, i: nat)
    requires var p := Run(b, Mount(input), es); i < |p.calls| && (i < |p.calls| - 1 || p.calls[i].cancelled)
    ensures var p := Run(b, Mount(input), es); Visible(Step(b, p, Replied(i))) == Visible(p)
  {
    var p := Mount(input);
    if input.hasParts { assert Live(p.calls[0]); }
    RunKeepsInvariant(b, p, es);
  }

  ghost predicate Spins(p: Picker) {
    p.validating <==> Awaiting(p)
  }

  /** No step of the run clears the selection while a reply is awaited. */
  ghost predicate NeverCleared(b: Backend, p: Picker, es: seq<Event>)
    decreases |es|
  {
    es == [] ||
    (!(es[0].Change? && !es[0].input.hasParts && Awaiting(p)) && NeverCleared(b, Step(b, p, es[0]), es[1..]))
  }

  lemma {:induction false} RunSpins(b: Backend, p: Picker, es: seq<Event>)
    requires Invariant(b, p) && Spins(p) && NeverCleared(b, p, es)
    ensures Spins(Run(b, p, es))
    decreases |es|
  {
    if es != [] {
      SpinnerStuckIff(b, p, es[0]);
      StepKeepsInvariant(b, p, es[0]);
      RunSpins(b, Step(b, p, es[0]), es[1..]);
    }
  }

  /** Until then the spinner turns exactly while a reply is awaited, from the first render on. */
  lemma SpinsUntilCleared(b: Backend, input: Input, es: seq<Event>)
    requires NeverCleared(b, Mount(input), es)
    ensures Spins(Run(b, Mount(input), es))
  {
    var p := Mount(input);
    if input.hasParts { assert Live(p.calls[0]); }
    RunSpins(b, p, es);
  }

  /** The spinner should turn exactly while a reply is awaited. A step breaks that exactly when it
      clears the selection while a reply is awaited: the early return never resets the flag. */
  lemma SpinnerStuckIff(b: Backend, p: Picker, e: Event)
    requires Invariant(b, p) && (p.validating <==> Awaiting(p))
    ensures (Step(b, p, e).validating <==> Awaiting(Step(b, p, e)))
            <==> !(e.Change? && !e.input.hasParts && Awaiting(p))
  {
    var q := Step(b, p, e);
    match e {
      case Change(input) =>
        if input.hasParts { assert Live(q.calls[|q.calls| - 1]); }
      case Replied(i) =>
        if i < |p.calls| && !p.calls[i].settled {
          if p.calls[i].cancelled {
            if j :| 0 <= j < |p.calls| && Live(p.calls[j]) { assert Live(q.calls[j]); }
            if j :| 0 <= j < |q.calls| && Live(q.calls[j]) { assert Live(p.calls[j]); }
          } else {
            assert Live(p.calls[i]);
          }
        }
    }
  }
}

/**
 * Which processor receives what, in which order: the routing rules of
 * `EventDispatcher`, stated as pure functions over the registered processor
 * sequence. The dispatcher's methods are proved to perform exactly these
 * calls; the lemmas here say what the calls mean for each processor.
 */
module Routing {
  import opened Wrappers
  import opened EventNames
  import opened ProcessorNames
  import opened Canonicalizer
  import opened Processors

  /** One call made by the dispatcher: which processor, and what it was told. */
  datatype Call = Call(sink: Processor, action: Action)

  /** A `TechnicalEvent`: its static `name`, and the event value that is serialised. */
  datatype TechnicalEvent<B> = TechnicalEvent(name: EventName, body: B)

  /** `CustomizedEvent`: the name and body a customisable event chose for one processor. */
  datatype CustomizedEvent<B> = CustomizedEvent(name: EventName, body: B)

  /** `CustomizableEvent.customized(for:)`: `None` opts that processor out. */
  type Customization<!B> = ProcessorName -> Option<CustomizedEvent<B>>

  /** How many times processor `o` is registered in `s`. */
  function Count(s: seq<Processor>, o: Processor): (n: nat)
    ensures n <= |s|
    ensures n == 0 <==> o !in s
  {
    if s == [] then 0
    else
      assert s == s[..|s| - 1] + [s[|s| - 1]];
      Count(s[..|s| - 1], o) + (if s[|s| - 1] == o then 1 else 0)
  }

  /** `n` copies of the same action. */
  function Repeat(a: Action, n: nat): (r: seq<Action>)
    ensures |r| == n
    ensures forall i :: 0 <= i < n ==> r[i] == a
  {
    if n == 0 then [] else Repeat(a, n - 1) + [a]
  }

  /** What processor `o` observes of a sequence of calls, in order. */
  function ActionsTo(calls: seq<Call>, o: Processor): (r: seq<Action>)
    ensures |r| <= |calls|
  {
    if calls == [] then []
    else
      var last := calls[|calls| - 1];
      assert calls == calls[..|calls| - 1] + [last];
      ActionsTo(calls[..|calls| - 1], o) + (if last.sink == o then [last.action] else [])
  }

  /** The same action to every processor of `s`, in registration order. */
  function Fanout(s: seq<Processor>, a: Action): (calls: seq<Call>)
    ensures |calls| == |s|
    ensures forall i :: 0 <= i < |s| ==> calls[i] == Call(s[i], a)
  {
    if s == [] then [] else Fanout(s[..|s| - 1], a) + [Call(s[|s| - 1], a)]
  }

  /** `processors.filter(\.isTechnical)`: the technical processors, in their original order. */
  function Technical(s: seq<Processor>): (t: seq<Processor>)
    ensures |t| <= |s|
    ensures forall p :: p in t ==> p in s && p.isTechnical
  {
    if s == [] then []
    else
      var last := s[|s| - 1];
      assert s == s[..|s| - 1] + [last];
      Technical(s[..|s| - 1]) + (if last.isTechnical then [last] else [])
  }

  /** `processors.contains(where: \.isTechnical)`. */
  function HasTechnical(s: seq<Processor>): (b: bool)
    ensures b <==> exists p :: p in s && p.isTechnical
  {
    if s == [] then false
    else
      assert s == s[..|s| - 1] + [s[|s| - 1]];
      HasTechnical(s[..|s| - 1]) || s[|s| - 1].isTechnical
  }

  /** The condition asserted by `EventDispatcher.init`. */
  function Admissible(processors: seq<Processor>): (ok: bool)
    ensures ok <==> processors == [] || exists p :: p in processors && p.isTechnical
  {
    processors == [] || HasTechnical(processors)
  }

  /** What the customisable `send` does for one processor. */
  datatype Step =
    | Skip                         // customized(for:) returned nil
    | Deliver(delivery: Delivery)  // serialised: send this
    | Abort                        // make(with:) threw: leave the loop

  /** The body of the customisable `send` loop for the processor named `p`. */
  function CustomStep<B>(p: ProcessorName, customize: Customization<B>, serialize: Serializer<B>, rootKey: string): (st: Step)
    ensures st.Skip? <==> customize(p).None?
    ensures st.Abort? <==> customize(p).Some? && serialize(customize(p).value.body).None?
    ensures st.Deliver? ==>
      && st.delivery.name == customize(p).value.name
      && Make(serialize, rootKey, customize(p).value.body) == Some(st.delivery.properties)
  {
    match customize(p)
    case None => Skip
    case Some(e) =>
      match Make(serialize, rootKey, e.body)
      case None => Abort
      case Some(props) => Deliver(Delivery(e.name, props))
  }

  /** The calls one step of the customisable loop makes to processor `p`. */
  function StepCalls(p: Processor, step: Step): (calls: seq<Call>)
    ensures |calls| <= 1
    ensures calls != [] <==> step.Deliver?
  {
    if step.Deliver? then [Call(p, Receive(step.delivery))] else []
  }

  /** The calls made by the customisable `send` loop, and whether it ran to the end. */
  datatype Run = Run(calls: seq<Call>, completed: bool)

  /**
   * The customisable `send` over `s`: processors in order; a skipped one gets
   * nothing; the first serialisation failure ends the loop, keeping the calls
   * already made.
   */
  function CustomRun<B>(s: seq<Processor>, customize: Customization<B>, serialize: Serializer<B>, rootKey: string): (r: Run)
    ensures |r.calls| <= |s|
    ensures forall c :: c in r.calls ==>
      && c.sink in s
      && c.action.Receive?
      && CustomStep(c.sink.name, customize, serialize, rootKey) == Deliver(c.action.delivery)
  {
    if s == [] then Run([], true)
    else
      var prev := CustomRun(s[..|s| - 1], customize, serialize, rootKey);
      var p := s[|s| - 1];
      assert s == s[..|s| - 1] + [p];
      if !prev.completed then prev
      else
        match CustomStep(p.name, customize, serialize, rootKey)
        case Skip => prev
        case Abort => Run(prev.calls, false)
        case Deliver(d) => Run(prev.calls + [Call(p, Receive(d))], true)
  }

  lemma ConcatAssoc<T>(a: seq<T>, b: seq<T>, c: seq<T>)
    ensures a + b + c == a + (b + c)
  {
  }

  lemma CountSnoc(s: seq<Processor>, p: Processor, o: Processor)
    ensures Count(s + [p], o) == Count(s, o) + (if p == o then 1 else 0)
  {
    assert (s + [p])[..|s|] == s;
  }

  lemma ActionsToSnoc(calls: seq<Call>, c: Call, o: Processor)
    ensures ActionsTo(calls + [c], o) == ActionsTo(calls, o) + (if c.sink == o then [c.action] else [])
  {
    assert (calls + [c])[..|calls|] == calls;
  }

  /** A processor that no call addresses observes nothing. */
  lemma {:induction false} ActionsToUnaddressed(calls: seq<Call>, o: Processor)
    requires forall c :: c in calls ==> c.sink != o
    ensures ActionsTo(calls, o) == []
  {
    if calls != [] {
      assert calls[|calls| - 1] in calls;
      ActionsToUnaddressed(calls[..|calls| - 1], o);
    }
  }

  lemma FanoutSnoc(s: seq<Processor>, i: nat, a: Action)
    requires i < |s|
    ensures Fanout(s[..i + 1], a) == Fanout(s[..i], a) + [Call(s[i], a)]
  {
    assert s[..i + 1][..i] == s[..i];
  }

  /** A fanned-out action reaches each processor once per registration, and nothing else does. */
  lemma {:induction false} FanoutReachesEach(s: seq<Processor>, a: Action, o: Processor)
    ensures ActionsTo(Fanout(s, a), o) == Repeat(a, Count(s, o))
  {
    if s != [] {
      var init, last := s[..|s| - 1], s[|s| - 1];
      FanoutReachesEach(init, a, o);
      ActionsToSnoc(Fanout(init, a), Call(last, a), o);
    }
  }

  /** Technical processors keep all their registrations in the filtered list; the others keep none. */
  lemma {:induction false} TechnicalCount(s: seq<Processor>, o: Processor)
    ensures Count(Technical(s), o) == if o.isTechnical then Count(s, o) else 0
  {
    if s != [] {
      var init, last := s[..|s| - 1], s[|s| - 1];
      TechnicalCount(init, o);
      if last.isTechnical {
        assert Technical(s) == Technical(init) + [last];
        CountSnoc(Technical(init), last, o);
      } else {
        assert Technical(s) == Technical(init);
      }
    }
  }

  /** The construction invariant guarantees that a technical event has somewhere to go. */
  lemma {:induction false} AdmissibleHasTechnicalTarget(s: seq<Processor>)
    requires Admissible(s) && s != []
    ensures Technical(s) != []
  {
    var p :| p in s && p.isTechnical;
    TechnicalCount(s, p);
  }

  /** One more processor: what the customisable loop does with `s[i]` once it has reached it. */
  lemma CustomRunSnoc<B>(s: seq<Processor>, i: nat, customize: Customization<B>, serialize: Serializer<B>, rootKey: string)
    requires i < |s| && CustomRun(s[..i], customize, serialize, rootKey).completed
    ensures var step := CustomStep(s[i].name, customize, serialize, rootKey);
      CustomRun(s[..i + 1], customize, serialize, rootKey) ==
        Run(CustomRun(s[..i], customize, serialize, rootKey).calls + StepCalls(s[i], step), !step.Abort?)
  {
    assert s[..i + 1][..i] == s[..i];
    assert CustomRun(s[..i], customize, serialize, rootKey).calls + [] == CustomRun(s[..i], customize, serialize, rootKey).calls;
  }

  /** Once the customisable loop has stopped, later processors change nothing. */
  lemma {:induction false} CustomRunAbortIsFinal<B>(s: seq<Processor>, k: nat, customize: Customization<B>, serialize: Serializer<B>, rootKey: string)
    requires k <= |s| && !CustomRun(s[..k], customize, serialize, rootKey).completed
    ensures CustomRun(s, customize, serialize, rootKey) == CustomRun(s[..k], customize, serialize, rootKey)
    decreases |s|
  {
    if k < |s| {
      var init := s[..|s| - 1];
      assert init[..k] == s[..k];
      CustomRunAbortIsFinal(init, k, customize, serialize, rootKey);
    } else {
      assert s[..k] == s;
    }
  }

  /** The customisable loop runs to the end exactly when no opted-in processor's body fails to serialise. */
  lemma {:induction false} CustomCompletedIff<B>(s: seq<Processor>, customize: Customization<B>, serialize: Serializer<B>, rootKey: string)
    ensures CustomRun(s, customize, serialize, rootKey).completed <==>
      forall i :: 0 <= i < |s| ==> !CustomStep(s[i].name, customize, serialize, rootKey).Abort?
  {
    if s != [] {
      var init := s[..|s| - 1];
      CustomCompletedIff(init, customize, serialize, rootKey);
      assert forall i :: 0 <= i < |init| ==> init[i] == s[i];
    }
  }

  /** A processor whose `customized(for:)` is nil receives nothing. */
  lemma CustomOptOutReceivesNothing<B>(s: seq<Processor>, customize: Customization<B>, serialize: Serializer<B>, rootKey: string, o: Processor)
    requires customize(o.name).None?
    ensures ActionsTo(CustomRun(s, customize, serialize, rootKey).calls, o) == []
  {
    ActionsToUnaddressed(CustomRun(s, customize, serialize, rootKey).calls, o);
  }

  /**
   * When the loop runs to the end, each opted-in processor receives its own
   * customised name and canonicalised body, once per registration.
   */
  lemma {:induction false} CustomCompletedDelivers<B>(s: seq<Processor>, customize: Customization<B>, serialize: Serializer<B>, rootKey: string, o: Processor, d: Delivery)
    requires CustomRun(s, customize, serialize, rootKey).completed
    requires CustomStep(o.name, customize, serialize, rootKey) == Deliver(d)
    ensures ActionsTo(CustomRun(s, customize, serialize, rootKey).calls, o) == Repeat(Receive(d), Count(s, o))
  {
    if s != [] {
      var init, last := s[..|s| - 1], s[|s| - 1];
      var prev := CustomRun(init, customize, serialize, rootKey);
      CustomCompletedDelivers(init, customize, serialize, rootKey, o, d);
      match CustomStep(last.name, customize, serialize, rootKey)
      case Skip =>
      case Abort =>
      case Deliver(d') =>
        ActionsToSnoc(prev.calls, Call(last, Receive(d')), o);
    }
  }

  /**
   * When serialisation fails, the loop stopped at the first opted-in processor
   * whose body failed: the calls are those of the processors before it, and
   * no processor from it onward was called.
   */
  lemma {:induction false} CustomAbortKeepsPrefix<B>(s: seq<Processor>, customize: Customization<B>, serialize: Serializer<B>, rootKey: string)
    requires !CustomRun(s, customize, serialize, rootKey).completed
    ensures exists k ::
      && 0 <= k < |s|
      && CustomRun(s[..k], customize, serialize, rootKey).completed
      && CustomStep(s[k].name, customize, serialize, rootKey).Abort?
      && CustomRun(s, customize, serialize, rootKey).calls == CustomRun(s[..k], customize, serialize, rootKey).calls
  {
    var init := s[..|s| - 1];
    if !CustomRun(init, customize, serialize, rootKey).completed {
      CustomAbortKeepsPrefix(init, customize, serialize, rootKey);
      var k :| 0 <= k < |init|
        && CustomRun(init[..k], customize, serialize, rootKey).completed
        && CustomStep(init[k].name, customize, serialize, rootKey).Abort?
        && CustomRun(init, customize, serialize, rootKey).calls == CustomRun(init[..k], customize, serialize, rootKey).calls;
      assert init[..k] == s[..k] && init[k] == s[k];
    } else {
      assert s[..|s| - 1] == init;
      assert CustomStep(s[|s| - 1].name, customize, serialize, rootKey).Abort?;
    }
  }
}

/**
 * `EventDispatcher`: a fixed, ordered list of processors and the four
 * operations that fan calls out to them. Work handed to the serial queue is
 * run at once, in the caller's step, as a queue that runs each closure
 * inline does. The ghost `journal` records every call made on a processor,
 * in the order made, so that the order across processors can be stated.
 */
module Dispatching {
  import opened Wrappers
  import opened EventNames
  import opened Canonicalizer
  import opened Processors
  import opened Routing

  class EventDispatcher {
    const processors: seq<Processor>
    ghost var journal: seq<Call>

    /** `init(processors:queue:)`: the list must be empty or hold a technical processor. */
    constructor (processors: seq<Processor>)
      requires Admissible(processors)
      ensures this.processors == processors && Admissible(this.processors)
      ensures journal == []
    {
      this.processors := processors;
      journal := [];
    }

    /** One call on one processor: `send(_:properties:)` or `set(userId:)`. */
    method Notify(p: Processor, action: Action)
      modifies p
      ensures p.log == old(p.log) + [action]
    {
      match action {
        case Receive(d) => p.Send(d.name, d.properties);
        case AssignUserId(id) => p.SetUserId(id);
      }
    }

    /**
     * Makes `call` and records it in the journal. If each processor's log was
     * `logs0` followed by what `done` addressed to it, it now is `logs0`
     * followed by what `done + [call]` addresses to it.
     */
    method Perform(call: Call, ghost done: seq<Call>, ghost logs0: map<Processor, seq<Action>>)
      requires call.sink in processors
      requires forall o :: o in processors ==> o in logs0 && o.log == logs0[o] + ActionsTo(done, o)
      modifies this, call.sink
      ensures journal == old(journal) + [call]
      ensures forall o :: o in processors ==> o.log == logs0[o] + ActionsTo(done + [call], o)
    {
      var p := call.sink;
      Notify(p, call.action);
      ConcatAssoc(logs0[p], ActionsTo(done, p), [call.action]);
      forall o | o in processors
        ensures o.log == logs0[o] + ActionsTo(done + [call], o)
      {
        ActionsToSnoc(done, call, o);
      }
      journal := journal + [call];
    }

    /** The loop shared by `set(userId:)`, `send(_:body:)` and the technical `send`: `action` to each of `targets`, in order. */
    method Broadcast(targets: seq<Processor>, action: Action)
      requires forall p :: p in targets ==> p in processors
      modifies this, processors
      ensures journal == old(journal) + Fanout(targets, action)
      ensures forall o :: o in processors ==> o.log == old(o.log) + ActionsTo(Fanout(targets, action), o)
    {
      ghost var logs0 := map o | o in processors :: o.log;
      for i := 0 to |targets|
        invariant journal == old(journal) + Fanout(targets[..i], action)
        invariant forall o :: o in processors ==> o.log == logs0[o] + ActionsTo(Fanout(targets[..i], action), o)
      {
        assert targets[i] in targets;
        Perform(Call(targets[i], action), Fanout(targets[..i], action), logs0);
        ConcatAssoc(old(journal), Fanout(targets[..i], action), [Call(targets[i], action)]);
        FanoutSnoc(targets, i, action);
      }
      assert targets[..|targets|] == targets;
    }

    /** `set(userId:)`: every processor, technical or not, receives the id once per registration, in registration order. */
    method SetUserId(userId: Option<string>)
      modifies this, processors
      ensures journal == old(journal) + Fanout(processors, AssignUserId(userId))
      ensures forall o :: o in processors ==> o.log == old(o.log) + Repeat(AssignUserId(userId), Count(processors, o))
    {
      Broadcast(processors, AssignUserId(userId));
      forall o | o in processors
        ensures ActionsTo(Fanout(processors, AssignUserId(userId)), o) == Repeat(AssignUserId(userId), Count(processors, o))
      {
        FanoutReachesEach(processors, AssignUserId(userId), o);
      }
    }

    /**
     * `send(_:body:)`: the body is canonicalised once and the same properties
     * go to every processor in registration order; if serialisation fails no
     * processor is called.
     */
    method Send<B>(name: EventName, body: B, serialize: Serializer<B>, rootKey: string)
      modifies this, processors
      ensures var props := Make(serialize, rootKey, body);
        journal == old(journal) + if props.Some? then Fanout(processors, Receive(Delivery(name, props.value))) else []
      ensures var props := Make(serialize, rootKey, body);
        forall o :: o in processors ==>
          o.log == old(o.log) + if props.Some? then Repeat(Receive(Delivery(name, props.value)), Count(processors, o)) else []
    {
      var props := Make(serialize, rootKey, body);
      if props.Some? {
        var action := Receive(Delivery(name, props.value));
        Broadcast(processors, action);
        forall o | o in processors
          ensures ActionsTo(Fanout(processors, action), o) == Repeat(action, Count(processors, o))
        {
          FanoutReachesEach(processors, action, o);
        }
      }
    }

    /**
     * The technical `send`: canonicalised once, then delivered under the
     * event's static name to the technical processors only, in their
     * registration order; the others' logs are untouched.
     */
    method SendTechnical<B>(event: TechnicalEvent<B>, serialize: Serializer<B>, rootKey: string)
      modifies this, processors
      ensures var props := Make(serialize, rootKey, event.body);
        journal == old(journal) + if props.Some? then Fanout(Technical(processors), Receive(Delivery(event.name, props.value))) else []
      ensures var props := Make(serialize, rootKey, event.body);
        forall o :: o in processors ==>
          o.log == old(o.log) + if props.Some? && o.isTechnical then Repeat(Receive(Delivery(event.name, props.value)), Count(processors, o)) else []
    {
      var props := Make(serialize, rootKey, event.body);
      if props.Some? {
        var action := Receive(Delivery(event.name, props.value));
        var technical := Technical(processors);
        Broadcast(technical, action);
        forall o | o in processors
          ensures ActionsTo(Fanout(technical, action), o) == if o.isTechnical then Repeat(action, Count(processors, o)) else []
        {
          FanoutReachesEach(technical, action, o);
          TechnicalCount(processors, o);
        }
      }
    }

    /**
     * The body of the customisable `send` loop for processor `p`: ask
     * `customized(for:)`, skip on nil, otherwise canonicalise that processor's
     * own body and send it. `proceed` is false when serialisation threw.
     */
    method Offer<B>(p: Processor, customize: Customization<B>, serialize: Serializer<B>, rootKey: string,
                    ghost done: seq<Call>, ghost logs0: map<Processor, seq<Action>>)
      returns (proceed: bool)
      requires p in processors
      requires forall o :: o in processors ==> o in logs0 && o.log == logs0[o] + ActionsTo(done, o)
      modifies this, p
      ensures var made := StepCalls(p, CustomStep(p.name, customize, serialize, rootKey));
        && proceed == !CustomStep(p.name, customize, serialize, rootKey).Abort?
        && journal == old(journal) + made
        && forall o :: o in processors ==> o.log == logs0[o] + ActionsTo(done + made, o)
    {
      proceed := true;
      match customize(p.name) {
        case None =>
          assert done + [] == done;
        case Some(event) =>
          var props := Make(serialize, rootKey, event.body);
          if props.None? {
            assert done + [] == done;
            proceed := false;
          } else {
            Perform(Call(p, Receive(Delivery(event.name, props.value))), done, logs0);
          }
      }
    }

    /**
     * The customisable `send`: each processor in turn is offered to
     * `customized(for:)`; nil skips it, otherwise its own body is
     * canonicalised and sent under its own name. A serialisation failure ends
     * the whole loop, keeping what was already sent.
     */
    method SendCustomizable<B>(customize: Customization<B>, serialize: Serializer<B>, rootKey: string)
      modifies this, processors
      ensures journal == old(journal) + CustomRun(processors, customize, serialize, rootKey).calls
      ensures forall o :: o in processors ==>
        o.log == old(o.log) + ActionsTo(CustomRun(processors, customize, serialize, rootKey).calls, o)
    {
      ghost var logs0 := map o | o in processors :: o.log;
      var i := 0;
      var proceed := true;
      while i < |processors| && proceed
        invariant 0 <= i <= |processors|
        invariant proceed == CustomRun(processors[..i], customize, serialize, rootKey).completed
        invariant journal == old(journal) + CustomRun(processors[..i], customize, serialize, rootKey).calls
        invariant forall o :: o in processors ==>
          o.log == logs0[o] + ActionsTo(CustomRun(processors[..i], customize, serialize, rootKey).calls, o)
      {
        ghost var done := CustomRun(processors[..i], customize, serialize, rootKey).calls;
        ghost var made := StepCalls(processors[i], CustomStep(processors[i].name, customize, serialize, rootKey));
        CustomRunSnoc(processors, i, customize, serialize, rootKey);
        proceed := Offer(processors[i], customize, serialize, rootKey, done, logs0);
        ConcatAssoc(old(journal), done, made);
        i := i + 1;
      }
      if !proceed {
        CustomRunAbortIsFinal(processors, i, customize, serialize, rootKey);
      } else {
        assert processors[..i] == processors;
      }
    }
  }
}

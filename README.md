# EventDispatcherKit routing core in Dafny

This project models how `EventDispatcher` routes analytics events to its
registered `EventProcessor`s. A processor is an analytics back end or the
console logger. The model covers the following, with the properties they
guarantee:

- the dispatcher's construction rule: the processor list is empty, or it holds at
  least one technical processor;
- `make(with:)`, which serialises a body and wraps any value that is not a
  string-keyed object under the root key (default `"body"`);
- the four dispatch operations:
  - `set(userId:)`;
  - `send(_:body:)`;
  - the technical `send`, which goes only to processors whose `isTechnical`
    is true;
  - the customisable `send`, where the event chooses a name and a body for each
    processor, or opts that processor out;
- the two value types `EventName` and `EventProcessorName`: their initialisers,
  their description strings, equality and their single-string `Codable` form.

## Structure

- `wrappers.dfy`: `Option` and `Result`.
- `json.dfy`: JSON values. Also the property map `[String: Any]` and the
  single-value string decoding used by both names.
- `event_name.dfy` and `processor_name.dfy`: `EventName` and `EventProcessorName`.
- `canonicalizer.dfy`: `make(with:)`. The serialiser is a parameter.
- `processor.dfy`: the processor class. It has a ghost log of every call it
  receives, in arrival order.
- `routing.dfy`: pure functions that say which calls each operation makes, in
  which order, plus lemmas about what each processor then observes:
  - `Fanout`: one action to a list of processors;
  - `Technical`: the technical filter;
  - `CustomRun`: the customisable loop, including its early exit.
- `dispatcher.dfy`: the `EventDispatcher` class, whose methods contain the loops.
  - Each method is proved to make exactly the calls the routing functions
    describe.
  - A ghost journal records every call across all processors, so the model
    states the order across processors as well as each processor's own log.
  - A processor object may be registered more than once. It then receives one
    call per registration.

Some parts of the real system are supplied from outside the model:

- Work handed to the serial dispatch queue runs immediately, as with a queue
  that runs each closure inline.
- `EventDispatcher.rootKey` is a static variable the whole process can change.
  Each operation takes it as a `rootKey` parameter. `DefaultRootKey` is its
  initial value.
- The serialiser (`JSONEncoder` followed by `JSONSerialization`) is a function
  parameter. It either fails or yields a JSON value.
- `customized(for:)` is a `Customization` parameter: a deterministic function
  of the processor name. Routing.CustomRun therefore gives every registration
  of a processor, and every processor with the same name, the same answer, and
  Routing.CustomCompletedDelivers relies on that when it states one identical
  delivery per registration. The code calls `customized(for:)` afresh for
  each list entry, and an event whose answer changes from call to call is not
  modelled.

## Model

| member | source | states |
|---|---|---|
| JsonValues.DecodeString | Sources/Metric/EventName.swift:14-17 | a single-value container decodes as a string exactly when it holds a string, giving back that string; `null` is reported as a missing value, anything else as a type mismatch |
| EventNames.FromValue | Sources/Metric/EventName.swift:6-8 | `init(value:)` stores the given string |
| EventNames.FromRawValue | Sources/Metric/EventName.swift:27-32 | the `RawRepresentable` initialiser stores the raw value |
| EventNames.FromStringLiteral | Sources/Metric/EventName.swift:36-40 | a string literal stores that string |
| EventNames.Description | Sources/Metric/EventName.swift:44-48 | `description` is the stored string: building a name from it gives back the same name |
| EventNames.DebugDescription | Sources/Metric/EventName.swift:52-56 | `debugDescription` equals `description` |
| EventNames.Encode | Sources/Metric/EventName.swift:19-22 | encoding writes the stored string as a single JSON string |
| EventNames.Decode | Sources/Metric/EventName.swift:14-17 | decoding succeeds exactly on a JSON string and re-encodes to the input; `null` fails with a missing-value error |
| EventNames.EqualityByValue | Sources/Metric/EventName.swift:3-4 | the synthesised `Equatable`/`Hashable`: two names are equal exactly when their strings are, and equal names feed the hasher the same string, so they hash equally |
| EventNames.InitialisersAgree | Sources/Metric/EventName.swift:27-40 | the value, raw-value and literal initialisers build the same name from the same string, and both descriptions give that string back |
| EventNames.CodableRoundTrip | Sources/Metric/EventName.swift:13-23 | decoding an encoded name gives back that name; a decoded name re-encodes to its source |
| ProcessorNames.FromName | Sources/EventProcessorName.swift:6-8 | `init(name:)` stores the given string |
| ProcessorNames.FromRawValue | Sources/EventProcessorName.swift:37-42 | the `RawRepresentable` initialiser stores the raw value |
| ProcessorNames.FromStringLiteral | Sources/EventProcessorName.swift:46-50 | a string literal stores that string |
| ProcessorNames.Description | Sources/EventProcessorName.swift:54-58 | `description` is the stored string: building a name from it gives back the same name |
| ProcessorNames.DebugDescription | Sources/EventProcessorName.swift:62-66 | `debugDescription` equals `description` |
| ProcessorNames.Encode | Sources/EventProcessorName.swift:29-32 | encoding writes the stored string as a single JSON string |
| ProcessorNames.Decode | Sources/EventProcessorName.swift:24-27 | decoding succeeds exactly on a JSON string and re-encodes to the input; `null` fails with a missing-value error |
| ProcessorNames.EqualityByName | Sources/EventProcessorName.swift:3-4 | `Equatable`: two processor names are equal exactly when their strings are |
| ProcessorNames.InitialisersAgree | Sources/EventProcessorName.swift:37-50 | the name, raw-value and literal initialisers agree, and both descriptions give the string back |
| ProcessorNames.CodableRoundTrip | Sources/EventProcessorName.swift:23-33 | decoding an encoded processor name gives it back; a decoded one re-encodes to its source |
| Canonicalizer.Canonical | Sources/EventDispatcher.swift:26-30 | a string-keyed object is passed through unchanged, and only an object is; any other value becomes a one-entry map holding it under the root key |
| Canonicalizer.Make | Sources/EventDispatcher.swift:23-31 | `make(with:)` fails exactly when serialisation fails; otherwise it yields the canonical form of the serialised value |
| Canonicalizer.CanonicalRecoverable | Sources/EventDispatcher.swift:26-30 | nothing is lost: an object comes back as it was, and any other value can be read back from under the root key |
| Processors.Processor.constructor | Sources/EventProcessor.swift:16-19 | a processor has a fixed name and technical flag, and nothing has been sent to it yet |
| Processors.Processor.Send | Sources/EventProcessor.swift:22 | `send(_:properties:)` appends exactly that name and those properties to the processor's log |
| Processors.Processor.SetUserId | Sources/EventProcessor.swift:24 | `set(userId:)` appends exactly that id to the processor's log |
| Routing.Fanout | Sources/EventDispatcher.swift:49-51 | the loop over a processor list makes one call per entry, and call `i` goes to entry `i` |
| Routing.Technical | Sources/EventDispatcher.swift:62 | the filter keeps only technical processors from the list |
| Routing.Admissible | Sources/EventDispatcher.swift:20 | the construction rule: the list is empty or some listed processor is technical |
| Routing.HasTechnical | Sources/EventDispatcher.swift:20 | `contains(where: \.isTechnical)` holds exactly when some listed processor is technical |
| Routing.CustomStep | Sources/EventDispatcher.swift:76-78 | for one processor: skip exactly when `customized(for:)` is nil; abort exactly when that processor's body fails to serialise; otherwise deliver the customised name with `make(with:)` of the customised body |
| Routing.CustomRun | Sources/EventDispatcher.swift:74-80 | the customisable loop makes at most one call per processor, and only to listed processors; each call carries a `send` of exactly that processor's customised delivery |
| Routing.FanoutReachesEach | Sources/EventDispatcher.swift:39-41 | through the loop each processor observes the action once per registration and nothing else |
| Routing.TechnicalCount | Sources/EventDispatcher.swift:62 | the filter keeps every registration of a technical processor and none of a non-technical one |
| Routing.AdmissibleHasTechnicalTarget | Sources/EventDispatcher.swift:20 | with the construction rule, a non-empty dispatcher has a processor that a technical event reaches |
| Routing.CustomRunSnoc | Sources/EventDispatcher.swift:75-79 | once the loop reaches processor `i`, that processor adds its own delivery, adds nothing, or stops the loop |
| Routing.CustomRunAbortIsFinal | Sources/EventDispatcher.swift:81-83 | after a serialisation failure, later processors change nothing: the thrown error leaves the loop |
| Routing.CustomCompletedIff | Sources/EventDispatcher.swift:74-83 | the loop reaches its end exactly when no opted-in processor's body fails to serialise |
| Routing.CustomOptOutReceivesNothing | Sources/EventDispatcher.swift:76 | a processor for which `customized(for:)` is nil receives nothing |
| Routing.CustomCompletedDelivers | Sources/EventDispatcher.swift:75-79 | when the loop completes, each opted-in processor receives its own customised name and properties, once per registration |
| Routing.CustomAbortKeepsPrefix | Sources/EventDispatcher.swift:74-83 | when the loop stops, it stopped at the first opted-in processor whose body failed. Exactly the calls for the processors before it were made, and none after it |
| Dispatching.EventDispatcher.constructor | Sources/EventDispatcher.swift:15-21 | the dispatcher keeps the given list in order; the list is empty or holds a technical processor |
| Dispatching.EventDispatcher.Broadcast | Sources/EventDispatcher.swift:49-51 | the loop makes exactly the fan-out calls, in order; each processor's log gains exactly what those calls address to it |
| Dispatching.EventDispatcher.SetUserId | Sources/EventDispatcher.swift:37-43 | every processor, technical or not, receives the id once per registration, in registration order, and nothing else |
| Dispatching.EventDispatcher.Send | Sources/EventDispatcher.swift:45-56 | the body is canonicalised once, and every processor receives the same name and properties once per registration, in registration order. If serialisation fails, no processor is called |
| Dispatching.EventDispatcher.SendTechnical | Sources/EventDispatcher.swift:58-70 | the event is canonicalised once and sent under its static name to the technical processors only, in registration order; non-technical processors' logs are unchanged; on serialisation failure nothing is sent |
| Dispatching.EventDispatcher.Offer | Sources/EventDispatcher.swift:76-79 | one loop step makes exactly the call `CustomStep` prescribes for that processor, and reports whether the loop may go on |
| Dispatching.EventDispatcher.SendCustomizable | Sources/EventDispatcher.swift:72-85 | the calls made, in order, and each processor's new log are exactly those of `CustomRun`, whose properties are the lemmas above |

## Left out

- Concurrency is not modelled. This covers the serial background queue, the
  asynchrony of every operation, and thread-safety. Each operation runs to
  completion at once, so the model assumes the serial queue's in-order
  execution.
- Enable/disable is not modelled. The dispatcher-wide enabled flag,
  `set(enabled:)` and per-processor `isEnabled` gating appear in the
  protocols, but `EventDispatcher.swift` never reads or sets them. The model
  follows that code: no operation consults an enabled flag.
- Canonicalizer.Make: the serialiser is an arbitrary function that may fail.
  Foundation's exact behaviour is not modelled. That includes key ordering,
  number formats, and whether a top-level scalar is rejected when it is read
  back with no reading options. Such a rejection is covered only as one more
  way for serialisation to fail.
- Serialisation failures follow release-build behaviour. In the code, the
  thrown error leaves the `do` block, and that is what ends the operation.
  The `catch` then calls `assertionFailure`. In a release build that call does
  nothing, so the operation returns normally. In a debug build it halts the
  process. The model keeps the release-build meaning: the operation returns,
  and for the customisable `send` the earlier deliveries stay. The halt is
  not modelled. Construction, in contrast, takes the debug-build meaning of
  its `assert`; see the constructor line below.
- Dispatching.EventDispatcher.SendCustomizable keeps the deliveries made before
  a serialisation failure. The code catches the error outside its loop, so
  earlier processors have already been called. The model follows the code.
  It does not claim the "nothing is sent for a failing event" rule that holds
  for the other two `send`s.
- Dispatching.EventDispatcher.constructor turns the construction `assert` into
  a precondition. In the code it is a debug-build check only; a release build
  accepts any list.
- Processors.Processor: `name` and `isTechnical` are fixed values. The
  dispatcher only reads them, and a processor's own behaviour is outside this
  core; the log records what the processor was asked to do.
- The `encoder` stored in `CustomizedEvent` and `TechnicalEvent` is left out,
  because `make(with:)` never uses it.
- `EventProcessorName.generate(for:)` and `.console` are left out. They derive
  a name from a Swift type's reflected name, and that name is not part of the
  routing.
- `ConsoleEventProcessor`, the test fakes and the `send(Event)` convenience in
  `EventDispatching.swift` are not part of this model.
- EventNames.EqualityByValue compares the stored strings code point by code
  point. Swift's `String` equality and hashing use Unicode canonical
  equivalence, so `"caf\u{E9}"` and `"cafe\u{301}"` name the same event in
  Swift but two different events in the model. The hash values are
  modelled only through an arbitrary hasher applied to the stored string.
- ProcessorNames.EqualityByName compares code points in the same way. Two
  canonically equivalent spellings of a processor name are equal in Swift
  but different in the model, and so are the answers `customized(for:)`
  can give them.
- Non-integer JSON numbers are not represented: the `Json` value type holds
  integer numbers only, so a body with a fractional number, such as a
  `Double` field holding 1.5, has no faithful serialised form in the model.

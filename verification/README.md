# Event binding of govcl forms, in Dafny

`associatedEvents` (vcl/associatedEvents.go) wires a form's methods to the
event setters of the form, of its components and of the `Application`
singleton by naming convention. It collects every method named `On…` except
the create hook `OnFormCreate`. A handler named `On` + label + event type is
then installed with `SetOn<eventType>` on the object the label names. The
steps run in a fixed order:

1. the form itself (label `Form`, field `TForm`);
2. when `subComponentEvent` is set, every owned component under its own
   name, and then every field tagged `event:"<handler>"`, which receives a
   handler that an earlier step recorded;
3. the `Application` singleton (label `Application`).

Last, the resolver calls `OnFormCreate` if the form has one.

The project has five modules:

- `Names` holds the prefix test and the suffix extraction.
- `Model` holds the data the resolver inspects, with the reflection made
  explicit. It also specifies each binding step as a function over a
  `Run` value, which records:
  - the event slot of every object;
  - the handler table `tempEventTypes`;
  - the setter calls made.
- `Resolver` has the imperative code:
  - the method scan;
  - the `setEvent` loop, over the handlers in an arbitrary order, as Go
    map iteration has;
  - the component and field loops;
  - the create-hook call.

  The binding helpers are methods of class `World`, whose fields hold every
  object's event slots and a log of setter invocations and create-hook
  calls. Each binding method is proved equal to the matching function of
  `Model`.
- `Properties` proves what the pass guarantees for every form.
- `Scenarios` proves what the pass yields for two concrete forms.

The resolver's environment is given as data:
- per object, the names of the methods it exposes: an object is bindable for
  event type `T` when it has `SetOn<T>`;
- the set of setter calls that panic (`Env.faulty`). A panicking call is
  logged but leaves its slot unchanged, as the `recover` in
  `findAndSetEvent` does.

Two consequences of the code are worth spelling out:
- **Table ties.** Two component prefixes can match one handler, such as
  "Button" and "Button1" for "OnButton1Click". In that case the later write
  to `tempEventTypes` (vcl/associatedEvents.go:90) decides the recorded event
  type: the component bound last wins, not the longest prefix.
  `Scenarios.LaterMatchWinsTheTable` shows what this means for a tag
  override.
- **Components with the same name.** Every component looks up its
  destination with `FieldByName(name)` (vcl/associatedEvents.go:161). Two
  owned components with the same name therefore both bind the one field
  with that name.

## Model

| member | source | states |
|---|---|---|
| Names.Suffix | vcl/associatedEvents.go:83-88 | the extracted event type is what follows the prefix: prefix + type == handler name |
| Names.SuffixInjective | vcl/associatedEvents.go:83-88 | two handlers matched by one prefix never yield the same event type |
| Model.FieldByName | vcl/associatedEvents.go:161 | a field is found exactly when one has the name, and it is that field (the first one, should names repeat) |
| Model.EventTypesAdd | vcl/associatedEvents.go:84-88 | visiting one more handler adds its suffix to the event types exactly when the prefix matches it |
| Model.TableEntriesAdd | vcl/associatedEvents.go:84-90 | visiting a matched handler overwrites its table row with (suffix, handler); an unmatched handler leaves the table alone |
| Model.AttemptsAdd | vcl/associatedEvents.go:84-97 | visiting a matched handler with a destination adds exactly its one setter call (if the setter exists); otherwise no call |
| Model.InstallsAdd | vcl/associatedEvents.go:84-97 | visiting a matched handler installs it in the destination's slot unless the setter is missing or panics; otherwise the slots are unchanged |
| Resolver.CollectEvents | vcl/associatedEvents.go:54-65 | the create hook is remembered exactly when present; the collected handlers are the `On…` names other than it, all starting with "On" |
| Resolver.World.FindAndSetEvent | vcl/associatedEvents.go:148-157 | the slot gets the handler exactly when the object has `SetOn<type>` and the call does not panic; the call is logged exactly when the setter exists |
| Resolver.World.AddComponentNotifyEvent | vcl/associatedEvents.go:160-164 | binds to the field with the name, and changes nothing and logs nothing when there is no such field |
| Resolver.World.AddApplicationNotifyEvent | vcl/associatedEvents.go:169-173 | binds to the Application singleton, overwriting what its slot held |
| Resolver.World.MatchHandler | vcl/associatedEvents.go:84-97 | one loop iteration grows the table, the slots and the calls from the visited handlers to one more |
| Resolver.World.SetEvent | vcl/associatedEvents.go:76-98 | for every iteration order, the new slots, table and logged calls are those of one `setEvent` step |
| Resolver.World.CallEvent | vcl/associatedEvents.go:135-145 | the create hook is called once with the form when present, otherwise nothing happens; no slot changes |
| Resolver.World.BindComponents | vcl/associatedEvents.go:104-108 | binding the owned components in order yields the slots, table and calls of the component step |
| Resolver.World.ApplyTagOverrides | vcl/associatedEvents.go:111-124 | the field loop leaves the table unchanged, and yields the slots and calls of the tag step |
| Resolver.World.BindSubComponents | vcl/associatedEvents.go:104-125 | the block switched on by `subComponentEvent` is the component step followed by the tag step |
| Resolver.World.BindApplication | vcl/associatedEvents.go:128 | the Application step on the state left by the earlier steps |
| Resolver.World.BindingPass | vcl/associatedEvents.go:101-128 | Form, components and tags when enabled, then Application: the final slots and calls are those of the whole pass |
| Resolver.World.AssociatedEvents | vcl/associatedEvents.go:42-132 | the slots are those of the pass; the log only grows; the create hook is the last entry exactly when present; before it there are only setter invocations, exactly the pass's calls |
| Properties.EventTypesIff | vcl/associatedEvents.go:83-88 | a type is extracted from a prefix exactly when prefix + type is a collected handler |
| Properties.StepIff | vcl/associatedEvents.go:84-97 | a call is made and a slot filled in one step exactly when the handler is prefix + type, the object is the destination and exposes the setter (and, for the slot, the call does not panic) |
| Properties.SetEventIff | vcl/associatedEvents.go:76-98 | one `setEvent` in full: which slots change and to what, which calls are made, which table rows are overwritten; everything else is kept |
| Properties.ComponentBindingNeedsField | vcl/associatedEvents.go:76-98 | a component's new call lands on the object of a field with the component's name, with handler "On" + name + type, on an object exposing the setter |
| Properties.AttemptsSound | vcl/associatedEvents.go:84-97 | every setter call of a step uses a collected handler ending with the setter's type, on an object exposing it |
| Properties.InstallsSound | vcl/associatedEvents.go:84-97 | every slot filled by a step was filled by one of its calls that did not panic |
| Properties.SetEventRunSound | vcl/associatedEvents.go:76-98 | one `setEvent` step preserves soundness: table rows, calls and slots are all accounted for |
| Properties.ComponentsRunSound | vcl/associatedEvents.go:104-108 | the component step preserves soundness |
| Properties.TagsRunSound | vcl/associatedEvents.go:111-124 | the tag step preserves soundness |
| Properties.AssociateRunSound | vcl/associatedEvents.go:101-128 | after the whole pass, every table row, call and changed slot comes from a collected handler and its event type |
| Properties.CreateHookNeverBound | vcl/associatedEvents.go:58-60 | `OnFormCreate` gets no table row and no setter call, and holds no slot it did not hold before; every call uses an "On" handler |
| Properties.TagsRunAttempts | vcl/associatedEvents.go:111-124 | the tag step keeps the table and makes exactly the calls of fields whose tag is non-empty and in the table; the others are skipped |
| Properties.TagOverrideBinds | vcl/associatedEvents.go:117-123 | a tagged field whose tag is in the table ends with that handler in its slot for the recorded type, unless a later override hits the same slot or the call panics |
| Properties.ComponentsRunTable | vcl/associatedEvents.go:104-108 | the component step adds to the table exactly the handlers some component's prefix matches |
| Properties.TagTableHoldsEarlierMatches | vcl/associatedEvents.go:101-117 | the table read by the tag step holds exactly the Form and component matches, never an Application one |
| Properties.NoComponentStepWhenDisabled | vcl/associatedEvents.go:101-128 | with `subComponentEvent` false, every call comes from the Form or the Application step, and both steps make all their calls |
| Properties.ApplicationLastWriteWins | vcl/associatedEvents.go:167-173 | "OnApplication<T>" ends in the singleton's slot whatever it held before; every call the Application step adds to the pass is on the singleton with an "OnApplication" handler |
| Properties.SetEventRunFault | vcl/associatedEvents.go:148-157 | one extra panicking call changes only its own slot in one step |
| Properties.ComponentsRunFault | vcl/associatedEvents.go:148-157 | the same holds across the component step |
| Properties.TagsRunFault | vcl/associatedEvents.go:148-157 | the same holds across the tag step |
| Properties.FaultContained | vcl/associatedEvents.go:148-157 | a panic in one setter call changes no other slot, no table row and no call of the whole pass |
| Scenarios.SharedHandlerExample | vcl/associatedEvents.go:16-29 | Button2 tagged "OnButton1Click" shares Button1's click handler; "OnFormShow" reaches the form; "OnFormCreate" is bound nowhere |
| Scenarios.LaterMatchWinsTheTable | vcl/associatedEvents.go:84-90 | with components "Button1" then "Button", "OnButton1Click" is recorded with type "1Click", so the tagged field gets no binding |

## Left out

- The reflection machinery (`reflect.Value`, `MethodByName`, `FieldByName`,
  `Tag.Get`, `NumMethod`). It is replaced by explicit data:
  - method names;
  - fields with a name, a tag and an object;
  - per object, the methods it exposes.
- Promoted (embedded) fields are not searched by `Model.FieldByName`. It
  sees only the form's own declared fields, whose names Go keeps unique;
  the model allows repeated names and then takes the first.
- Each field's `IsValid` check (line 121) is taken as always true. It always
  holds for a struct field. A nil component pointer is not modelled
  separately: a setter call on it is a panicking call, which `Env.faulty`
  covers.
- The `fmt.Println` diagnostics (lines 45, 138 and 151) are I/O and are not
  modelled.
- The bodies of handlers and of the create hook are not modelled. A panic
  inside the create hook, which `callEvent` recovers, changes nothing the
  model tracks.
- The outer `recover` (lines 43-47) is not modelled. A panic in the
  reflection itself would abort the rest of the pass; the model has no such
  panic.
- The VCL component classes (`Name()`, `Equals(Application)`,
  `ComponentCount`, `Components(i)`) are given as plain names and
  identities. The Application test compares identities.
- The `int32` component counter is an unbounded index. A form owning more
  than 2^31 - 1 components is out of scope.
- Go's map iteration order is not modelled as one particular order. The
  `setEvent` loop picks the handlers in an arbitrary order, and its contract
  holds for every order.
- Whether a setter call panics is fixed per call, that is per slot and
  handler, by `Env.faulty`. The `recover` in `findAndSetEvent`
  (vcl/associatedEvents.go:149-153) acts on each invocation on its own. So
  when the pass makes the same call twice, the model cannot have it panic
  once and succeed once. This happens with two owned components of one
  name, or with a field named after a component and tagged with that
  component's handler.

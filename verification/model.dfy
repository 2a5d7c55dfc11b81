/**
 * The data the resolver inspects, with the reflection made explicit, and the
 * specification of every binding step as a function over a `Run` value.
 *
 * A form is given by the names of its methods, its declared fields (name,
 * `event` tag, referenced object) and the components it owns. Each object
 * exposes a set of method names; a setter `SetOn<T>` among them is what
 * makes it bindable for event type `T`. Which setter calls panic is given
 * up front by `Env.faulty`.
 */
module Model {
  import opened Names

  /** A handler is identified by the name of the form method implementing it. */
  type Handler = string

  const MethodPrefix := "On"
  const CreateHookName := "OnFormCreate"
  const SetterPrefix := "SetOn"
  const FormLabel := "Form"
  const FormField := "TForm"
  const ApplicationLabel := "Application"

  /** An object that can own event slots: an ordinary object, or the
      process-wide Application singleton. */
  datatype Target = Obj(id: nat) | Application

  /** The slot that `SetOn<eventType>` of `target` writes. */
  datatype Slot = Slot(target: Target, eventType: string)

  /** One invocation of a setter with one handler. */
  datatype Call = Call(slot: Slot, handler: Handler)

  /** A declared field of the form struct; `tag` is its `event` tag, "" when absent. */
  datatype Field = Field(name: string, tag: string, target: Target)

  /** A component as the resolver sees it: its `Name()` and its identity. */
  datatype Component = Component(name: string, target: Target)

  /** The form: itself as a component, its methods, its fields, its owned components. */
  datatype Form = Form(self: Component, methods: seq<string>, fields: seq<Field>, components: seq<Component>)

  /** A row of the handler table: the event type a handler was matched with. */
  datatype Entry = Entry(eventType: string, handler: Handler)

  /** The method names every object exposes, and the setter calls that panic. */
  datatype Env = Env(methods: map<Target, set<string>>, faulty: set<Call>)

  /** What the resolver does that is observable: setter invocations (with
      whether they panicked) and the call of the create hook. */
  datatype Action = Invoked(call: Call, panicked: bool) | CreateHook(handler: Handler, sender: Target)

  /** The Application singleton as passed to the binding step; its name is
      never read, because that step passes the label "Application". */
  const ApplicationObject := Component(ApplicationLabel, Application)

  // ---------------------------------------------------------------------
  // Lookups

  /** The object exposes `SetOn<eventType>` (a valid `MethodByName` result). */
  predicate Exposes(env: Env, t: Target, eventType: string) {
    t in env.methods && SetterPrefix + eventType in env.methods[t]
  }

  /** `FieldByName`: the object held by the first field with that name. */
  function FieldByName(fields: seq<Field>, name: string): (r: Option<Target>)
    ensures r.Some? <==> exists i :: 0 <= i < |fields| && fields[i].name == name
    ensures r.Some? ==> exists i :: 0 <= i < |fields| && fields[i].name == name && fields[i].target == r.value
                                    && forall j :: 0 <= j < i ==> fields[j].name != name
  {
    if fields == [] then None
    else if fields[0].name == name then Some(fields[0].target)
    else
      var r := FieldByName(fields[1..], name);
      assert forall i :: 1 <= i < |fields| ==> fields[i] == fields[1..][i - 1];
      r
  }

  /** The handlers collected from the form's methods: every name starting
      with "On", except the create hook. */
  function EventNames(methods: seq<string>): set<Handler> {
    set m | m in methods && m != CreateHookName && HasPrefix(m, MethodPrefix)
  }

  // ---------------------------------------------------------------------
  // One step of `setEvent`

  /** The label in the handler prefix: the given one, else the component's name. */
  function Label(c: Component, name1: string): string {
    if name1 == "" then c.name else name1
  }

  /** The field name looked up for binding: the given one, else the label. */
  function FieldName(c: Component, name1: string, name2: string): string {
    if name2 == "" then Label(c, name1) else name2
  }

  /** Where a match is installed: the singleton when the component is the
      Application, otherwise the object of the form's field named `name2`. */
  function Dest(fields: seq<Field>, c: Component, name2: string): Option<Target> {
    if c.target == Application then Some(Application) else FieldByName(fields, name2)
  }

  /** The handlers that a prefix matches. */
  function Matched(events: set<Handler>, prefix: string): set<Handler> {
    set m | m in events && HasPrefix(m, prefix)
  }

  /** The event types obtained from the handlers a prefix matches. */
  function EventTypes(events: set<Handler>, prefix: string): set<string> {
    set m | m in events && HasPrefix(m, prefix) :: Suffix(m, prefix)
  }

  /** The table rows written for a prefix. */
  function TableEntries(events: set<Handler>, prefix: string): map<string, Entry> {
    map m | m in events && HasPrefix(m, prefix) :: Entry(Suffix(m, prefix), m)
  }

  /** The setter calls made for a prefix and a destination. */
  function Attempts(env: Env, events: set<Handler>, prefix: string, dest: Option<Target>): set<Call> {
    match dest
    case None => {}
    case Some(t) =>
      set et | et in EventTypes(events, prefix) && Exposes(env, t, et) :: Call(Slot(t, et), prefix + et)
  }

  /** The slots those calls fill: all of them but the ones that panic. */
  function Installs(env: Env, events: set<Handler>, prefix: string, dest: Option<Target>): map<Slot, Handler> {
    match dest
    case None => map[]
    case Some(t) =>
      var filled := set et | et in EventTypes(events, prefix) && Exposes(env, t, et) && Call(Slot(t, et), prefix + et) !in env.faulty
                      :: Slot(t, et);
      map s | s in filled :: prefix + s.eventType
  }

  // ---------------------------------------------------------------------
  // `findAndSetEvent`

  function BindSlots(env: Env, slots: map<Slot, Handler>, t: Target, eventType: string, h: Handler): map<Slot, Handler> {
    if Exposes(env, t, eventType) && Call(Slot(t, eventType), h) !in env.faulty
    then slots[Slot(t, eventType) := h]
    else slots
  }

  function BindLog(env: Env, t: Target, eventType: string, h: Handler): seq<Action> {
    var c := Call(Slot(t, eventType), h);
    if Exposes(env, t, eventType) then [Invoked(c, c in env.faulty)] else []
  }

  function BindAttempts(env: Env, t: Target, eventType: string, h: Handler): set<Call> {
    if Exposes(env, t, eventType) then {Call(Slot(t, eventType), h)} else {}
  }

  /** `findAndSetEvent` reached through an optional destination. */
  function DestSlots(env: Env, slots: map<Slot, Handler>, dest: Option<Target>, eventType: string, h: Handler): map<Slot, Handler> {
    match dest
    case None => slots
    case Some(t) => BindSlots(env, slots, t, eventType, h)
  }

  function DestLog(env: Env, dest: Option<Target>, eventType: string, h: Handler): seq<Action> {
    match dest
    case None => []
    case Some(t) => BindLog(env, t, eventType, h)
  }

  // ---------------------------------------------------------------------
  // The whole pass as a function

  /** The state of one pass: all event slots, the handler table, and every
      setter call made so far. */
  datatype Run = Run(slots: map<Slot, Handler>, table: map<string, Entry>, attempts: set<Call>)

  /** `setEvent(component, name1, name2)`. */
  function SetEventRun(env: Env, events: set<Handler>, fields: seq<Field>, r: Run, c: Component, name1: string, name2: string): Run {
    var prefix := MethodPrefix + Label(c, name1);
    var dest := Dest(fields, c, FieldName(c, name1, name2));
    Run(r.slots + Installs(env, events, prefix, dest),
        r.table + TableEntries(events, prefix),
        r.attempts + Attempts(env, events, prefix, dest))
  }

  /** `setEvent(form.Components(i), "", "")` for every owned component, in order. */
  function ComponentsRun(env: Env, events: set<Handler>, fields: seq<Field>, r: Run, comps: seq<Component>): Run
    decreases |comps|
  {
    if comps == [] then r
    else
      var last := |comps| - 1;
      SetEventRun(env, events, fields, ComponentsRun(env, events, fields, r, comps[..last]), comps[last], "", "")
  }

  /** `findAndSetEvent` on a run. */
  function BindRun(env: Env, r: Run, t: Target, eventType: string, h: Handler): Run {
    Run(BindSlots(env, r.slots, t, eventType, h), r.table, r.attempts + BindAttempts(env, t, eventType, h))
  }

  /** The tag override of one field. */
  function TagRun(env: Env, r: Run, f: Field): Run {
    if f.tag == "" || f.tag !in r.table then r
    else BindRun(env, r, f.target, r.table[f.tag].eventType, r.table[f.tag].handler)
  }

  /** The tag overrides of the fields, in declaration order. */
  function TagsRun(env: Env, r: Run, fields: seq<Field>): Run
    decreases |fields|
  {
    if fields == [] then r
    else
      var last := |fields| - 1;
      TagRun(env, TagsRun(env, r, fields[..last]), fields[last])
  }

  /** The Form step alone, from the given slots and an empty table. */
  function FormRun(env: Env, form: Form, slots0: map<Slot, Handler>): Run {
    SetEventRun(env, EventNames(form.methods), form.fields, Run(slots0, map[], {}), form.self, FormLabel, FormField)
  }

  /** The run after the Form step and, when enabled, the component and tag steps. */
  function MiddleRun(env: Env, form: Form, subComponentEvent: bool, slots0: map<Slot, Handler>): Run {
    var formRun := FormRun(env, form, slots0);
    if subComponentEvent
    then TagsRun(env, ComponentsRun(env, EventNames(form.methods), form.fields, formRun, form.components), form.fields)
    else formRun
  }

  /** The binding pass of `associatedEvents`, up to (not including) the create hook. */
  function AssociateRun(env: Env, form: Form, subComponentEvent: bool, slots0: map<Slot, Handler>): Run {
    SetEventRun(env, EventNames(form.methods), form.fields, MiddleRun(env, form, subComponentEvent, slots0),
                ApplicationObject, ApplicationLabel, "")
  }

  // ---------------------------------------------------------------------
  // Logs

  /** The setter calls recorded in a log. */
  ghost function CallsIn(log: seq<Action>): set<Call> {
    set a | a in log && a.Invoked? :: a.call
  }

  /** A log made of setter invocations only, each recording truly whether it panicked. */
  ghost predicate OnlyInvocations(env: Env, log: seq<Action>) {
    forall a | a in log :: a.Invoked? && a.panicked == (a.call in env.faulty)
  }

  lemma LogConcat(env: Env, a: seq<Action>, b: seq<Action>)
    ensures CallsIn(a + b) == CallsIn(a) + CallsIn(b)
    ensures OnlyInvocations(env, a + b) <==> OnlyInvocations(env, a) && OnlyInvocations(env, b)
  {
    assert forall x :: x in a + b <==> x in a || x in b;
  }

  /** Appending two log segments one after the other appends their concatenation. */
  lemma AppendTwice(log: seq<Action>, a: seq<Action>, b: seq<Action>)
    ensures log + a + b == log + (a + b)
  {
  }

  // ---------------------------------------------------------------------
  // How the closed forms grow by one handler (used by the `setEvent` loop)

  lemma {:induction false} EventTypesAdd(done: set<Handler>, m: Handler, prefix: string)
    ensures EventTypes(done + {m}, prefix)
         == if HasPrefix(m, prefix) then EventTypes(done, prefix) + {Suffix(m, prefix)} else EventTypes(done, prefix)
  {
    if HasPrefix(m, prefix) {
      assert Suffix(m, prefix) in EventTypes(done + {m}, prefix);
    }
  }

  lemma {:induction false} TableEntriesAdd(done: set<Handler>, m: Handler, prefix: string)
    ensures TableEntries(done + {m}, prefix)
         == if HasPrefix(m, prefix) then TableEntries(done, prefix)[m := Entry(Suffix(m, prefix), m)] else TableEntries(done, prefix)
  {
  }

  lemma {:induction false} AttemptsAdd(env: Env, done: set<Handler>, m: Handler, prefix: string, dest: Option<Target>)
    ensures HasPrefix(m, prefix) && dest.Some? ==>
              Attempts(env, done + {m}, prefix, dest)
              == Attempts(env, done, prefix, dest) + BindAttempts(env, dest.value, Suffix(m, prefix), m)
    ensures !(HasPrefix(m, prefix) && dest.Some?) ==>
              Attempts(env, done + {m}, prefix, dest) == Attempts(env, done, prefix, dest)
  {
    EventTypesAdd(done, m, prefix);
  }

  /** Membership in and values of `Installs` for a known destination. */
  lemma InstallsAt(env: Env, events: set<Handler>, prefix: string, t: Target)
    ensures forall s :: s in Installs(env, events, prefix, Some(t)) <==>
              s.target == t && s.eventType in EventTypes(events, prefix) && Exposes(env, t, s.eventType)
              && Call(Slot(t, s.eventType), prefix + s.eventType) !in env.faulty
    ensures forall s :: s in Installs(env, events, prefix, Some(t)) ==>
              Installs(env, events, prefix, Some(t))[s] == prefix + s.eventType
  {
  }

  lemma {:induction false} InstallsAddKeys(env: Env, done: set<Handler>, m: Handler, prefix: string, t: Target)
    requires HasPrefix(m, prefix)
    ensures Installs(env, done + {m}, prefix, Some(t)).Keys
            == BindSlots(env, Installs(env, done, prefix, Some(t)), t, Suffix(m, prefix), m).Keys
  {
    EventTypesAdd(done, m, prefix);
    InstallsAt(env, done, prefix, t);
    InstallsAt(env, done + {m}, prefix, t);
    assert prefix + Suffix(m, prefix) == m;
  }

  lemma {:induction false} InstallsAddSome(env: Env, done: set<Handler>, m: Handler, prefix: string, t: Target)
    requires HasPrefix(m, prefix)
    ensures Installs(env, done + {m}, prefix, Some(t))
            == BindSlots(env, Installs(env, done, prefix, Some(t)), t, Suffix(m, prefix), m)
  {
    InstallsAddKeys(env, done, m, prefix, t);
    InstallsAt(env, done, prefix, t);
    InstallsAt(env, done + {m}, prefix, t);
    var et := Suffix(m, prefix);
    var before, after := Installs(env, done, prefix, Some(t)), Installs(env, done + {m}, prefix, Some(t));
    var want := BindSlots(env, before, t, et, m);
    assert prefix + et == m;
    forall s | s in after ensures after[s] == want[s] {
      if s.eventType != et {
        assert s in before;
      }
    }
  }

  lemma {:induction false} InstallsAdd(env: Env, done: set<Handler>, m: Handler, prefix: string, dest: Option<Target>)
    ensures HasPrefix(m, prefix) ==>
              Installs(env, done + {m}, prefix, dest)
              == DestSlots(env, Installs(env, done, prefix, dest), dest, Suffix(m, prefix), m)
    ensures !HasPrefix(m, prefix) ==>
              Installs(env, done + {m}, prefix, dest) == Installs(env, done, prefix, dest)
  {
    EventTypesAdd(done, m, prefix);
    if HasPrefix(m, prefix) && dest.Some? {
      InstallsAddSome(env, done, m, prefix, dest.value);
    }
  }

  /** A `setEvent` step on a run with earlier attempts adds its own attempts to them. */
  lemma SetEventRunFrom(env: Env, events: set<Handler>, fields: seq<Field>, r: Run, c: Component, name1: string, name2: string)
    ensures var alone := SetEventRun(env, events, fields, Run(r.slots, r.table, {}), c, name1, name2);
            var after := SetEventRun(env, events, fields, r, c, name1, name2);
            after.slots == alone.slots && after.table == alone.table && after.attempts == r.attempts + alone.attempts
  {
  }

  lemma DestSlotsUnion(env: Env, a: map<Slot, Handler>, b: map<Slot, Handler>, dest: Option<Target>, eventType: string, h: Handler)
    ensures DestSlots(env, a + b, dest, eventType, h) == a + DestSlots(env, b, dest, eventType, h)
  {
  }

  lemma UnionUpdate<K, V>(a: map<K, V>, b: map<K, V>, k: K, v: V)
    ensures (a + b)[k := v] == a + b[k := v]
  {
  }
}

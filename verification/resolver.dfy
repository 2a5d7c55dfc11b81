/**
 * The resolver itself, step by step as `associatedEvents` runs it: collect
 * the handlers, bind the form, the owned components, the tag overrides and
 * the Application singleton, then call the create hook.
 *
 * `World` holds the state that the pass changes: the event slot of every
 * object (the Application singleton's included, which outlives one form) and
 * the log of what was invoked. Each method is proved against the matching
 * function of module Model.
 */
module Resolver {
  import opened Names
  import opened Model

  /** The method scan: remembers the create hook and collects every other
      method whose name starts with "On". */
  method CollectEvents(methods: seq<string>) returns (create: Option<Handler>, events: set<Handler>)
    ensures create == if CreateHookName in methods then Some(CreateHookName) else None
    ensures events == EventNames(methods)
    ensures CreateHookName !in events
    ensures forall m | m in events :: HasPrefix(m, MethodPrefix)
  {
    create := None;
    events := {};
    for i := 0 to |methods|
      invariant create == if CreateHookName in methods[..i] then Some(CreateHookName) else None
      invariant events == EventNames(methods[..i])
    {
      assert methods[..i + 1] == methods[..i] + [methods[i]];
      var name := methods[i];
      if name == CreateHookName {
        create := Some(name);
        continue;
      }
      if HasPrefix(name, MethodPrefix) {
        events := events + {name};
      }
    }
    assert methods[..|methods|] == methods;
  }

  class World {
    /** What every object exposes and which setter calls panic. */
    const env: Env
    /** The handler held by every event slot of every object. */
    var slots: map<Slot, Handler>
    /** Setter invocations and create-hook calls, oldest first. */
    var log: seq<Action>

    constructor (env: Env, slots: map<Slot, Handler>)
      ensures this.env == env && this.slots == slots && log == []
    {
      this.env := env;
      this.slots := slots;
      log := [];
    }

    /** `findAndSetEvent`: calls `SetOn<eventType>` of `t` with `h` when `t`
        has that setter; a panicking call is logged and changes no slot. */
    method FindAndSetEvent(t: Target, eventType: string, h: Handler)
      modifies this
      ensures var c := Call(Slot(t, eventType), h);
              slots == if Exposes(env, t, eventType) && c !in env.faulty then old(slots)[c.slot := h] else old(slots)
      ensures var c := Call(Slot(t, eventType), h);
              log == old(log) + if Exposes(env, t, eventType) then [Invoked(c, c in env.faulty)] else []
    {
      var setter := SetterPrefix + eventType;
      if t in env.methods && setter in env.methods[t] {
        var c := Call(Slot(t, eventType), h);
        var panicked := c in env.faulty;
        if !panicked {
          slots := slots[c.slot := h];
        }
        log := log + [Invoked(c, panicked)];
      }
    }

    /** `addComponentNotifyEvent`: binds to the object of the field named
        `compName`, and does nothing when the form has no such field. */
    method AddComponentNotifyEvent(fields: seq<Field>, compName: string, h: Handler, eventType: string)
      modifies this
      ensures slots == DestSlots(env, old(slots), FieldByName(fields, compName), eventType, h)
      ensures log == old(log) + DestLog(env, FieldByName(fields, compName), eventType, h)
    {
      var field := FieldByName(fields, compName);
      if field.Some? {
        FindAndSetEvent(field.value, eventType, h);
      }
    }

    /** `addApplicationNotifyEvent`: binds to the Application singleton,
        overwriting whatever handler its slot held before. */
    method AddApplicationNotifyEvent(eventType: string, h: Handler)
      modifies this
      ensures slots == BindSlots(env, old(slots), Application, eventType, h)
      ensures log == old(log) + BindLog(env, Application, eventType, h)
    {
      FindAndSetEvent(Application, eventType, h);
    }

    /** One iteration of the `setEvent` loop: if `mName` starts with the
        prefix, record its event type in the table and bind it to the
        destination. Stated as the growth of the closed forms from the
        handlers already visited (`done`) to `done + {mName}`. */
    method MatchHandler(fields: seq<Field>, component: Component, prefix: string, name2: string,
                        table: map<string, Entry>, mName: Handler,
                        ghost base: map<string, Entry>, ghost slots0: map<Slot, Handler>, ghost done: set<Handler>)
      returns (table': map<string, Entry>, ghost step: seq<Action>)
      requires table == base + TableEntries(done, prefix)
      requires slots == slots0 + Installs(env, done, prefix, Dest(fields, component, name2))
      modifies this
      ensures table' == base + TableEntries(done + {mName}, prefix)
      ensures slots == slots0 + Installs(env, done + {mName}, prefix, Dest(fields, component, name2))
      ensures log == old(log) + step
      ensures OnlyInvocations(env, step)
      ensures CallsIn(step) + Attempts(env, done, prefix, Dest(fields, component, name2))
           == Attempts(env, done + {mName}, prefix, Dest(fields, component, name2))
    {
      ghost var dest := Dest(fields, component, name2);
      TableEntriesAdd(done, mName, prefix);
      InstallsAdd(env, done, mName, prefix, dest);
      AttemptsAdd(env, done, mName, prefix, dest);
      table' := table;
      step := [];
      if !HasPrefix(mName, prefix) {
        return;
      }
      var eventType := mName[|prefix|..];
      assert eventType == Suffix(mName, prefix);
      // the table row written for this handler
      UnionUpdate(base, TableEntries(done, prefix), mName, Entry(eventType, mName));
      table' := table'[mName := Entry(eventType, mName)];
      DestSlotsUnion(env, slots0, Installs(env, done, prefix, dest), dest, eventType, mName);
      if component.target == Application {
        AddApplicationNotifyEvent(eventType, mName);
      } else {
        AddComponentNotifyEvent(fields, name2, mName, eventType);
      }
      step := DestLog(env, dest, eventType, mName);
    }

    /** The `setEvent` closure: every collected handler named
        "On" + label + eventType is recorded in the table and bound to the
        destination's `SetOn<eventType>`. The handlers are visited in an
        arbitrary order, so the closed forms below hold for every order. */
    method SetEvent(events: set<Handler>, fields: seq<Field>, table: map<string, Entry>,
                    component: Component, name1: string, name2: string)
      returns (table': map<string, Entry>, ghost added: seq<Action>)
      modifies this
      ensures var after := SetEventRun(env, events, fields, Run(old(slots), table, {}), component, name1, name2);
              slots == after.slots && table' == after.table
                && OnlyInvocations(env, added) && CallsIn(added) == after.attempts
      ensures log == old(log) + added
    {
      var n1 := if name1 == "" then component.name else name1;
      var n2 := if name2 == "" then n1 else name2;
      var prefix := MethodPrefix + n1;
      ghost var dest := Dest(fields, component, n2);
      table' := table;
      added := [];
      var remaining := events;
      ghost var done: set<Handler> := {};
      assert TableEntries(done, prefix) == map[];
      assert Installs(env, done, prefix, dest) == map[];
      while remaining != {}
        invariant remaining <= events && done == events - remaining
        invariant table' == table + TableEntries(done, prefix)
        invariant slots == old(slots) + Installs(env, done, prefix, dest)
        invariant log == old(log) + added
        invariant OnlyInvocations(env, added) && CallsIn(added) == Attempts(env, done, prefix, dest)
        decreases remaining
      {
        var mName :| mName in remaining;
        remaining := remaining - {mName};
        ghost var step;
        table', step := MatchHandler(fields, component, prefix, n2, table', mName, table, old(slots), done);
        LogConcat(env, added, step);
        added := added + step;
        done := done + {mName};
      }
      assert done == events;
    }

    /** `callEvent`: calls the create hook with the form, if there is one. */
    method CallEvent(event: Option<Handler>, sender: Target)
      modifies this
      ensures slots == old(slots)
      ensures log == old(log) + if event.Some? then [CreateHook(event.value, sender)] else []
    {
      if event.None? {
        return;
      }
      log := log + [CreateHook(event.value, sender)];
    }

    /** The component step: `setEvent(form.Components(i), "", "")` for
        every owned component, in ownership order. */
    method BindComponents(events: set<Handler>, fields: seq<Field>, comps: seq<Component>,
                          table: map<string, Entry>, ghost r: Run)
      returns (table': map<string, Entry>, ghost added: seq<Action>)
      requires slots == r.slots && table == r.table
      modifies this
      ensures var after := ComponentsRun(env, events, fields, r, comps);
              slots == after.slots && table' == after.table
                && OnlyInvocations(env, added) && r.attempts + CallsIn(added) == after.attempts
      ensures log == old(log) + added
    {
      table' := table;
      added := [];
      var i := 0;
      while i < |comps|
        invariant 0 <= i <= |comps|
        invariant var now := ComponentsRun(env, events, fields, r, comps[..i]);
                  slots == now.slots && table' == now.table
                    && OnlyInvocations(env, added) && r.attempts + CallsIn(added) == now.attempts
        invariant log == old(log) + added
      {
        ghost var now := ComponentsRun(env, events, fields, r, comps[..i]);
        ghost var next := SetEventRun(env, events, fields, now, comps[i], "", "");
        assert comps[..i + 1][..i] == comps[..i] && comps[..i + 1][i] == comps[i];
        assert ComponentsRun(env, events, fields, r, comps[..i + 1]) == next;
        SetEventRunFrom(env, events, fields, now, comps[i], "", "");
        ghost var step;
        table', step := SetEvent(events, fields, table', comps[i], "", "");
        LogConcat(env, added, step);
        AppendTwice(old(log), added, step);
        added := added + step;
        assert slots == next.slots && table' == next.table && r.attempts + CallsIn(added) == next.attempts;
        i := i + 1;
      }
      assert comps[..|comps|] == comps;
    }

    /** The tag step: each field tagged `event:"X"`, where X is a handler
        already in the table, gets the setter for X's recorded event type. */
    method ApplyTagOverrides(fields: seq<Field>, table: map<string, Entry>, ghost r: Run)
      returns (ghost added: seq<Action>)
      requires slots == r.slots && table == r.table
      modifies this
      ensures var after := TagsRun(env, r, fields);
              slots == after.slots && after.table == table
                && OnlyInvocations(env, added) && r.attempts + CallsIn(added) == after.attempts
      ensures log == old(log) + added
    {
      added := [];
      for i := 0 to |fields|
        invariant var now := TagsRun(env, r, fields[..i]);
                  slots == now.slots && now.table == table
                    && OnlyInvocations(env, added) && r.attempts + CallsIn(added) == now.attempts
        invariant log == old(log) + added
      {
        assert fields[..i + 1][..i] == fields[..i];
        var field := fields[i];
        var eventTag := field.tag;
        if eventTag == "" {
          continue;
        }
        if eventTag !in table {
          continue;
        }
        var item := table[eventTag];
        FindAndSetEvent(field.target, item.eventType, item.handler);
        ghost var step := BindLog(env, field.target, item.eventType, item.handler);
        LogConcat(env, added, step);
        AppendTwice(old(log), added, step);
        added := added + step;
      }
      assert fields[..|fields|] == fields;
    }

    /** The last step: the form's "OnApplication" handlers, bound to the
        Application singleton after every other step. */
    method BindApplication(eventMethods: set<Handler>, fields: seq<Field>, table: map<string, Entry>, ghost r: Run)
      returns (ghost added: seq<Action>)
      requires slots == r.slots && table == r.table
      modifies this
      ensures var after := SetEventRun(env, eventMethods, fields, r, ApplicationObject, ApplicationLabel, "");
              slots == after.slots && OnlyInvocations(env, added) && r.attempts + CallsIn(added) == after.attempts
      ensures log == old(log) + added
    {
      var table';
      SetEventRunFrom(env, eventMethods, fields, r, ApplicationObject, ApplicationLabel, "");
      table', added := SetEvent(eventMethods, fields, table, ApplicationObject, ApplicationLabel, "");
    }

    /** The steps `subComponentEvent` switches on: every owned component
        under its own name, then the tag overrides of the fields. */
    method BindSubComponents(form: Form, eventMethods: set<Handler>, table: map<string, Entry>, ghost r: Run)
      returns (table': map<string, Entry>, ghost added: seq<Action>)
      requires slots == r.slots && table == r.table
      modifies this
      ensures var after := TagsRun(env, ComponentsRun(env, eventMethods, form.fields, r, form.components), form.fields);
              slots == after.slots && table' == after.table
                && OnlyInvocations(env, added) && r.attempts + CallsIn(added) == after.attempts
      ensures log == old(log) + added
    {
      ghost var tags: seq<Action>;
      table', added := BindComponents(eventMethods, form.fields, form.components, table, r);
      ghost var c := ComponentsRun(env, eventMethods, form.fields, r, form.components);
      tags := ApplyTagOverrides(form.fields, table', c);
      LogConcat(env, added, tags);
      AppendTwice(old(log), added, tags);
      added := added + tags;
    }

    /** The binding steps of `associatedEvents`, in their fixed order: Form,
        then (when enabled) the owned components and the tag overrides, then
        the Application singleton. */
    method BindingPass(form: Form, subComponentEvent: bool, eventMethods: set<Handler>)
      returns (ghost seg: seq<Action>)
      requires eventMethods == EventNames(form.methods)
      modifies this
      ensures var after := AssociateRun(env, form, subComponentEvent, old(slots));
              slots == after.slots && OnlyInvocations(env, seg) && CallsIn(seg) == after.attempts
      ensures log == old(log) + seg
    {
      ghost var slots0 := slots;
      ghost var added: seq<Action>;
      var tempEventTypes: map<string, Entry> := map[];

      tempEventTypes, seg := SetEvent(eventMethods, form.fields, tempEventTypes, form.self, FormLabel, FormField);
      ghost var r := FormRun(env, form, slots0);
      assert slots == r.slots && tempEventTypes == r.table && CallsIn(seg) == r.attempts;

      if subComponentEvent {
        tempEventTypes, added := BindSubComponents(form, eventMethods, tempEventTypes, r);
        LogConcat(env, seg, added);
        AppendTwice(old(log), seg, added);
        seg := seg + added;
        r := TagsRun(env, ComponentsRun(env, eventMethods, form.fields, r, form.components), form.fields);
      }
      assert r == MiddleRun(env, form, subComponentEvent, slots0);
      assert slots == r.slots && tempEventTypes == r.table && CallsIn(seg) == r.attempts && OnlyInvocations(env, seg);
      ghost var last := SetEventRun(env, eventMethods, form.fields, r, ApplicationObject, ApplicationLabel, "");
      assert last == AssociateRun(env, form, subComponentEvent, slots0);

      added := BindApplication(eventMethods, form.fields, tempEventTypes, r);
      LogConcat(env, seg, added);
      AppendTwice(old(log), seg, added);
      seg := seg + added;
      assert CallsIn(seg) == last.attempts;
    }

    /** `associatedEvents`: collect the handlers, run the binding steps, and
        last call the create hook, which runs exactly when the form has one. */
    method AssociatedEvents(form: Form, subComponentEvent: bool)
      modifies this
      ensures slots == AssociateRun(env, form, subComponentEvent, old(slots)).slots
      ensures |log| >= |old(log)| && log[..|old(log)|] == old(log)
      ensures CreateHookName in form.methods ==>
                |log| > |old(log)| && log[|log| - 1] == CreateHook(CreateHookName, form.self.target)
      ensures var bindings := if CreateHookName in form.methods then log[|old(log)|..|log| - 1] else log[|old(log)|..];
              OnlyInvocations(env, bindings)
                && CallsIn(bindings) == AssociateRun(env, form, subComponentEvent, old(slots)).attempts
    {
      var formCreate, eventMethods := CollectEvents(form.methods);
      ghost var seg := BindingPass(form, subComponentEvent, eventMethods);
      CallEvent(formCreate, form.self.target);
      if formCreate.Some? {
        assert log == old(log) + seg + [CreateHook(CreateHookName, form.self.target)];
        assert log[|old(log)|..|log| - 1] == seg;
      } else {
        assert log[|old(log)|..] == seg;
      }
    }
  }
}

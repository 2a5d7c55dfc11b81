/**
 * What the binding pass of module Model guarantees, for every form, every
 * set of exposed setters and every set of panicking setter calls.
 */
module Properties {
  import opened Names
  import opened Model

  // ---------------------------------------------------------------------
  // One `setEvent` call

  /** An event type is produced by a prefix exactly when prefix + type is a
      collected handler. */
  lemma {:induction false} EventTypesIff(events: set<Handler>, prefix: string, et: string)
    ensures et in EventTypes(events, prefix) <==> prefix + et in events
  {
    ConcatHasPrefixAndSuffix(prefix, et);
    if et in EventTypes(events, prefix) {
      var m :| m in events && HasPrefix(m, prefix) && Suffix(m, prefix) == et;
    }
  }

  /** The calls and the slot writes of one step, element by element. */
  lemma {:induction false} StepIff(env: Env, events: set<Handler>, prefix: string, dest: Option<Target>,
                                   t: Target, et: string, h: Handler)
    ensures Call(Slot(t, et), h) in Attempts(env, events, prefix, dest) <==>
              dest == Some(t) && h == prefix + et && h in events && Exposes(env, t, et)
    ensures Slot(t, et) in Installs(env, events, prefix, dest) <==>
              dest == Some(t) && prefix + et in events && Exposes(env, t, et)
              && Call(Slot(t, et), prefix + et) !in env.faulty
    ensures Slot(t, et) in Installs(env, events, prefix, dest) ==>
              Installs(env, events, prefix, dest)[Slot(t, et)] == prefix + et
  {
    EventTypesIff(events, prefix, et);
  }

  /**
   * `setEvent(c, name1, name2)` in full. With prefix "On" + label and the
   * destination (the singleton for the Application, else the object of the
   * field named name2):
   *  - the slot for (t, et) gets prefix + et exactly when prefix + et is a
   *    collected handler, the destination is t, t has `SetOn<et>` and that
   *    call does not panic; every other slot keeps its handler;
   *  - the setter call (t, et, h) is made exactly when h is such a handler;
   *  - the table row of every handler the prefix matches is overwritten with
   *    the event type that follows the prefix; other rows are kept.
   */
  lemma {:induction false} SetEventIff(env: Env, events: set<Handler>, fields: seq<Field>, r: Run,
                                       c: Component, name1: string, name2: string,
                                       t: Target, et: string, h: Handler, m: Handler)
    ensures var after := SetEventRun(env, events, fields, r, c, name1, name2);
            var prefix := MethodPrefix + Label(c, name1);
            var dest := Dest(fields, c, FieldName(c, name1, name2));
            var s := Slot(t, et);
            var binds := dest == Some(t) && prefix + et in events && Exposes(env, t, et)
                         && Call(s, prefix + et) !in env.faulty;
            && (binds ==> s in after.slots && after.slots[s] == prefix + et)
            && (!binds ==> (s in after.slots <==> s in r.slots) && (s in r.slots ==> after.slots[s] == r.slots[s]))
            && (Call(s, h) in after.attempts <==>
                  Call(s, h) in r.attempts || (dest == Some(t) && h == prefix + et && h in events && Exposes(env, t, et)))
            && (m in events && HasPrefix(m, prefix) ==> m in after.table && after.table[m] == Entry(Suffix(m, prefix), m))
            && (!(m in events && HasPrefix(m, prefix)) ==> (m in after.table <==> m in r.table)
                                                           && (m in r.table ==> after.table[m] == r.table[m]))
  {
    var prefix := MethodPrefix + Label(c, name1);
    var dest := Dest(fields, c, FieldName(c, name1, name2));
    StepIff(env, events, prefix, dest, t, et, h);
    StepIff(env, events, prefix, dest, t, et, prefix + et);
  }

  /** A component binding (as opposed to the Application's) lands only on
      the object of a field of the form whose name is the component's name. */
  lemma {:induction false} ComponentBindingNeedsField(env: Env, events: set<Handler>, fields: seq<Field>, r: Run,
                                                      c: Component, call: Call)
    requires c.target != Application
    requires call in SetEventRun(env, events, fields, r, c, "", "").attempts && call !in r.attempts
    ensures exists i :: 0 <= i < |fields| && fields[i].name == c.name && fields[i].target == call.slot.target
    ensures call.handler == MethodPrefix + c.name + call.slot.eventType
    ensures Exposes(env, call.slot.target, call.slot.eventType)
  {
    var dest := Dest(fields, c, FieldName(c, "", ""));
    StepIff(env, events, MethodPrefix + c.name, dest, call.slot.target, call.slot.eventType, call.handler);
  }

  // ---------------------------------------------------------------------
  // Soundness of the whole pass

  /**
   * What holds of a run at every point: each table row is a collected
   * handler ending with its recorded event type; each setter call used a
   * collected handler ending with the event type of the setter, on an object
   * exposing that setter; each slot either kept its initial handler or was
   * written by a setter call that did not panic.
   */
  ghost predicate Sound(env: Env, events: set<Handler>, slots0: map<Slot, Handler>, r: Run) {
    && (forall m | m in r.table :: r.table[m].handler == m && m in events && HasSuffix(m, r.table[m].eventType))
    && (forall c | c in r.attempts ::
          c.handler in events && HasSuffix(c.handler, c.slot.eventType) && Exposes(env, c.slot.target, c.slot.eventType))
    && slots0.Keys <= r.slots.Keys
    && (forall s | s in r.slots ::
          (s in slots0 && r.slots[s] == slots0[s]) || (Call(s, r.slots[s]) in r.attempts && Call(s, r.slots[s]) !in env.faulty))
  }

  /** Every setter call of one step uses a collected handler that ends with
      the setter's event type, on an object exposing that setter. */
  lemma AttemptsSound(env: Env, events: set<Handler>, prefix: string, dest: Option<Target>)
    ensures forall call | call in Attempts(env, events, prefix, dest) ::
              call.handler in events && HasSuffix(call.handler, call.slot.eventType)
              && Exposes(env, call.slot.target, call.slot.eventType)
  {
    forall call | call in Attempts(env, events, prefix, dest)
      ensures call.handler in events && HasSuffix(call.handler, call.slot.eventType)
              && Exposes(env, call.slot.target, call.slot.eventType)
    {
      StepIff(env, events, prefix, dest, call.slot.target, call.slot.eventType, call.handler);
      ConcatHasPrefixAndSuffix(prefix, call.slot.eventType);
    }
  }

  /** Every slot one step fills was filled by one of its setter calls that did
      not panic. */
  lemma InstallsSound(env: Env, events: set<Handler>, prefix: string, dest: Option<Target>)
    ensures forall s | s in Installs(env, events, prefix, dest) ::
              Call(s, Installs(env, events, prefix, dest)[s]) in Attempts(env, events, prefix, dest)
              && Call(s, Installs(env, events, prefix, dest)[s]) !in env.faulty
  {
    forall s | s in Installs(env, events, prefix, dest)
      ensures Call(s, Installs(env, events, prefix, dest)[s]) in Attempts(env, events, prefix, dest)
              && Call(s, Installs(env, events, prefix, dest)[s]) !in env.faulty
    {
      StepIff(env, events, prefix, dest, s.target, s.eventType, prefix + s.eventType);
    }
  }

  lemma {:induction false} SetEventRunSound(env: Env, events: set<Handler>, slots0: map<Slot, Handler>, fields: seq<Field>,
                                            r: Run, c: Component, name1: string, name2: string)
    requires Sound(env, events, slots0, r)
    ensures Sound(env, events, slots0, SetEventRun(env, events, fields, r, c, name1, name2))
  {
    var prefix := MethodPrefix + Label(c, name1);
    var dest := Dest(fields, c, FieldName(c, name1, name2));
    AttemptsSound(env, events, prefix, dest);
    InstallsSound(env, events, prefix, dest);
    var installs := Installs(env, events, prefix, dest);
    var attempts := Attempts(env, events, prefix, dest);
    var after := SetEventRun(env, events, fields, r, c, name1, name2);
    assert after == Run(r.slots + installs, r.table + TableEntries(events, prefix), r.attempts + attempts);
  }

  lemma {:induction false} ComponentsRunSound(env: Env, events: set<Handler>, slots0: map<Slot, Handler>, fields: seq<Field>,
                                              r: Run, comps: seq<Component>)
    requires Sound(env, events, slots0, r)
    ensures Sound(env, events, slots0, ComponentsRun(env, events, fields, r, comps))
    decreases |comps|
  {
    if comps != [] {
      var last := |comps| - 1;
      ComponentsRunSound(env, events, slots0, fields, r, comps[..last]);
      SetEventRunSound(env, events, slots0, fields, ComponentsRun(env, events, fields, r, comps[..last]), comps[last], "", "");
    }
  }

  lemma {:induction false} TagsRunSound(env: Env, events: set<Handler>, slots0: map<Slot, Handler>, r: Run, fields: seq<Field>)
    requires Sound(env, events, slots0, r)
    ensures Sound(env, events, slots0, TagsRun(env, r, fields))
    decreases |fields|
  {
    if fields != [] {
      var last := |fields| - 1;
      TagsRunSound(env, events, slots0, r, fields[..last]);
    }
  }

  /** The pass is sound from any initial slots. */
  lemma {:induction false} AssociateRunSound(env: Env, form: Form, subComponentEvent: bool, slots0: map<Slot, Handler>)
    ensures Sound(env, EventNames(form.methods), slots0, AssociateRun(env, form, subComponentEvent, slots0))
  {
    var events := EventNames(form.methods);
    var r0 := Run(slots0, map[], {});
    SetEventRunSound(env, events, slots0, form.fields, r0, form.self, FormLabel, FormField);
    var formRun := FormRun(env, form, slots0);
    if subComponentEvent {
      ComponentsRunSound(env, events, slots0, form.fields, formRun, form.components);
      TagsRunSound(env, events, slots0, ComponentsRun(env, events, form.fields, formRun, form.components), form.fields);
    }
    SetEventRunSound(env, events, slots0, form.fields, MiddleRun(env, form, subComponentEvent, slots0),
                     ApplicationObject, ApplicationLabel, "");
  }

  /** The create hook is never a bound handler: no table row, no setter
      call, and no slot that did not already hold it before the pass. Every
      handler passed to a setter starts with "On". */
  lemma CreateHookNeverBound(env: Env, form: Form, subComponentEvent: bool, slots0: map<Slot, Handler>)
    ensures var run := AssociateRun(env, form, subComponentEvent, slots0);
            && CreateHookName !in run.table
            && (forall c | c in run.attempts :: c.handler != CreateHookName && HasPrefix(c.handler, MethodPrefix))
            && (forall s | s in run.slots && run.slots[s] == CreateHookName :: s in slots0 && slots0[s] == CreateHookName)
  {
    AssociateRunSound(env, form, subComponentEvent, slots0);
  }

  // ---------------------------------------------------------------------
  // The tag step

  /** The setter a tagged field receives: its tag names a handler already in
      the table, and the field's object has the setter for the recorded type. */
  function TagSlot(env: Env, table: map<string, Entry>, f: Field): Option<Slot> {
    if f.tag != "" && f.tag in table && Exposes(env, f.target, table[f.tag].eventType)
    then Some(Slot(f.target, table[f.tag].eventType))
    else None
  }

  /** The setter calls of the tag step, as a set over the fields. */
  function TagCalls(env: Env, table: map<string, Entry>, fields: seq<Field>): set<Call> {
    set i | 0 <= i < |fields| && TagSlot(env, table, fields[i]).Some?
      :: Call(TagSlot(env, table, fields[i]).value, table[fields[i].tag].handler)
  }

  /** The tag step leaves the table alone and makes exactly the calls of
      the tagged fields whose tag is in the table: untagged fields and tags
      naming no matched handler are skipped. */
  lemma {:induction false} TagsRunAttempts(env: Env, r: Run, fields: seq<Field>)
    ensures TagsRun(env, r, fields).table == r.table
    ensures TagsRun(env, r, fields).attempts == r.attempts + TagCalls(env, r.table, fields)
    decreases |fields|
  {
    if fields != [] {
      var last := |fields| - 1;
      TagsRunAttempts(env, r, fields[..last]);
      var before := TagCalls(env, r.table, fields[..last]);
      var now := TagCalls(env, r.table, fields);
      var extra := if TagSlot(env, r.table, fields[last]).Some?
                   then {Call(TagSlot(env, r.table, fields[last]).value, r.table[fields[last].tag].handler)} else {};
      assert forall i :: 0 <= i < last ==> fields[..last][i] == fields[i];
      assert now == before + extra;
    }
  }

  /** A field tagged `event:"X"`, X in the table, ends with X's handler in its
      setter for X's recorded event type, unless a later field's override
      targets the same slot (later writes win) or the call panics. */
  lemma {:induction false} TagOverrideBinds(env: Env, r: Run, fields: seq<Field>, i: nat)
    requires i < |fields| && TagSlot(env, r.table, fields[i]).Some?
    requires Call(TagSlot(env, r.table, fields[i]).value, r.table[fields[i].tag].handler) !in env.faulty
    requires forall j | i < j < |fields| :: TagSlot(env, r.table, fields[j]) != TagSlot(env, r.table, fields[i])
    ensures var s := TagSlot(env, r.table, fields[i]).value;
            s in TagsRun(env, r, fields).slots && TagsRun(env, r, fields).slots[s] == r.table[fields[i].tag].handler
    decreases |fields|
  {
    var last := |fields| - 1;
    TagsRunAttempts(env, r, fields[..last]);
    if i < last {
      assert forall j :: 0 <= j < last ==> fields[..last][j] == fields[j];
      TagOverrideBinds(env, r, fields[..last], i);
    }
  }

  /** Handlers the prefix of some owned component matches. */
  function ComponentMatched(events: set<Handler>, comps: seq<Component>): set<Handler> {
    set m | m in events && exists c :: c in comps && HasPrefix(m, MethodPrefix + c.name)
  }

  lemma {:induction false} ComponentsRunTable(env: Env, events: set<Handler>, fields: seq<Field>, r: Run, comps: seq<Component>)
    ensures ComponentsRun(env, events, fields, r, comps).table.Keys == r.table.Keys + ComponentMatched(events, comps)
    decreases |comps|
  {
    if comps != [] {
      var last := |comps| - 1;
      var before := ComponentsRun(env, events, fields, r, comps[..last]);
      ComponentsRunTable(env, events, fields, r, comps[..last]);
      assert TableEntries(events, MethodPrefix + comps[last].name).Keys == Matched(events, MethodPrefix + comps[last].name);
      assert ComponentsRun(env, events, fields, r, comps).table.Keys
             == before.table.Keys + Matched(events, MethodPrefix + comps[last].name);
      assert comps == comps[..last] + [comps[last]];
      assert ComponentMatched(events, comps)
             == ComponentMatched(events, comps[..last]) + Matched(events, MethodPrefix + comps[last].name);
    }
  }

  /** The table the tag step reads holds exactly the handlers matched by the
      Form prefix or by a component's prefix: the Application step has not
      run yet, so its matches can never serve a tag override. */
  lemma TagTableHoldsEarlierMatches(env: Env, form: Form, slots0: map<Slot, Handler>)
    ensures var events := EventNames(form.methods);
            ComponentsRun(env, events, form.fields, FormRun(env, form, slots0), form.components).table.Keys
            == Matched(events, MethodPrefix + FormLabel) + ComponentMatched(events, form.components)
  {
    var events := EventNames(form.methods);
    ComponentsRunTable(env, events, form.fields, FormRun(env, form, slots0), form.components);
  }

  // ---------------------------------------------------------------------
  // The switch, the Application singleton, failures

  /** With component binding disabled, only the Form and the Application
      steps run: every setter call is on the object of the form's "TForm"
      field or on the singleton, with a handler named "OnForm…" or
      "OnApplication…", and both steps still make all of their calls. */
  lemma NoComponentStepWhenDisabled(env: Env, form: Form, slots0: map<Slot, Handler>)
    requires form.self.target != Application
    ensures var run := AssociateRun(env, form, false, slots0);
            var events := EventNames(form.methods);
            && (forall c | c in run.attempts ::
                  (Some(c.slot.target) == FieldByName(form.fields, FormField)
                     && HasPrefix(c.handler, MethodPrefix + FormLabel))
                  || (c.slot.target == Application && HasPrefix(c.handler, MethodPrefix + ApplicationLabel)))
            && Attempts(env, events, MethodPrefix + FormLabel, FieldByName(form.fields, FormField)) <= run.attempts
            && Attempts(env, events, MethodPrefix + ApplicationLabel, Some(Application)) <= run.attempts
  {
    var events := EventNames(form.methods);
    var run := AssociateRun(env, form, false, slots0);
    forall c | c in run.attempts
      ensures (Some(c.slot.target) == FieldByName(form.fields, FormField) && HasPrefix(c.handler, MethodPrefix + FormLabel))
              || (c.slot.target == Application && HasPrefix(c.handler, MethodPrefix + ApplicationLabel))
    {
      var t, et := c.slot.target, c.slot.eventType;
      StepIff(env, events, MethodPrefix + FormLabel, FieldByName(form.fields, FormField), t, et, c.handler);
      StepIff(env, events, MethodPrefix + ApplicationLabel, Some(Application), t, et, c.handler);
      ConcatHasPrefixAndSuffix(MethodPrefix + FormLabel, et);
      ConcatHasPrefixAndSuffix(MethodPrefix + ApplicationLabel, et);
    }
  }

  /** "OnApplication<T>" ends in the singleton's `SetOn<T>` slot whatever the
      slot held before, e.g. a handler bound by an earlier form: the last
      binding wins. Every call the Application step adds to the pass goes to
      the singleton, with an "OnApplication" handler. */
  lemma ApplicationLastWriteWins(env: Env, form: Form, subComponentEvent: bool, slots0: map<Slot, Handler>, et: string)
    requires MethodPrefix + ApplicationLabel + et in EventNames(form.methods)
    requires Exposes(env, Application, et)
    requires Call(Slot(Application, et), MethodPrefix + ApplicationLabel + et) !in env.faulty
    ensures var run := AssociateRun(env, form, subComponentEvent, slots0);
            Slot(Application, et) in run.slots && run.slots[Slot(Application, et)] == MethodPrefix + ApplicationLabel + et
    ensures var run := AssociateRun(env, form, subComponentEvent, slots0);
            var middle := MiddleRun(env, form, subComponentEvent, slots0);
            forall c | c in run.attempts && c !in middle.attempts ::
              c.slot.target == Application && HasPrefix(c.handler, MethodPrefix + ApplicationLabel)
  {
    var events := EventNames(form.methods);
    var prefix := MethodPrefix + ApplicationLabel;
    StepIff(env, events, prefix, Some(Application), Application, et, prefix + et);
    var run := AssociateRun(env, form, subComponentEvent, slots0);
    var middle := MiddleRun(env, form, subComponentEvent, slots0);
    forall c | c in run.attempts && c !in middle.attempts
      ensures c.slot.target == Application && HasPrefix(c.handler, prefix)
    {
      StepIff(env, events, prefix, Some(Application), c.slot.target, c.slot.eventType, c.handler);
      ConcatHasPrefixAndSuffix(prefix, c.slot.eventType);
    }
  }

  /** `a` and `b` agree on every slot but `k`. */
  ghost predicate AgreeExcept(a: map<Slot, Handler>, b: map<Slot, Handler>, k: Slot) {
    forall s | s != k :: (s in a <==> s in b) && (s in a ==> a[s] == b[s])
  }

  /** The same run, but with one more setter call panicking. */
  ghost predicate FaultVariant(r: Run, r': Run, k: Slot) {
    r.table == r'.table && r.attempts == r'.attempts && AgreeExcept(r.slots, r'.slots, k)
  }

  lemma {:induction false} SetEventRunFault(env: Env, c: Call, events: set<Handler>, fields: seq<Field>,
                                            r: Run, r': Run, comp: Component, name1: string, name2: string)
    requires FaultVariant(r, r', c.slot)
    ensures var env' := Env(env.methods, env.faulty + {c});
            FaultVariant(SetEventRun(env, events, fields, r, comp, name1, name2),
                         SetEventRun(env', events, fields, r', comp, name1, name2), c.slot)
  {
    var env' := Env(env.methods, env.faulty + {c});
    var prefix := MethodPrefix + Label(comp, name1);
    var dest := Dest(fields, comp, FieldName(comp, name1, name2));
    assert Attempts(env, events, prefix, dest) == Attempts(env', events, prefix, dest);
    var a, a' := Installs(env, events, prefix, dest), Installs(env', events, prefix, dest);
    forall s | s != c.slot ensures (s in a <==> s in a') && (s in a ==> a[s] == a'[s]) {
      StepIff(env, events, prefix, dest, s.target, s.eventType, prefix + s.eventType);
      StepIff(env', events, prefix, dest, s.target, s.eventType, prefix + s.eventType);
    }
  }

  lemma {:induction false} ComponentsRunFault(env: Env, c: Call, events: set<Handler>, fields: seq<Field>,
                                              r: Run, r': Run, comps: seq<Component>)
    requires FaultVariant(r, r', c.slot)
    ensures FaultVariant(ComponentsRun(env, events, fields, r, comps),
                         ComponentsRun(Env(env.methods, env.faulty + {c}), events, fields, r', comps), c.slot)
    decreases |comps|
  {
    if comps != [] {
      var last := |comps| - 1;
      var env' := Env(env.methods, env.faulty + {c});
      ComponentsRunFault(env, c, events, fields, r, r', comps[..last]);
      SetEventRunFault(env, c, events, fields, ComponentsRun(env, events, fields, r, comps[..last]),
                       ComponentsRun(env', events, fields, r', comps[..last]), comps[last], "", "");
    }
  }

  lemma {:induction false} TagsRunFault(env: Env, c: Call, r: Run, r': Run, fields: seq<Field>)
    requires FaultVariant(r, r', c.slot)
    ensures FaultVariant(TagsRun(env, r, fields), TagsRun(Env(env.methods, env.faulty + {c}), r', fields), c.slot)
    decreases |fields|
  {
    if fields != [] {
      var last := |fields| - 1;
      TagsRunFault(env, c, r, r', fields[..last]);
    }
  }

  /** A panic inside one setter call is contained: making call `c` panic
      changes no other slot, no table row and no later call — every other
      binding of the pass still happens. */
  lemma FaultContained(env: Env, form: Form, subComponentEvent: bool, slots0: map<Slot, Handler>, c: Call)
    ensures var env' := Env(env.methods, env.faulty + {c});
            FaultVariant(AssociateRun(env, form, subComponentEvent, slots0),
                         AssociateRun(env', form, subComponentEvent, slots0), c.slot)
  {
    var env' := Env(env.methods, env.faulty + {c});
    var events := EventNames(form.methods);
    var r0 := Run(slots0, map[], {});
    SetEventRunFault(env, c, events, form.fields, r0, r0, form.self, FormLabel, FormField);
    var f, f' := FormRun(env, form, slots0), FormRun(env', form, slots0);
    if subComponentEvent {
      ComponentsRunFault(env, c, events, form.fields, f, f', form.components);
      TagsRunFault(env, c, ComponentsRun(env, events, form.fields, f, form.components),
                   ComponentsRun(env', events, form.fields, f', form.components), form.fields);
    }
    SetEventRunFault(env, c, events, form.fields, MiddleRun(env, form, subComponentEvent, slots0),
                     MiddleRun(env', form, subComponentEvent, slots0), ApplicationObject, ApplicationLabel, "");
  }
}

/**
 * What the binding pass yields for two concrete forms.
 */
module Scenarios {
  import opened Names
  import opened Model
  import opened Properties

  const MainForm := Obj(0)
  const Button1 := Obj(1)
  const Button2 := Obj(2)

  /** Two buttons with `SetOnClick`; the form itself has `SetOnShow`. */
  const ButtonEnv := Env(map[MainForm := {"SetOnShow"}, Button1 := {"SetOnClick"}, Button2 := {"SetOnClick"}], {})

  /** Button2 shares Button1's click handler through its field tag. */
  const SharedForm := Form(
    Component("MainForm", MainForm),
    ["OnButton1Click", "OnFormCreate", "OnFormShow"],
    [Field("TForm", "", MainForm), Field("Button1", "", Button1), Field("Button2", "OnButton1Click", Button2)],
    [Component("Button1", Button1), Component("Button2", Button2)])

  /** A name that differs from a prefix at some position does not start with it. */
  lemma NotPrefix(s: string, prefix: string, k: nat)
    requires k < |prefix| <= |s| && s[k] != prefix[k]
    ensures !HasPrefix(s, prefix)
  {
    assert s[..|prefix|][k] == s[k];
  }

  /** Matching the handler names against the prefixes of the scenarios. */
  lemma {:induction false} ButtonNames()
    ensures HasPrefix("OnButton1Click", "OnButton1") && Suffix("OnButton1Click", "OnButton1") == "Click"
    ensures HasPrefix("OnButton1Click", "OnButton") && Suffix("OnButton1Click", "OnButton") == "1Click"
    ensures !HasPrefix("OnButton1Click", "OnButton2") && !HasPrefix("OnButton1Click", "OnForm")
    ensures !HasPrefix("OnButton1Click", "OnApplication")
    ensures HasPrefix("OnFormShow", "OnForm") && Suffix("OnFormShow", "OnForm") == "Show"
    ensures !HasPrefix("OnFormShow", "OnButton1") && !HasPrefix("OnFormShow", "OnButton2")
    ensures !HasPrefix("OnFormShow", "OnButton") && !HasPrefix("OnFormShow", "OnApplication")
  {
    ConcatHasPrefixAndSuffix("OnButton1", "Click");
    ConcatHasPrefixAndSuffix("OnButton", "1Click");
    ConcatHasPrefixAndSuffix("OnForm", "Show");
    NotPrefix("OnButton1Click", "OnButton2", 8);
    NotPrefix("OnButton1Click", "OnForm", 2);
    NotPrefix("OnButton1Click", "OnApplication", 2);
    NotPrefix("OnFormShow", "OnButton1", 2);
    NotPrefix("OnFormShow", "OnButton2", 2);
    NotPrefix("OnFormShow", "OnButton", 2);
  }

  /** The handlers of the shared-handler form that enter the table. */
  const SharedEvents: set<Handler> := {"OnButton1Click", "OnFormShow"}

  lemma {:induction false} SharedFormEvents()
    ensures EventNames(SharedForm.methods) == SharedEvents
  {
    ConcatHasPrefixAndSuffix("On", "Button1Click");
    ConcatHasPrefixAndSuffix("On", "FormShow");
  }

  /** The field found by name is the first one carrying that name. */
  lemma FieldAt(fields: seq<Field>, i: nat, name: string)
    requires i < |fields| && fields[i].name == name
    requires forall j :: 0 <= j < i ==> fields[j].name != name
    ensures FieldByName(fields, name) == Some(fields[i].target)
  {
    var k :| 0 <= k < |fields| && fields[k].name == name && fields[k].target == FieldByName(fields, name).value
             && forall j :: 0 <= j < k ==> fields[j].name != name;
    assert k == i;
  }

  /** Tag overrides over fields appended one at a time. */
  lemma TagsRunSnoc(env: Env, r: Run, fields: seq<Field>, f: Field)
    ensures TagsRun(env, r, fields + [f]) == TagRun(env, TagsRun(env, r, fields), f)
  {
    assert (fields + [f])[..|fields|] == fields;
  }

  /** Component bindings over components appended one at a time. */
  lemma ComponentsRunSnoc(env: Env, events: set<Handler>, fields: seq<Field>, r: Run, comps: seq<Component>,
                          c: Component)
    ensures ComponentsRun(env, events, fields, r, comps + [c])
            == SetEventRun(env, events, fields, ComponentsRun(env, events, fields, r, comps), c, "", "")
  {
    assert (comps + [c])[..|comps|] == comps;
  }

  /** Fields without a tag override nothing. */
  lemma {:induction false} TagsRunUntagged(env: Env, r: Run, fields: seq<Field>)
    requires forall i :: 0 <= i < |fields| ==> fields[i].tag == ""
    ensures TagsRun(env, r, fields) == r
    decreases |fields|
  {
    if fields != [] {
      TagsRunUntagged(env, r, fields[..|fields| - 1]);
    }
  }

  /** When only the last field carries a tag, only its override applies. */
  lemma TagsRunOnlyLast(env: Env, r: Run, fields: seq<Field>)
    requires fields != []
    requires forall i :: 0 <= i < |fields| - 1 ==> fields[i].tag == ""
    ensures TagsRun(env, r, fields) == TagRun(env, r, fields[|fields| - 1])
  {
    TagsRunUntagged(env, r, fields[..|fields| - 1]);
  }

  /** When only the last field carries a tag, and the table holds that tag
      with a setter on the field's object, the object's slot takes the handler. */
  lemma TagBindsLast(env: Env, r: Run, fields: seq<Field>, et: string, h: Handler)
    requires fields != []
    requires forall i :: 0 <= i < |fields| - 1 ==> fields[i].tag == ""
    requires fields[|fields| - 1].tag in r.table && r.table[fields[|fields| - 1].tag] == Entry(et, h)
    requires fields[|fields| - 1].tag != ""
    requires Exposes(env, fields[|fields| - 1].target, et) && Call(Slot(fields[|fields| - 1].target, et), h) !in env.faulty
    ensures TagsRun(env, r, fields).slots == r.slots[Slot(fields[|fields| - 1].target, et) := h]
  {
    TagsRunOnlyLast(env, r, fields);
  }

  /** When only the last field carries a tag, and the table holds that tag
      but the field's object has no setter for its event type, nothing changes. */
  lemma TagMissesLast(env: Env, r: Run, fields: seq<Field>)
    requires fields != []
    requires forall i :: 0 <= i < |fields| - 1 ==> fields[i].tag == ""
    requires fields[|fields| - 1].tag in r.table
    requires !Exposes(env, fields[|fields| - 1].target, r.table[fields[|fields| - 1].tag].eventType)
    ensures TagsRun(env, r, fields).slots == r.slots
  {
    TagsRunOnlyLast(env, r, fields);
  }

  /** Component bindings over two components. */
  lemma ComponentsRunTwo(env: Env, events: set<Handler>, fields: seq<Field>, r: Run, comps: seq<Component>)
    requires |comps| == 2
    ensures ComponentsRun(env, events, fields, r, comps)
            == SetEventRun(env, events, fields, SetEventRun(env, events, fields, r, comps[0], "", ""), comps[1], "", "")
  {
    ComponentsRunSnoc(env, events, fields, r, [], comps[0]);
    ComponentsRunSnoc(env, events, fields, r, [comps[0]], comps[1]);
    assert [comps[0]] == [] + [comps[0]] && comps == [comps[0]] + [comps[1]];
  }

  /** When no field carries a tag the table holds, the tag step changes nothing. */
  lemma TagsRunMissing(env: Env, r: Run, fields: seq<Field>)
    requires forall i :: 0 <= i < |fields| ==> fields[i].tag == "" || fields[i].tag !in r.table
    ensures TagsRun(env, r, fields) == r
    decreases |fields|
  {
    if fields != [] {
      TagsRunMissing(env, r, fields[..|fields| - 1]);
    }
  }

  /** A prefix that yields one event type writes one table row, keyed by
      the one handler it matched. */
  lemma TableEntriesOne(events: set<Handler>, prefix: string, et: string)
    requires EventTypes(events, prefix) == {et}
    ensures TableEntries(events, prefix) == map[prefix + et := Entry(et, prefix + et)]
  {
    var m :| m in events && HasPrefix(m, prefix) && Suffix(m, prefix) == et;
    assert m == prefix + et;
    forall n | n in events && HasPrefix(n, prefix)
      ensures n == prefix + et
    {
      assert Suffix(n, prefix) in EventTypes(events, prefix);
    }
  }

  /** A prefix that yields no event type writes no table row. */
  lemma TableEntriesNone(events: set<Handler>, prefix: string)
    requires EventTypes(events, prefix) == {}
    ensures TableEntries(events, prefix) == map[]
  {
    assert forall n :: n in events && HasPrefix(n, prefix) ==> Suffix(n, prefix) in EventTypes(events, prefix);
  }

  /** A prefix that yields one event type fills one slot of the destination. */
  lemma InstallsOne(env: Env, events: set<Handler>, prefix: string, t: Target, et: string)
    requires EventTypes(events, prefix) == {et} && Exposes(env, t, et)
    requires Call(Slot(t, et), prefix + et) !in env.faulty
    ensures Installs(env, events, prefix, Some(t)) == map[Slot(t, et) := prefix + et]
  {
    var filled := set e | e in EventTypes(events, prefix) && Exposes(env, t, e) && Call(Slot(t, e), prefix + e) !in env.faulty
                    :: Slot(t, e);
    assert filled == {Slot(t, et)};
  }

  /** One `setEvent` call whose prefix matches exactly one handler, with a
      setter on the destination, fills one slot. */
  lemma SetEventOne(env: Env, events: set<Handler>, fields: seq<Field>, r: Run, c: Component, name1: string,
                    name2: string, prefix: string, t: Target, et: string)
    requires prefix == MethodPrefix + Label(c, name1)
    requires Dest(fields, c, FieldName(c, name1, name2)) == Some(t)
    requires EventTypes(events, prefix) == {et} && Exposes(env, t, et)
    requires Call(Slot(t, et), prefix + et) !in env.faulty
    ensures SetEventRun(env, events, fields, r, c, name1, name2).slots == r.slots[Slot(t, et) := prefix + et]
  {
    var installs := Installs(env, events, prefix, Some(t));
    InstallsOne(env, events, prefix, t, et);
    assert r.slots + installs == r.slots[Slot(t, et) := prefix + et];
  }

  /** One `setEvent` call whose prefix matches exactly one handler writes one table row. */
  lemma SetEventOneRow(env: Env, events: set<Handler>, fields: seq<Field>, r: Run, c: Component, name1: string,
                       name2: string, prefix: string, et: string)
    requires prefix == MethodPrefix + Label(c, name1)
    requires EventTypes(events, prefix) == {et}
    ensures SetEventRun(env, events, fields, r, c, name1, name2).table == r.table[prefix + et := Entry(et, prefix + et)]
  {
    TableEntriesOne(events, prefix, et);
    assert r.table + TableEntries(events, prefix) == r.table[prefix + et := Entry(et, prefix + et)];
  }

  /** One `setEvent` call whose prefix installs nothing leaves the slots alone. */
  lemma SetEventNone(env: Env, events: set<Handler>, fields: seq<Field>, r: Run, c: Component, name1: string,
                     name2: string, prefix: string)
    requires prefix == MethodPrefix + Label(c, name1)
    requires forall et :: et in EventTypes(events, prefix) ==>
               Dest(fields, c, FieldName(c, name1, name2)).None? ||
               !Exposes(env, Dest(fields, c, FieldName(c, name1, name2)).value, et)
    ensures SetEventRun(env, events, fields, r, c, name1, name2).slots == r.slots
    ensures SetEventRun(env, events, fields, r, c, name1, name2).table == r.table + TableEntries(events, prefix)
  {
    var dest := Dest(fields, c, FieldName(c, name1, name2));
    assert Installs(env, events, prefix, dest) == map[];
  }

  lemma ApplicationPrefix()
    ensures MethodPrefix + Label(ApplicationObject, ApplicationLabel) == "OnApplication"
  {
  }

  /** What the Form step of the shared-handler form matches. */
  lemma SharedFormFacts()
    ensures MethodPrefix + Label(SharedForm.self, FormLabel) == "OnForm"
    ensures EventTypes(SharedEvents, "OnForm") == {"Show"}
    ensures "OnForm" + "Show" == "OnFormShow"
  {
    ButtonNames();
  }

  /** Where the Form step of the shared-handler form installs. */
  lemma SharedFormDest()
    ensures Dest(SharedForm.fields, SharedForm.self, FieldName(SharedForm.self, FormLabel, FormField)) == Some(MainForm)
    ensures Exposes(ButtonEnv, MainForm, "Show")
  {
    FieldAt(SharedForm.fields, 0, FormField);
    assert SetterPrefix + "Show" == "SetOnShow";
  }

  /** What Button1's binding matches. */
  lemma SharedButton1Facts()
    ensures MethodPrefix + Label(SharedForm.components[0], "") == "OnButton1"
    ensures EventTypes(SharedEvents, "OnButton1") == {"Click"}
    ensures "OnButton1" + "Click" == "OnButton1Click"
  {
    ButtonNames();
  }

  /** Where Button1's binding installs. */
  lemma SharedButton1Dest()
    ensures Dest(SharedForm.fields, SharedForm.components[0], FieldName(SharedForm.components[0], "", "")) == Some(Button1)
    ensures Exposes(ButtonEnv, Button1, "Click")
  {
    FieldAt(SharedForm.fields, 1, "Button1");
    assert SetterPrefix + "Click" == "SetOnClick";
  }

  /** What Button2's binding sees: no handler starts with "OnButton2". */
  lemma SharedButton2Facts()
    ensures MethodPrefix + Label(SharedForm.components[1], "") == "OnButton2"
    ensures EventTypes(SharedEvents, "OnButton2") == {}
  {
    ButtonNames();
  }

  lemma SharedApplicationFacts()
    ensures MethodPrefix + Label(ApplicationObject, ApplicationLabel) == "OnApplication"
    ensures EventTypes(SharedEvents, "OnApplication") == {}
  {
    ButtonNames();
  }

  lemma SharedFormStep(env: Env, form: Form)
    requires env == ButtonEnv && form == SharedForm
    ensures var run := FormRun(env, form, map[]);
            run.slots == map[Slot(MainForm, "Show") := "OnFormShow"]
            && run.table == map["OnFormShow" := Entry("Show", "OnFormShow")]
  {
    SharedFormEvents();
    SharedFormFacts();
    SharedFormDest();
    SetEventOne(env, SharedEvents, form.fields, Run(map[], map[], {}), form.self, FormLabel, FormField,
                "OnForm", MainForm, "Show");
    SetEventOneRow(env, SharedEvents, form.fields, Run(map[], map[], {}), form.self, FormLabel, FormField,
                   "OnForm", "Show");
  }

  lemma SharedButton1(env: Env, form: Form, r: Run)
    requires env == ButtonEnv && form == SharedForm
    ensures SetEventRun(env, SharedEvents, form.fields, r, form.components[0], "", "").slots
            == r.slots[Slot(Button1, "Click") := "OnButton1Click"]
    ensures SetEventRun(env, SharedEvents, form.fields, r, form.components[0], "", "").table
            == r.table["OnButton1Click" := Entry("Click", "OnButton1Click")]
  {
    SharedButton1Facts();
    SharedButton1Dest();
    SetEventOne(env, SharedEvents, form.fields, r, form.components[0], "", "", "OnButton1", Button1, "Click");
    SetEventOneRow(env, SharedEvents, form.fields, r, form.components[0], "", "", "OnButton1", "Click");
  }

  lemma SharedButton2(env: Env, form: Form, r: Run)
    requires env == ButtonEnv && form == SharedForm
    ensures var run := SetEventRun(env, SharedEvents, form.fields, r, form.components[1], "", "");
            run.slots == r.slots && run.table == r.table
  {
    SharedButton2Facts();
    SetEventNone(env, SharedEvents, form.fields, r, form.components[1], "", "", "OnButton2");
    TableEntriesNone(SharedEvents, "OnButton2");
  }

  /** Button1 matches its click handler; Button2 matches nothing. */
  lemma SharedComponentBindings(env: Env, form: Form, r: Run)
    requires env == ButtonEnv && form == SharedForm
    requires r.slots == map[Slot(MainForm, "Show") := "OnFormShow"]
    ensures var run := ComponentsRun(env, SharedEvents, form.fields, r, form.components);
            run.slots == map[Slot(MainForm, "Show") := "OnFormShow", Slot(Button1, "Click") := "OnButton1Click"]
            && "OnButton1Click" in run.table && run.table["OnButton1Click"] == Entry("Click", "OnButton1Click")
  {
    ComponentsRunTwo(env, SharedEvents, form.fields, r, form.components);
    SharedButton1(env, form, r);
    SharedButton2(env, form, SetEventRun(env, SharedEvents, form.fields, r, form.components[0], "", ""));
  }

  /** Button2's tag names Button1's handler, so Button2's click slot takes it. */
  lemma SharedTagOverride(env: Env, form: Form, r: Run)
    requires env == ButtonEnv && form == SharedForm
    requires "OnButton1Click" in r.table && r.table["OnButton1Click"] == Entry("Click", "OnButton1Click")
    ensures TagsRun(env, r, form.fields).slots == r.slots[Slot(Button2, "Click") := "OnButton1Click"]
  {
    assert SetterPrefix + "Click" == "SetOnClick";
    assert |form.fields| == 3 && form.fields[0].tag == "" && form.fields[1].tag == "";
    TagBindsLast(env, r, form.fields, "Click", "OnButton1Click");
  }

  lemma SharedMiddle(env: Env, form: Form)
    requires env == ButtonEnv && form == SharedForm
    ensures MiddleRun(env, form, true, map[]).slots
            == map[Slot(MainForm, "Show") := "OnFormShow",
                   Slot(Button1, "Click") := "OnButton1Click",
                   Slot(Button2, "Click") := "OnButton1Click"]
  {
    SharedFormEvents();
    var formRun := FormRun(env, form, map[]);
    SharedFormStep(env, form);
    SharedComponentBindings(env, form, formRun);
    var c2 := ComponentsRun(env, SharedEvents, form.fields, formRun, form.components);
    SharedTagOverride(env, form, c2);
  }

  /**
   * The shared-handler example: Button1's click slot gets "OnButton1Click"
   * by name; Button2's click slot gets the same handler through the tag,
   * with no "OnButton2Click" method; the form's show slot gets "OnFormShow";
   * "OnFormCreate" is bound nowhere.
   */
  lemma SharedHandlerExample()
    ensures var run := AssociateRun(ButtonEnv, SharedForm, true, map[]);
            run.slots == map[Slot(MainForm, "Show") := "OnFormShow",
                             Slot(Button1, "Click") := "OnButton1Click",
                             Slot(Button2, "Click") := "OnButton1Click"]
  {
    SharedFormEvents();
    SharedMiddle(ButtonEnv, SharedForm);
    SharedApplicationFacts();
    var middle := MiddleRun(ButtonEnv, SharedForm, true, map[]);
    SetEventNone(ButtonEnv, SharedEvents, SharedForm.fields, middle, ApplicationObject, ApplicationLabel, "",
                 "OnApplication");
  }

  /** Components "Button1" and then "Button", and a field tagged with
      Button1's handler. */
  const CollidingForm := Form(
    Component("MainForm", MainForm),
    ["OnButton1Click"],
    [Field("TForm", "", MainForm), Field("Button1", "", Button1), Field("Button", "", Obj(3)),
     Field("Button2", "OnButton1Click", Button2)],
    [Component("Button1", Button1), Component("Button", Obj(3))])

  /** The one handler of the colliding form. */
  const CollidingEvents: set<Handler> := {"OnButton1Click"}

  lemma {:induction false} CollidingFormEvents()
    ensures EventNames(CollidingForm.methods) == CollidingEvents
  {
    ConcatHasPrefixAndSuffix("On", "Button1Click");
  }

  /** What the Form step of the colliding form sees: no handler starts with "OnForm". */
  lemma CollidingFormFacts()
    ensures MethodPrefix + Label(CollidingForm.self, FormLabel) == "OnForm"
    ensures EventTypes(CollidingEvents, "OnForm") == {}
  {
    ButtonNames();
  }

  /** What the binding of component "Button1" matches. */
  lemma CollidingButton1Facts()
    ensures MethodPrefix + Label(CollidingForm.components[0], "") == "OnButton1"
    ensures EventTypes(CollidingEvents, "OnButton1") == {"Click"}
    ensures "OnButton1" + "Click" == "OnButton1Click"
  {
    ButtonNames();
  }

  /** Where the binding of component "Button1" installs. */
  lemma CollidingButton1Dest()
    ensures Dest(CollidingForm.fields, CollidingForm.components[0], FieldName(CollidingForm.components[0], "", ""))
            == Some(Button1)
    ensures Exposes(ButtonEnv, Button1, "Click")
  {
    FieldAt(CollidingForm.fields, 1, "Button1");
    assert SetterPrefix + "Click" == "SetOnClick";
  }

  /** What the binding of component "Button" sees: the same handler, read as event type "1Click". */
  lemma CollidingButtonFacts()
    ensures MethodPrefix + Label(CollidingForm.components[1], "") == "OnButton"
    ensures EventTypes(CollidingEvents, "OnButton") == {"1Click"}
    ensures "OnButton" + "1Click" == "OnButton1Click"
  {
    ButtonNames();
  }

  /** Component "Button" is Obj(3), which has no setter for "1Click". */
  lemma CollidingButtonDest()
    ensures Dest(CollidingForm.fields, CollidingForm.components[1], FieldName(CollidingForm.components[1], "", ""))
            == Some(Obj(3))
    ensures !Exposes(ButtonEnv, Obj(3), "1Click")
  {
    FieldAt(CollidingForm.fields, 2, "Button");
  }

  lemma CollidingApplicationFacts()
    ensures MethodPrefix + Label(ApplicationObject, ApplicationLabel) == "OnApplication"
    ensures EventTypes(CollidingEvents, "OnApplication") == {}
  {
    ButtonNames();
  }

  lemma CollidingFormStep(env: Env, form: Form)
    requires env == ButtonEnv && form == CollidingForm
    ensures FormRun(env, form, map[]).slots == map[] && FormRun(env, form, map[]).table == map[]
  {
    CollidingFormEvents();
    CollidingFormFacts();
    SetEventNone(env, CollidingEvents, form.fields, Run(map[], map[], {}), form.self, FormLabel, FormField, "OnForm");
    TableEntriesNone(CollidingEvents, "OnForm");
  }

  lemma CollidingButton1(env: Env, form: Form, r: Run)
    requires env == ButtonEnv && form == CollidingForm
    ensures SetEventRun(env, CollidingEvents, form.fields, r, form.components[0], "", "").slots
            == r.slots[Slot(Button1, "Click") := "OnButton1Click"]
    ensures SetEventRun(env, CollidingEvents, form.fields, r, form.components[0], "", "").table
            == r.table["OnButton1Click" := Entry("Click", "OnButton1Click")]
  {
    CollidingButton1Facts();
    CollidingButton1Dest();
    SetEventOne(env, CollidingEvents, form.fields, r, form.components[0], "", "", "OnButton1", Button1, "Click");
    SetEventOneRow(env, CollidingEvents, form.fields, r, form.components[0], "", "", "OnButton1", "Click");
  }

  lemma CollidingButton(env: Env, form: Form, r: Run)
    requires env == ButtonEnv && form == CollidingForm
    ensures var run := SetEventRun(env, CollidingEvents, form.fields, r, form.components[1], "", "");
            run.slots == r.slots && run.table == r.table["OnButton1Click" := Entry("1Click", "OnButton1Click")]
  {
    CollidingButtonFacts();
    CollidingButtonDest();
    SetEventNone(env, CollidingEvents, form.fields, r, form.components[1], "", "", "OnButton");
    SetEventOneRow(env, CollidingEvents, form.fields, r, form.components[1], "", "", "OnButton", "1Click");
  }

  /** "Button1" matches with event type "Click" and fills Button1's slot;
      "Button" then matches the same handler with event type "1Click",
      which Obj(3) has no setter for, and rewrites the table row. */
  lemma CollidingComponentBindings(env: Env, form: Form, r: Run)
    requires env == ButtonEnv && form == CollidingForm
    requires r.slots == map[] && r.table == map[]
    ensures var run := ComponentsRun(env, CollidingEvents, form.fields, r, form.components);
            run.slots == map[Slot(Button1, "Click") := "OnButton1Click"]
            && run.table == map["OnButton1Click" := Entry("1Click", "OnButton1Click")]
  {
    ComponentsRunTwo(env, CollidingEvents, form.fields, r, form.components);
    CollidingButton1(env, form, r);
    CollidingButton(env, form, SetEventRun(env, CollidingEvents, form.fields, r, form.components[0], "", ""));
  }

  /** Button2's tag finds the row with event type "1Click", which Button2 has no setter for. */
  lemma CollidingTagOverride(env: Env, form: Form, r: Run)
    requires env == ButtonEnv && form == CollidingForm
    requires r.table == map["OnButton1Click" := Entry("1Click", "OnButton1Click")]
    ensures TagsRun(env, r, form.fields).slots == r.slots
  {
    assert |SetterPrefix + "1Click"| != |"SetOnClick"|;
    assert |form.fields| == 4 && form.fields[0].tag == "" && form.fields[1].tag == "" && form.fields[2].tag == "";
    TagMissesLast(env, r, form.fields);
  }

  lemma CollidingComponentsStep(env: Env, form: Form)
    requires env == ButtonEnv && form == CollidingForm
    ensures var run := ComponentsRun(env, EventNames(form.methods), form.fields, FormRun(env, form, map[]),
                                     form.components);
            run.slots == map[Slot(Button1, "Click") := "OnButton1Click"]
            && run.table == map["OnButton1Click" := Entry("1Click", "OnButton1Click")]
  {
    CollidingFormEvents();
    CollidingFormStep(env, form);
    CollidingComponentBindings(env, form, FormRun(env, form, map[]));
  }

  lemma CollidingLater(env: Env, form: Form)
    requires env == ButtonEnv && form == CollidingForm
    ensures var events := EventNames(form.methods);
            var beforeTags := ComponentsRun(env, events, form.fields, FormRun(env, form, map[]), form.components);
            beforeTags.table == map["OnButton1Click" := Entry("1Click", "OnButton1Click")]
    ensures AssociateRun(env, form, true, map[]).slots == map[Slot(Button1, "Click") := "OnButton1Click"]
  {
    CollidingFormEvents();
    CollidingComponentsStep(env, form);
    var c2 := ComponentsRun(env, CollidingEvents, form.fields, FormRun(env, form, map[]), form.components);
    CollidingTagOverride(env, form, c2);
    var middle := MiddleRun(env, form, true, map[]);
    CollidingApplicationFacts();
    SetEventNone(env, CollidingEvents, form.fields, middle, ApplicationObject, ApplicationLabel, "", "OnApplication");
  }

  /**
   * When two component prefixes match one handler, the table keeps the
   * event type of the component bound LAST, not of the longest prefix:
   * "OnButton1Click" is recorded with type "1Click" because "Button" comes
   * after "Button1", so the tagged Button2 is offered `SetOn1Click`, which
   * it lacks, and its click slot stays empty, while Button1 still gets its
   * own click handler.
   */
  lemma LaterMatchWinsTheTable()
    ensures var events := EventNames(CollidingForm.methods);
            var formRun := FormRun(ButtonEnv, CollidingForm, map[]);
            var beforeTags := ComponentsRun(ButtonEnv, events, CollidingForm.fields, formRun, CollidingForm.components);
            beforeTags.table == map["OnButton1Click" := Entry("1Click", "OnButton1Click")]
    ensures var run := AssociateRun(ButtonEnv, CollidingForm, true, map[]);
            run.slots == map[Slot(Button1, "Click") := "OnButton1Click"]
  {
    CollidingLater(ButtonEnv, CollidingForm);
  }
}

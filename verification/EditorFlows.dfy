/**
 What whole sequences of keys achieve in the config editor (crates/collector/src/editor/
 app.rs): adding and removing components, and editing a receiver's operators.
 */
module EditorFlows {
  import opened Options
  import opened Text
  import opened JsonTree
  import opened Forms
  import opened FormEditing
  import opened EditorDocument
  import opened EditorModel
  import opened EditorSessions

  lemma RunSnoc(r: Catalog, m: Editor, es: seq<Event>, e: Event)
    requires Good(r) && SafeEditor(r, m)
    ensures Run(r, m, es + [e]) == OnKey(r, Run(r, m, es), e)
    ensures es == [] ==> Run(r, m, es) == m
  {
    hide OnKey;
    assert (es + [e])[..|es|] == es;
  }

  function Press(key: Key): Event {
    Event(key, "", false)
  }

  lemma {:induction false} RunBoth(r: Catalog, m: Editor, a: seq<Event>, b: seq<Event>)
    requires Good(r) && SafeEditor(r, m)
    ensures Run(r, m, a + b) == Run(r, Run(r, m, a), b)
  {
    hide OnKey;
    if b == [] {
      assert a + b == a;
    } else {
      assert (a + b)[..|a + b| - 1] == a + b[..|b| - 1];
      RunBoth(r, m, a, b[..|b| - 1]);
    }
  }

  lemma RunOne(r: Catalog, m: Editor, e: Event)
    requires Good(r) && SafeEditor(r, m)
    ensures Run(r, m, [e]) == OnKey(r, m, e)
  {
    RunSnoc(r, m, [], e);
    assert [] + [e] == [e];
  }

  function Downs(k: nat): seq<Event> {
    if k == 0 then [] else Downs(k - 1) + [Press(Down)]
  }

  /** Down and Up select the next and the previous entry. */
  ghost predicate ListKeys(r: Catalog, m: Editor, at: nat -> Screen, n: nat, k: nat)
    requires Good(r)
  {
    && Safe(r, m.doc, at(k))
    && OnKey(r, m.(screen := at(k)), Press(Down)) == m.(screen := at(if k + 1 < n then k + 1 else k))
    && OnKey(r, m.(screen := at(k)), Press(Up)) == m.(screen := at(if k > 0 then k - 1 else 0))
  }

  /** A screen with a list of n entries, the k-th of them selected. */
  ghost predicate ListScreen(r: Catalog, m: Editor, at: nat -> Screen, n: nat) {
    Good(r) && !m.showHelp && forall k: nat :: k < n ==> ListKeys(r, m, at, n, k)
  }

  /** k times Down selects the k-th entry of a list. */
  lemma {:induction false} DownsSelect(r: Catalog, m: Editor, at: nat -> Screen, n: nat, k: nat)
    requires ListScreen(r, m, at, n) && k < n && m.screen == at(0)
    ensures SafeEditor(r, m) && Run(r, m, Downs(k)) == m.(screen := at(k))
  {
    hide OnKey, Safe;
    assert ListKeys(r, m, at, n, 0) && m == m.(screen := at(0));
    if k > 0 {
      DownsSelect(r, m, at, n, k - 1);
      RunSnoc(r, m, Downs(k - 1), Press(Down));
      assert ListKeys(r, m, at, n, k - 1);
    }
  }

  // --- Adding a component

  /** a, Down to the type, Enter and typing an id. */
  function ToPrompt(k: nat, id: string): seq<Event> {
    [Press(Char('a'))] + Downs(k) + [Press(Enter)] + [Event(Other, id, false)]
  }

  /** Then Enter to name the component and Enter to submit its form. */
  function AddKeys(k: nat, id: string): seq<Event> {
    ToPrompt(k, id) + [Press(Enter)] + [Press(Enter)]
  }

  lemma PickerIsList(r: Catalog, m: Editor, c: Category)
    requires Good(r) && !m.showHelp
    ensures ListScreen(r, m, (k: nat) => PickType(c, k), |TypesFor(r, c)|)
  {
  }

  lemma PromptIsReached(r: Catalog, m: Editor, c: Category, k: nat, id: string)
    requires Good(r) && SafeEditor(r, m) && !m.showHelp && m.screen.TopLevel? && TabCategory(m.screen.tab) == Some(c)
    requires k < |TypesFor(r, c)|
    ensures Run(r, m, ToPrompt(k, id)) == m.(screen := NameNewComponent(c, TypesFor(r, c)[k].name, id))
  {
    hide Run, OnKey, Safe, ListScreen, Downs;
    RunOne(r, m, Press(Char('a')));
    AddOpensPicker(r, m, c);
    var picking := m.(screen := PickType(c, 0));
    PickerIsList(r, picking, c);
    DownsSelect(r, picking, (i: nat) => PickType(c, i), |TypesFor(r, c)|, k);
    RunBoth(r, m, [Press(Char('a'))], Downs(k));
    RunSnoc(r, m, [Press(Char('a'))] + Downs(k), Press(Enter));
    PickOpensPrompt(r, m.(screen := PickType(c, k)), c, k);
    RunSnoc(r, m, [Press(Char('a'))] + Downs(k) + [Press(Enter)], Event(Other, id, false));
    PromptTakesText(r, m.(screen := NameNewComponent(c, TypesFor(r, c)[k].name, "")), id);
  }

  lemma AddOpensPicker(r: Catalog, m: Editor, c: Category)
    requires Good(r) && SafeEditor(r, m) && !m.showHelp && m.screen.TopLevel? && TabCategory(m.screen.tab) == Some(c)
    ensures OnKey(r, m, Press(Char('a'))) == m.(screen := PickType(c, 0))
  {
    hide IdsForTab;
  }

  lemma PickOpensPrompt(r: Catalog, m: Editor, c: Category, k: nat)
    requires Good(r) && !m.showHelp && m.screen == PickType(c, k) && k < |TypesFor(r, c)|
    ensures SafeEditor(r, m)
    ensures OnKey(r, m, Press(Enter)) == m.(screen := NameNewComponent(c, TypesFor(r, c)[k].name, ""))
  {
  }

  lemma PromptTakesText(r: Catalog, m: Editor, id: string)
    requires Good(r) && SafeEditor(r, m) && !m.showHelp && m.screen.NameNewComponent?
    ensures OnKey(r, m, Event(Other, id, false)) ==
            m.(screen := NameNewComponent(m.screen.category, m.screen.typeName, id))
  {
    hide FindType;
  }

  /** The form of a component just named. */
  function NewComponentForm(r: Catalog, t: TypeSpec): FormState
    requires GoodFields(t.fields)
  {
    NewForm(Some(t.name), false, t.fields, Obj(Seeded(t.fields)), r.show)
  }

  /** Adding a component of any type from the top level: a new id gets what the seeded form of
      that type writes, an id that is taken or blank is refused at the prompt. */
  lemma AddingAddsComponent(r: Catalog, m: Editor, c: Category, k: nat, id: string, t: TypeSpec)
    requires Good(r) && SafeEditor(r, m) && !m.showHelp && m.screen.TopLevel? && TabCategory(m.screen.tab) == Some(c)
    requires k < |TypesFor(r, c)| && FindType(TypesFor(r, c), TypesFor(r, c)[k].name) == Some(t)
    requires t.fields != [] ==> t.fields[0].kind != OperatorListField
    ensures t.name == TypesFor(r, c)[k].name && GoodFields(t.fields)
    ensures var after := Run(r, m, AddKeys(k, id));
            if Trim(id) == "" || Trim(id) in MapFor(m.doc, c)
            then after == m.(screen := NameNewComponent(c, t.name, id))
            else
              && WellFormed(NewComponentForm(r, t))
              && after.doc == Put(m.doc, c, Trim(id), Obj(FormObject(NewComponentForm(r, t))))
              && after.dirty && after.screen == TopLevel(TabFor(c), 0)
  {
    hide Put, Seeded, NewForm, FormObject, IdsForTab, WellFormed, Trim, Run, FindType, ToPrompt;
    FoundTypeIsGood(TypesFor(r, c), TypesFor(r, c)[k].name);
    NewFormIsSafe(Some(t.name), false, t.fields, Obj(Seeded(t.fields)), r.show);
    NewFormStartsAtTop(Some(t.name), false, t.fields, Obj(Seeded(t.fields)), r.show);
    PromptIsReached(r, m, c, k, id);
    RunSnoc(r, m, ToPrompt(k, id), Press(Enter));
    RunSnoc(r, m, ToPrompt(k, id) + [Press(Enter)], Press(Enter));
  }

  lemma NewFormStartsAtTop(typeName: Option<string>, writeTypeKey: bool, fields: seq<FieldSpec>, value: Json,
                           show: Printer)
    requires GoodFields(fields)
    ensures NewForm(typeName, writeTypeKey, fields, value, show).focused == 0
  {
  }

  // --- Removing a component

  /** Down to the k-th component and d, and y if pipelines list it. */
  function RemoveKeys(doc: EditorDoc, c: Category, k: nat, id: string): seq<Event> {
    if PipelinesReferencing(doc, c, id) == [] then Downs(k) + [Press(Char('d'))]
    else Downs(k) + [Press(Char('d'))] + [Press(Char('y'))]
  }

  lemma TabIsList(r: Catalog, m: Editor, tab: TopTab)
    requires Good(r) && !m.showHelp
    ensures ListScreen(r, m, (k: nat) => TopLevel(tab, k), |IdsForTab(m.doc, tab)|)
  {
    hide OnKey, Safe, IdsForTab;
    var at := (k: nat) => TopLevel(tab, k);
    forall k: nat | k < |IdsForTab(m.doc, tab)| ensures ListKeys(r, m, at, |IdsForTab(m.doc, tab)|, k) {
      TabKeys(r, m.(screen := TopLevel(tab, k)), tab, k);
    }
  }

  lemma TabKeys(r: Catalog, m: Editor, tab: TopTab, k: nat)
    requires Good(r) && !m.showHelp && m.screen == TopLevel(tab, k) && k < |IdsForTab(m.doc, tab)|
    ensures SafeEditor(r, m)
    ensures OnKey(r, m, Press(Down)) ==
            m.(screen := TopLevel(tab, if k + 1 < |IdsForTab(m.doc, tab)| then k + 1 else k))
    ensures OnKey(r, m, Press(Up)) == m.(screen := TopLevel(tab, if k > 0 then k - 1 else 0))
  {
    hide IdsForTab, OpenSelected, DeleteSelected, ToJson, NextTab, PreviousTab;
  }

  ghost predicate AtComponent(r: Catalog, m: Editor, c: Category, k: nat, id: string) {
    && Good(r) && SafeEditor(r, m) && !m.showHelp && m.screen == TopLevel(TabFor(c), 0)
    && k < |IdsForTab(m.doc, TabFor(c))| && IdsForTab(m.doc, TabFor(c))[k] == id
  }

  lemma DeleteKey(r: Catalog, m: Editor, c: Category, k: nat, id: string)
    requires Good(r) && !m.showHelp && m.screen == TopLevel(TabFor(c), k)
    requires k < |IdsForTab(m.doc, TabFor(c))| && IdsForTab(m.doc, TabFor(c))[k] == id
    ensures SafeEditor(r, m) && OnKey(r, m, Press(Char('d'))) == DeleteSelected(m, TabFor(c), id)
  {
    hide IdsForTab, DeleteSelected, Navigate;
  }

  /** Removing any listed component: it goes at once if no pipeline lists it, and otherwise only
      after a confirmation that names exactly the pipelines listing it, in order. */
  lemma RemovalAsksIffListed(r: Catalog, m: Editor, c: Category, k: nat, id: string)
    requires AtComponent(r, m, c, k, id)
    ensures var after := Run(r, m, Downs(k) + [Press(Char('d'))]);
            if forall name :: name in m.doc.pipelines ==> !References(m.doc.pipelines[name], c, id)
            then after.doc == Remove(m.doc, c, id) && after.dirty && after.screen == TopLevel(TabFor(c), 0)
            else
              && after == m.(screen := ConfirmRemove(c, id, PipelinesReferencing(m.doc, c, id)))
              && forall name :: name in after.screen.blocking <==>
                                name in m.doc.pipelines && References(m.doc.pipelines[name], c, id)
  {
    hide IdsForTab, Run, PipelinesReferencing, Remove, OnKey, Safe, ListScreen, Downs, References;
    TabIsList(r, m, TabFor(c));
    DownsSelect(r, m, (i: nat) => TopLevel(TabFor(c), i), |IdsForTab(m.doc, TabFor(c))|, k);
    RunSnoc(r, m, Downs(k), Press(Char('d')));
    DeleteKey(r, m.(screen := TopLevel(TabFor(c), k)), c, k, id);
    ReferencingNamesAll(m.doc, c, id);
  }

  lemma RemovalIsStripped(r: Catalog, m: Editor, c: Category, k: nat, id: string)
    requires AtComponent(r, m, c, k, id) && PipelinesReferencing(m.doc, c, id) != []
    ensures Run(r, m, RemoveKeys(m.doc, c, k, id)).doc == Remove(Strip(m.doc, c, id), c, id)
  {
    hide IdsForTab, Run, PipelinesReferencing, Remove, Strip, Downs, References;
    RemovalAsksIffListed(r, m, c, k, id);
    ReferencingNamesAll(m.doc, c, id);
    RunSnoc(r, m, Downs(k) + [Press(Char('d'))], Press(Char('y')));
  }

  /** Afterwards exactly that component is gone, and exactly the references to it. */
  lemma RemovingRemovesExactly(r: Catalog, m: Editor, c: Category, k: nat, id: string, c': Category, name: string,
                               id': string)
    requires AtComponent(r, m, c, k, id)
    ensures var after := Run(r, m, RemoveKeys(m.doc, c, k, id)).doc;
            && MapFor(after, c') == (if c' == c then MapFor(m.doc, c) - {id} else MapFor(m.doc, c'))
            && after.pipelines.Keys == m.doc.pipelines.Keys
            && (name in after.pipelines ==>
                  (References(after.pipelines[name], c', id') <==>
                   References(m.doc.pipelines[name], c', id') && !(c == c' && id == id')))
  {
    hide IdsForTab, Run, References, PipelinesReferencing, Downs;
    ReferencingNamesAll(m.doc, c, id);
    if PipelinesReferencing(m.doc, c, id) == [] {
      RemovalAsksIffListed(r, m, c, k, id);
    } else {
      RemovalIsStripped(r, m, c, k, id);
      if name in m.doc.pipelines { StripRemovesExactly(m.doc, c, id, name, c', id'); }
      StripKeepsRest(m.doc, c, id, name, "");
    }
  }

  // --- Operators

  /** The operator list of a form that has one, with its first entry selected. */
  ghost predicate ListsOperators(r: Catalog, m: Editor) {
    && Good(r) && SafeEditor(r, m) && !m.showHelp && m.screen.OperatorList? && m.screen.selected == 0
    && OperatorField(m.screen.form.specs).Some?
  }

  lemma OperatorListIsList(r: Catalog, m: Editor, c: Category, id: string, form: FormState)
    requires Good(r) && !m.showHelp && WellFormed(form)
    ensures ListScreen(r, m, (k: nat) => OperatorList(c, id, form, k), |OperatorsOf(form)|)
  {
    hide OnKey, Safe;
    var at := (k: nat) => OperatorList(c, id, form, k);
    forall k: nat | k < |OperatorsOf(form)| ensures ListKeys(r, m, at, |OperatorsOf(form)|, k) {
      OperatorListKeys(r, m.(screen := OperatorList(c, id, form, k)), c, id, form, k);
    }
  }

  lemma OperatorListKeys(r: Catalog, m: Editor, c: Category, id: string, form: FormState, k: nat)
    requires Good(r) && !m.showHelp && m.screen == OperatorList(c, id, form, k) && WellFormed(form)
    requires k < |OperatorsOf(form)|
    ensures SafeEditor(r, m)
    ensures OnKey(r, m, Press(Down)) ==
            m.(screen := OperatorList(c, id, form, if k + 1 < |OperatorsOf(form)| then k + 1 else k))
    ensures OnKey(r, m, Press(Up)) == m.(screen := OperatorList(c, id, form, if k > 0 then k - 1 else 0))
  {
    hide WellFormed, OperatorsOf, SetOperators, FindType;
  }

  /** Esc goes back to the component's form, with the operators as they are now and the next field
      focused. */
  lemma LeavingOperatorsKeepsThem(r: Catalog, m: Editor)
    requires Good(r) && SafeEditor(r, m) && !m.showHelp && m.screen.OperatorList?
    ensures var form, after := m.screen.form, OnKey(r, m, Press(Esc));
            && after == m.(screen := after.screen) && after.screen.EditComponent?
            && after.screen.category == m.screen.category && after.screen.id == m.screen.id
            && after.screen.form == form.(focused := after.screen.form.focused)
            && (form.focused + 1 < |form.fields| ==> after.screen.form.focused == form.focused + 1)
            && (form.focused + 1 >= |form.fields| ==> after.screen.form.focused == 0)
  {
    hide OperatorsOf, WellFormed, Next;
    assert WellFormed(m.screen.form);
    FocusInRange(m.screen.form);
  }

  lemma FocusInRange(form: FormState)
    requires WellFormed(form)
    ensures form.focused + 1 < |form.fields| ==> Next(form.focused, |form.fields|) == form.focused + 1
    ensures form.focused + 1 >= |form.fields| ==> Next(form.focused, |form.fields|) == 0
  {
  }

  lemma OperatorPickerIsList(r: Catalog, m: Editor, c: Category, id: string, form: FormState)
    requires Good(r) && !m.showHelp && WellFormed(form)
    ensures ListScreen(r, m, (k: nat) => OperatorPickType(c, id, form, k), |r.operators|)
  {
    hide OnKey, Safe;
    var at := (k: nat) => OperatorPickType(c, id, form, k);
    forall k: nat | k < |r.operators| ensures ListKeys(r, m, at, |r.operators|, k) {
      OperatorPickerKeys(r, m.(screen := OperatorPickType(c, id, form, k)), c, id, form, k);
    }
  }

  lemma OperatorPickerKeys(r: Catalog, m: Editor, c: Category, id: string, form: FormState, k: nat)
    requires Good(r) && !m.showHelp && m.screen == OperatorPickType(c, id, form, k) && WellFormed(form)
    requires k < |r.operators|
    ensures SafeEditor(r, m)
    ensures OnKey(r, m, Press(Down)) ==
            m.(screen := OperatorPickType(c, id, form, if k + 1 < |r.operators| then k + 1 else k))
    ensures OnKey(r, m, Press(Up)) == m.(screen := OperatorPickType(c, id, form, if k > 0 then k - 1 else 0))
  {
    hide WellFormed, OperatorsOf;
  }

  lemma OperatorIsSelected(r: Catalog, m: Editor, k: nat)
    requires ListsOperators(r, m) && k < |OperatorsOf(m.screen.form)|
    ensures Run(r, m, Downs(k)) == m.(screen := OperatorList(m.screen.category, m.screen.id, m.screen.form, k))
  {
    hide WellFormed, OperatorsOf, OperatorField, Run, Downs, ListScreen;
    var c, id, form := m.screen.category, m.screen.id, m.screen.form;
    OperatorListIsList(r, m, c, id, form);
    DownsSelect(r, m, (i: nat) => OperatorList(c, id, form, i), |OperatorsOf(form)|, k);
  }

  /** The screen is the operator list of the same component again, with these operators; the
      document and every other field of the form are as they were. */
  ghost predicate BackAtList(m: Editor, after: Editor, ops: seq<Json>, selected: nat)
    requires m.screen.OperatorList?
  {
    && after.screen.OperatorList? && after == m.(screen := after.screen)
    && after.screen.category == m.screen.category && after.screen.id == m.screen.id && after.screen.selected == selected
    && OperatorsOf(after.screen.form) == ops
    && |after.screen.form.fields| == |m.screen.form.fields|
    && forall i :: 0 <= i < |m.screen.form.fields| && !m.screen.form.fields[i].Operators? ==>
         after.screen.form.fields[i] == m.screen.form.fields[i]
  }

  lemma SettingGoesBack(m: Editor, ops: seq<Json>, selected: nat)
    requires m.screen.OperatorList? && WellFormed(m.screen.form) && OperatorField(m.screen.form.specs).Some?
    ensures BackAtList(m, m.(screen := OperatorList(m.screen.category, m.screen.id, SetOperators(m.screen.form, ops),
                                                    selected)), ops, selected)
  {
    SetOperatorsSets(m.screen.form, ops);
    assert |SetOperators(m.screen.form, ops).fields| == |m.screen.form.fields|;
  }

  /** d on the k-th operator removes exactly it, keeps the others in order and selects the first. */
  lemma DeletingOperator(r: Catalog, m: Editor, k: nat)
    requires ListsOperators(r, m) && k < |OperatorsOf(m.screen.form)|
    ensures var ops := OperatorsOf(m.screen.form);
            BackAtList(m, Run(r, m, Downs(k) + [Press(Char('d'))]), ops[..k] + ops[k + 1..], 0)
  {
    hide WellFormed, OperatorsOf, SetOperators, OperatorField, BackAtList, Run, Downs;
    var ops := OperatorsOf(m.screen.form);
    OperatorIsSelected(r, m, k);
    RunSnoc(r, m, Downs(k), Press(Char('d')));
    SettingGoesBack(m, ops[..k] + ops[k + 1..], 0);
  }

  function OperatorForm(r: Catalog, t: TypeSpec, value: Json): FormState
    requires GoodFields(t.fields)
  {
    NewForm(Some(t.name), true, t.fields, value, r.show)
  }

  /** Opening the k-th operator and submitting it untouched replaces it, and only it, by what
      its form makes of it, and selects it again. */
  lemma EditingOperator(r: Catalog, m: Editor, k: nat, t: TypeSpec)
    requires ListsOperators(r, m) && k < |OperatorsOf(m.screen.form)|
    requires FindType(r.operators, TextOf(Member(OperatorsOf(m.screen.form)[k], "type")).GetOr("")) == Some(t)
    ensures GoodFields(t.fields)
    ensures var ops := OperatorsOf(m.screen.form);
            && WellFormed(OperatorForm(r, t, ops[k]))
            && BackAtList(m, Run(r, m, Downs(k) + [Press(Enter)] + [Press(Enter)]),
                          ops[k := Obj(FormObject(OperatorForm(r, t, ops[k])))], k)
  {
    hide OperatorsOf, SetOperators, OperatorField, BackAtList, FindType, NewForm, FormObject, WellFormed, Run, Downs;
    var ops := OperatorsOf(m.screen.form);
    FoundTypeIsGood(r.operators, TextOf(Member(ops[k], "type")).GetOr(""));
    NewFormIsSafe(Some(t.name), true, t.fields, ops[k], r.show);
    var form := OperatorForm(r, t, ops[k]);
    OperatorIsSelected(r, m, k);
    RunSnoc(r, m, Downs(k), Press(Enter));
    RunSnoc(r, m, Downs(k) + [Press(Enter)], Press(Enter));
    SettingGoesBack(m, ops[k := Obj(FormObject(form))], k);
  }

  /** a, Down to any type, Enter and Enter append its seeded operator and select it. */
  lemma AddingOperator(r: Catalog, m: Editor, k: nat)
    requires ListsOperators(r, m) && k < |r.operators|
    ensures var t, ops := r.operators[k], OperatorsOf(m.screen.form);
            && WellFormed(OperatorForm(r, t, Obj(Seeded(t.fields))))
            && BackAtList(m, Run(r, m, [Press(Char('a'))] + Downs(k) + [Press(Enter)] + [Press(Enter)]),
                          ops + [Obj(FormObject(OperatorForm(r, t, Obj(Seeded(t.fields)))))], |ops|)
  {
    hide Run, OnKey, Safe, OperatorsOf, OperatorField, BackAtList, NewForm, FormObject, WellFormed, Seeded, Downs,
         ListScreen;
    var c, id, form := m.screen.category, m.screen.id, m.screen.form;
    var t, ops := r.operators[k], OperatorsOf(form);
    var opForm := OperatorForm(r, t, Obj(Seeded(t.fields)));
    IsListed(r, m);
    NewFormIsSafe(Some(t.name), true, t.fields, Obj(Seeded(t.fields)), r.show);
    RunOne(r, m, Press(Char('a')));
    AddOpensOperatorPicker(r, m);
    var picking := m.(screen := OperatorPickType(c, id, form, 0));
    OperatorPickerIsList(r, picking, c, id, form);
    DownsSelect(r, picking, (i: nat) => OperatorPickType(c, id, form, i), |r.operators|, k);
    RunBoth(r, m, [Press(Char('a'))], Downs(k));
    RunSnoc(r, m, [Press(Char('a'))] + Downs(k), Press(Enter));
    PickOpensOperatorForm(r, m.(screen := OperatorPickType(c, id, form, k)));
    var editing := m.(screen := OperatorEdit(c, id, form, None, opForm));
    RunSnoc(r, m, [Press(Char('a'))] + Downs(k) + [Press(Enter)], Press(Enter));
    SubmitSetsOperator(r, editing);
    SettingGoesBack(m, ops + [Obj(FormObject(opForm))], |ops|);
  }

  lemma IsListed(r: Catalog, m: Editor)
    requires SafeEditor(r, m) && m.screen.OperatorList?
    ensures WellFormed(m.screen.form)
  {
  }

  lemma AddOpensOperatorPicker(r: Catalog, m: Editor)
    requires Good(r) && SafeEditor(r, m) && !m.showHelp && m.screen.OperatorList?
    ensures OnKey(r, m, Press(Char('a'))) ==
            m.(screen := OperatorPickType(m.screen.category, m.screen.id, m.screen.form, 0))
  {
    hide OperatorsOf, WellFormed;
  }

  lemma PickOpensOperatorForm(r: Catalog, m: Editor)
    requires Good(r) && SafeEditor(r, m) && !m.showHelp && m.screen.OperatorPickType?
             && m.screen.selected < |r.operators|
    ensures var t := r.operators[m.screen.selected];
            OnKey(r, m, Press(Enter)) ==
            m.(screen := OperatorEdit(m.screen.category, m.screen.id, m.screen.form, None,
                                      OperatorForm(r, t, Obj(Seeded(t.fields)))))
  {
    hide OperatorsOf, WellFormed, NewForm, Seeded;
  }

  /** Submitting an operator's form replaces the operator it was opened from, or appends. */
  lemma SubmitSetsOperator(r: Catalog, m: Editor)
    requires Good(r) && SafeEditor(r, m) && !m.showHelp && m.screen.OperatorEdit?
    ensures WellFormed(m.screen.opForm)
    ensures var ops, value := OperatorsOf(m.screen.form), Obj(FormObject(m.screen.opForm));
            var i := if m.screen.index.Some? then m.screen.index.value else |ops|;
            OnKey(r, m, Press(Enter)) ==
            m.(screen := OperatorList(m.screen.category, m.screen.id,
                                      SetOperators(m.screen.form, if i < |ops| then ops[i := value]
                                                   else ops + [value]), i))
  {
    hide OperatorsOf, WellFormed, FormObject, SetOperators;
  }
}

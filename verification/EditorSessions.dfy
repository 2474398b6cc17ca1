/** What every session of the config editor keeps (crates/collector/src/editor/app.rs). */
module EditorSessions {
  import opened Options
  import opened JsonTree
  import opened Forms
  import opened FormEditing
  import opened EditorDocument
  import opened EditorModel

  // --- No index out of range, no failed lookup

  lemma NewFormIsSafe(typeName: Option<string>, writeTypeKey: bool, fields: seq<FieldSpec>, value: Json, show: Printer)
    requires GoodFields(fields)
    ensures WellFormed(NewForm(typeName, writeTypeKey, fields, value, show))
    ensures NewForm(typeName, writeTypeKey, fields, value, show).specs == fields
    ensures NewForm(typeName, writeTypeKey, fields, value, show).typeName == typeName
  {
    NewFormIsWellFormed(typeName, writeTypeKey, fields, value, show);
  }

  lemma OpenedIsSafe(r: Catalog, doc: EditorDoc, tab: TopTab, id: string)
    requires Good(r) && id in Table(doc, tab)
    ensures OpenSelected(r, doc, tab, id).Some? ==> Safe(r, doc, OpenSelected(r, doc, tab, id).value)
  {
    hide WellFormed, NewForm, SpecFor;
    var value := Table(doc, tab)[id];
    match TabCategory(tab)
    case None => NewFormIsSafe(None, false, PIPELINE_FIELDS, value, r.show);
    case Some(c) =>
      SpecForIsGood(r, c, id);
      var spec := SpecFor(r, c, id);
      if spec.Some? { NewFormIsSafe(Some(spec.value.name), false, spec.value.fields, value, r.show); }
  }

  lemma NavigationStaysSafe(r: Catalog, doc: EditorDoc, tab: TopTab, selected: nat, key: Key)
    requires Good(r) && Selects(selected, |IdsForTab(doc, tab)|)
    ensures Safe(r, doc, Navigate(r, doc, tab, selected, key))
  {
    hide WellFormed, NewForm, IdsForTab, OpenSelected;
    if key == Enter && selected < |IdsForTab(doc, tab)| {
      SelectedIsListed(doc, tab, selected);
      OpenedIsSafe(r, doc, tab, IdsForTab(doc, tab)[selected]);
    }
  }

  lemma TopLevelStaysSafe(r: Catalog, m: Editor, tab: TopTab, selected: nat, e: Event)
    requires Good(r) && Selects(selected, |IdsForTab(m.doc, tab)|)
    ensures SafeEditor(r, TopLevelStep(r, m, tab, selected, e))
  {
    hide WellFormed, IdsForTab, PipelinesReferencing, Navigate, Table, Remove, ToJson;
    NavigationStaysSafe(r, m.doc, tab, selected, e.key);
  }

  lemma {:induction false} ListedTypeIsFound(types: seq<TypeSpec>, i: nat)
    requires i < |types|
    ensures FindType(types, types[i].name).Some?
  {
    if types[0].name != types[i].name { ListedTypeIsFound(types[1..], i - 1); }
  }

  lemma {:induction false} ListedTemplateIsFound(templates: seq<Template>, i: nat)
    requires i < |templates|
    ensures FindTemplate(templates, templates[i].key).Some?
  {
    if templates[0].key != templates[i].key { ListedTemplateIsFound(templates[1..], i - 1); }
  }

  /** Adding a component: picking a type and naming it. */
  lemma AddingStaysSafe(r: Catalog, m: Editor, e: Event)
    requires Good(r) && SafeEditor(r, m)
    requires m.screen.PickType? || m.screen.NameNewComponent? || m.screen.NameNewPipeline?
    ensures SafeEditor(r, HandleKey(r, m, e))
  {
    hide WellFormed, NewForm, IdsForTab, Seeded, FindType;
    match m.screen
    case PickType(c, selected) =>
      if selected < |TypesFor(r, c)| { ListedTypeIsFound(TypesFor(r, c), selected); }
    case NameNewComponent(c, typeName, _) =>
      FoundTypeIsGood(TypesFor(r, c), typeName);
      var fields := FindType(TypesFor(r, c), typeName).value.fields;
      NewFormIsSafe(Some(typeName), false, fields, Obj(Seeded(fields)), r.show);
    case NameNewPipeline(_) => NewFormIsSafe(None, false, PIPELINE_FIELDS, Obj(map[]), r.show);
  }

  /** Editing a component, a pipeline, or confirming a removal. */
  lemma EditingStaysSafe(r: Catalog, m: Editor, e: Event)
    requires Good(r) && SafeEditor(r, m)
    requires m.screen.EditComponent? || m.screen.EditPipeline? || m.screen.ConfirmRemove?
    ensures SafeEditor(r, HandleKey(r, m, e))
  {
    hide WellFormed, IdsForTab, FormObject, Strip;
    if m.screen.EditComponent? || m.screen.EditPipeline? {
      FormKeyKeepsForm(m.screen.form, e.key, e.typed);
      FormKeyKeepsSpecs(m.screen.form, e.key, e.typed);
    }
  }

  lemma FormKeyKeepsSpecs(form: FormState, key: Key, typed: string)
    ensures var form' := FormKey(form, key, typed).0;
            form'.specs == form.specs && form'.typeName == form.typeName
  {
  }

  lemma OperatorListStaysSafe(r: Catalog, m: Editor, e: Event)
    requires Good(r) && SafeEditor(r, m) && m.screen.OperatorList?
    ensures SafeEditor(r, HandleKey(r, m, e))
  {
    hide WellFormed, NewForm, IdsForTab, OperatorsOf, SetOperators, FindType;
    var form, selected, ops := m.screen.form, m.screen.selected, OperatorsOf(m.screen.form);
    if e.key == Esc {
      AdvanceKeepsForm(form);
    } else if e.key == Enter && selected < |ops| {
      var typeName := TextOf(Member(ops[selected], "type")).GetOr("");
      FoundTypeIsGood(r.operators, typeName);
      var spec := FindType(r.operators, typeName);
      if spec.Some? { NewFormIsSafe(Some(spec.value.name), true, spec.value.fields, ops[selected], r.show); }
    } else if e.key in {Char('d'), Delete} && selected < |ops| {
      SetOperatorsSets(form, ops[..selected] + ops[selected + 1..]);
    }
  }

  lemma AdvanceKeepsForm(form: FormState)
    requires WellFormed(form)
    ensures WellFormed(AdvanceFocus(form))
  {
  }

  lemma OperatorPickStaysSafe(r: Catalog, m: Editor, e: Event)
    requires Good(r) && SafeEditor(r, m) && m.screen.OperatorPickType?
    ensures SafeEditor(r, HandleKey(r, m, e))
  {
    hide WellFormed, NewForm, IdsForTab, OperatorsOf, Seeded;
    if m.screen.selected < |r.operators| {
      var spec := r.operators[m.screen.selected];
      NewFormIsSafe(Some(spec.name), true, spec.fields, Obj(Seeded(spec.fields)), r.show);
    }
  }

  lemma OperatorEditStaysSafe(r: Catalog, m: Editor, e: Event)
    requires Good(r) && SafeEditor(r, m) && m.screen.OperatorEdit?
    ensures SafeEditor(r, HandleKey(r, m, e))
  {
    hide WellFormed, NewForm, IdsForTab, OperatorsOf, SetOperators, FormObject;
    var form, index, opForm := m.screen.form, m.screen.index, m.screen.opForm;
    FormKeyKeepsForm(opForm, e.key, e.typed);
    var ops, value := OperatorsOf(form), Obj(FormObject(opForm));
    SetOperatorsSets(form, ops + [value]);
    OperatorsNeedField(form);
    if index.Some? { SetOperatorsSets(form, ops[index.value := value]); }
  }

  lemma OperatorsNeedField(form: FormState)
    ensures OperatorField(form.specs).None? ==> OperatorsOf(form) == []
  {
  }

  /** From a template to a receiver. */
  lemma TemplatesStaySafe(r: Catalog, m: Editor, e: Event)
    requires Good(r) && SafeEditor(r, m)
    requires || m.screen.TemplateBrowse? || m.screen.NameTemplateReceiver?
             || m.screen.EditTemplateParams? || m.screen.ReviewTemplateReceiver?
    ensures SafeEditor(r, HandleKey(r, m, e))
  {
    hide WellFormed, NewForm, IdsForTab, FormObject, FindTemplate;
    match m.screen
    case TemplateBrowse(selected) =>
      if selected < |r.templates| { ListedTemplateIsFound(r.templates, selected); }
    case NameTemplateReceiver(key, _) =>
      FoundTemplateIsGood(r.templates, key);
      NewFormIsSafe(None, false, FindTemplate(r.templates, key).value.params, Obj(map[]), r.show);
    case EditTemplateParams(_, _, form) => FormKeyKeepsForm(form, e.key, e.typed);
    case ReviewTemplateReceiver(key, _, params, _) =>
      FoundTemplateIsGood(r.templates, key);
      NewFormIsSafe(None, false, FindTemplate(r.templates, key).value.params, params, r.show);
  }

  /** After every key, everything the next key will index or look up is there. */
  lemma KeyStaysSafe(r: Catalog, m: Editor, e: Event)
    requires Good(r) && SafeEditor(r, m)
    ensures SafeEditor(r, OnKey(r, m, e))
  {
    hide TopLevelStep, HandleKey;
    match m.screen
    case TopLevel(tab, selected) =>
      TopLevelStaysSafe(r, m, tab, selected, e);
      TopLevelIsHandled(r, m, e);
    case PickType(_, _) => AddingStaysSafe(r, m, e);
    case NameNewComponent(_, _, _) => AddingStaysSafe(r, m, e);
    case NameNewPipeline(_) => AddingStaysSafe(r, m, e);
    case EditComponent(_, _, _) => EditingStaysSafe(r, m, e);
    case EditPipeline(_, _) => EditingStaysSafe(r, m, e);
    case ConfirmRemove(_, _, _) => EditingStaysSafe(r, m, e);
    case OperatorList(_, _, _, _) => OperatorListStaysSafe(r, m, e);
    case OperatorPickType(_, _, _, _) => OperatorPickStaysSafe(r, m, e);
    case OperatorEdit(_, _, _, _, _) => OperatorEditStaysSafe(r, m, e);
    case _ => TemplatesStaySafe(r, m, e);
  }

  lemma TopLevelIsHandled(r: Catalog, m: Editor, e: Event)
    requires Good(r) && SafeEditor(r, m) && m.screen.TopLevel?
    ensures HandleKey(r, m, e) == TopLevelStep(r, m, m.screen.tab, m.screen.selected, e)
  {
  }

  // --- Sessions

  /** The editor after a list of keys: it never meets an index or a lookup that fails. */
  function Run(r: Catalog, m: Editor, es: seq<Event>): (m': Editor)
    requires Good(r) && SafeEditor(r, m)
    ensures SafeEditor(r, m')
  {
    if es == [] then m else
      var before := Run(r, m, es[..|es| - 1]);
      KeyStaysSafe(r, before, es[|es| - 1]);
      OnKey(r, before, es[|es| - 1])
  }

  /** App::new on a loaded file; a missing one loads as an empty document, as Null does. */
  function Start(saved: Json): Editor {
    Editor(Parse(saved), TopLevel(Receivers, 0), false, false, false, saved)
  }

  lemma StartIsSafe(r: Catalog, saved: Json)
    ensures SafeEditor(r, Start(saved)) && Clean(Start(saved))
    ensures !Start(saved).dirty && !Start(saved).shouldQuit && !Start(saved).showHelp
    ensures Parse(Null) == EditorDoc(map[], map[], map[], map[])
  {
  }

  /** Nothing is lost by quitting: what was last loaded or saved reads as the document. */
  predicate Clean(m: Editor) {
    !m.dirty ==> Parse(m.saved) == m.doc
  }

  lemma TopLevelStaysClean(r: Catalog, m: Editor, tab: TopTab, selected: nat, e: Event)
    requires Good(r) && Clean(m)
    ensures Clean(TopLevelStep(r, m, tab, selected, e))
  {
    hide Parse, ToJson, IdsForTab, PipelinesReferencing, OpenSelected, Remove;
    ParseToJson(m.doc);
  }

  /** Unless the editor is marked as unsaved, nothing that matters for quitting has changed. */
  predicate Marks(m: Editor, after: Editor) {
    after.dirty || (!m.dirty && after.doc == m.doc && after.saved == m.saved)
  }

  lemma EditingMarks(m: Editor, c: Category, id: string, form: FormState, e: Event)
    requires WellFormed(form)
    ensures Marks(m, EditComponentStep(m, c, id, form, e))
  {
    hide FormKey, FormObject, WellFormed, Put;
  }

  lemma PipelineEditingMarks(m: Editor, id: string, form: FormState, e: Event)
    requires WellFormed(form)
    ensures Marks(m, EditPipelineStep(m, id, form, e))
  {
    hide FormKey, FormObject, WellFormed;
  }

  lemma ReviewMarks(r: Catalog, m: Editor, key: string, id: string, params: Json, receiver: Json, e: Event)
    requires Good(r) && FindTemplate(r.templates, key).Some?
    ensures Marks(m, ReviewStep(r, m, key, id, params, receiver, e))
  {
    hide Put, ParamsForm, FindTemplate;
  }

  lemma KeyStaysClean(r: Catalog, m: Editor, e: Event)
    requires Good(r) && SafeEditor(r, m) && Clean(m)
    ensures Clean(OnKey(r, m, e))
  {
    hide Parse, WellFormed, FindTemplate, Put, Remove, Strip, TopLevelStep,
         PickTypeStep, NameNewComponentStep, NameNewPipelineStep, OperatorListStep, OperatorPickTypeStep,
         OperatorEditStep, TemplateBrowseStep, NameTemplateStep, EditParamsStep, EditComponentStep, EditPipelineStep,
         ReviewStep;
    match m.screen
    case TopLevel(tab, selected) => TopLevelStaysClean(r, m, tab, selected, e);
    case EditComponent(c, id, form) => EditingMarks(m, c, id, form, e);
    case EditPipeline(id, form) => PipelineEditingMarks(m, id, form, e);
    case ReviewTemplateReceiver(key, id, params, receiver) => ReviewMarks(r, m, key, id, params, receiver, e);
    case _ =>
  }

  lemma {:induction false} SessionStaysClean(r: Catalog, m: Editor, es: seq<Event>)
    requires Good(r) && SafeEditor(r, m) && Clean(m)
    ensures Clean(Run(r, m, es))
  {
    if es != [] {
      SessionStaysClean(r, m, es[..|es| - 1]);
      KeyStaysClean(r, Run(r, m, es[..|es| - 1]), es[|es| - 1]);
    }
  }

  // --- What keys can and cannot do

  /** The only keys that change the document; each of them marks it as unsaved. */
  lemma OnlyTheseKeysChange(r: Catalog, m: Editor, e: Event)
    requires Good(r) && SafeEditor(r, m) && OnKey(r, m, e).doc != m.doc
    ensures OnKey(r, m, e).dirty && !m.showHelp
    ensures match m.screen
            case TopLevel(_, _) => e.key in {Char('d'), Delete}
            case EditComponent(_, _, _) => e.key == Enter
            case EditPipeline(_, _) => e.key == Enter
            case ConfirmRemove(_, _, _) => e.key == Char('y')
            case ReviewTemplateReceiver(_, _, _, _) => e.key == Enter
            case _ => false
  {
    hide FormObject, WellFormed, Put, Remove, Strip, IdsForTab, PipelinesReferencing, OpenSelected, ToJson,
         PickTypeStep, NameNewComponentStep, NameNewPipelineStep, OperatorListStep, OperatorPickTypeStep,
         OperatorEditStep,
         TemplateBrowseStep, NameTemplateStep, EditParamsStep, ParamsForm;
  }

  // --- References

  /** The one key that can list a component in a pipeline. */
  predicate SubmitsPipeline(m: Editor, e: Event) {
    !m.showHelp && m.screen.EditPipeline? && e.key == Enter
  }

  lemma TopLevelAddsNoDangling(r: Catalog, m: Editor, tab: TopTab, selected: nat, e: Event, name: string, c: Category,
                               id: string)
    requires Good(r) && Dangles(TopLevelStep(r, m, tab, selected, e).doc, name, c, id)
    ensures Dangles(m.doc, name, c, id)
  {
    hide Dangles, IdsForTab, OpenSelected, DeleteSelected;
    if e.key in {Char('d'), Delete} && selected < |IdsForTab(m.doc, tab)| {
      var victim := IdsForTab(m.doc, tab)[selected];
      if Dangles(DeleteSelected(m, tab, victim).doc, name, c, id) {
        DeletingAddsNoDangling(m, tab, victim, name, c, id);
      }
    }
  }

  lemma DeletingAddsNoDangling(m: Editor, tab: TopTab, victim: string, name: string, c: Category, id: string)
    requires Dangles(DeleteSelected(m, tab, victim).doc, name, c, id)
    ensures Dangles(m.doc, name, c, id)
  {
    hide References, PipelinesReferencing, Remove;
    if TabCategory(tab).Some? && PipelinesReferencing(m.doc, TabCategory(tab).value, victim) == [] {
      RemoveUnlisted(m.doc, TabCategory(tab).value, victim, name, c, id);
    }
  }

  /** No other key makes a pipeline list a component that is not defined. */
  lemma KeyAddsNoDangling(r: Catalog, m: Editor, e: Event, name: string, c: Category, id: string)
    requires Good(r) && SafeEditor(r, m) && !SubmitsPipeline(m, e)
    requires Dangles(OnKey(r, m, e).doc, name, c, id)
    ensures Dangles(m.doc, name, c, id)
  {
    hide Dangles, FormObject, WellFormed, Put, Remove, Strip, TopLevelStep, IdsForTab,
         PickTypeStep, NameNewComponentStep, NameNewPipelineStep, OperatorListStep, OperatorPickTypeStep,
         OperatorEditStep,
         TemplateBrowseStep, NameTemplateStep, EditParamsStep, ParamsForm;
    match m.screen
    case TopLevel(tab, selected) =>
      if OnKey(r, m, e) == HandleKey(r, m, e) { TopLevelAddsNoDangling(r, m, tab, selected, e, name, c, id); }
    case EditComponent(category, target, form) =>
      PutSettles(m.doc, category, target, Obj(FormObject(form)), name, c, id);
    case ConfirmRemove(category, target, _) => RemoveStripped(m.doc, category, target, name, c, id);
    case ReviewTemplateReceiver(_, target, _, receiver) => PutSettles(m.doc, Receiver, target, receiver, name, c, id);
    case _ =>
  }

  /** Submitting a pipeline form makes that pipeline list exactly the ids typed, and leaves
      the other pipelines alone. */
  lemma SubmittedPipelineLists(r: Catalog, m: Editor, e: Event, name: string, c: Category, id: string)
    requires Good(r) && SafeEditor(r, m) && SubmitsPipeline(m, e)
    ensures var after, form := OnKey(r, m, e).doc, m.screen.form;
            && name in after.pipelines <==> name in m.doc.pipelines || name == m.screen.id
    ensures var after, form := OnKey(r, m, e).doc, m.screen.form;
            name in after.pipelines ==>
              (References(after.pipelines[name], c, id) <==>
               if name != m.screen.id then References(m.doc.pipelines[name], c, id)
               else c != Extension && id in Items(form.fields[if c == Receiver then 0 else 1].text))
  {
    hide Items, FormObject;
    var form := m.screen.form;
    assert Matches(form.specs[0], form.fields[0]) && Matches(form.specs[1], form.fields[1]);
    if c != Extension {
      var i := if c == Receiver then 0 else 1;
      PipelineFieldsArePrefixFree();
      FormWrites(form, i);
      TextsHold(Items(form.fields[i].text), id);
    }
  }

  lemma PipelineFieldsArePrefixFree()
    ensures PrefixFree(PIPELINE_FIELDS, false)
  {
    var p, q: Path := ["receivers"], ["exporters"];
    assert p[0][0] != q[0][0];
    assert Incomparable(p, q);
  }

  lemma TextsHold(items: seq<string>, id: string)
    ensures Str(id) in Texts(items) <==> id in items
  {
    if id in items {
      var i :| 0 <= i < |items| && items[i] == id;
      assert Texts(items)[i] == Str(id);
    }
  }

  /** A key adds a dangling reference exactly when it submits a pipeline form that names a
      component nobody defined. */
  lemma KeyAddsDanglingIff(r: Catalog, m: Editor, e: Event, name: string, c: Category, id: string)
    requires Good(r) && SafeEditor(r, m) && !Dangles(m.doc, name, c, id)
    ensures Dangles(OnKey(r, m, e).doc, name, c, id) <==>
            && SubmitsPipeline(m, e) && name == m.screen.id && c != Extension && id !in MapFor(m.doc, c)
            && id in Items(m.screen.form.fields[if c == Receiver then 0 else 1].text)
  {
    hide Items, FormObject, References;
    if SubmitsPipeline(m, e) {
      SubmittedPipelineLists(r, m, e, name, c, id);
    } else if Dangles(OnKey(r, m, e).doc, name, c, id) {
      KeyAddsNoDangling(r, m, e, name, c, id);
    }
  }

  /** A component that a key removes is listed by no pipeline afterwards. */
  lemma RemovedIsUnlisted(r: Catalog, m: Editor, e: Event, name: string, c: Category, id: string)
    requires Good(r) && SafeEditor(r, m) && id in MapFor(m.doc, c) && id !in MapFor(OnKey(r, m, e).doc, c)
    requires name in OnKey(r, m, e).doc.pipelines
    ensures !References(OnKey(r, m, e).doc.pipelines[name], c, id)
  {
    hide References;
    if !SubmitsPipeline(m, e) && References(OnKey(r, m, e).doc.pipelines[name], c, id) {
      KeyAddsNoDangling(r, m, e, name, c, id);
    }
  }

  /** A session without a submitted pipeline form adds no dangling reference. */
  lemma {:induction false} SessionAddsNoDangling(r: Catalog, m: Editor, es: seq<Event>, name: string, c: Category,
                                                 id: string)
    requires Good(r) && SafeEditor(r, m)
    requires forall i :: 0 <= i < |es| ==> !SubmitsPipeline(Run(r, m, es[..i]), es[i])
    requires Dangles(Run(r, m, es).doc, name, c, id)
    ensures Dangles(m.doc, name, c, id)
  {
    hide Dangles, SubmitsPipeline, OnKey;
    if es != [] {
      var front := es[..|es| - 1];
      assert forall i :: 0 <= i < |front| ==> front[..i] == es[..i];
      KeyAddsNoDangling(r, Run(r, m, front), es[|es| - 1], name, c, id);
      SessionAddsNoDangling(r, m, front, name, c, id);
    }
  }
}

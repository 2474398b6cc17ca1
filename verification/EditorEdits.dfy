/**
 What whole sequences of keys achieve in the config editor (crates/collector/src/editor/app.rs),
 continued: opening what is listed and editing it, pipelines, and receivers from a template.
 */
module EditorEdits {
  import opened Options
  import opened Text
  import opened JsonTree
  import opened Forms
  import opened FormEditing
  import opened EditorDocument
  import opened EditorModel
  import opened EditorSessions
  import opened EditorFlows

  // --- Opening and resubmitting

  /** The type a listed component is edited as: the first one its id is named by, or the first of
      all if there is none. */
  ghost predicate EditedAs(types: seq<TypeSpec>, id: string, t: nat) {
    && t < |types|
    && if exists j :: 0 <= j < |types| && NamedBy(types[j].name, id)
       then NamedBy(types[t].name, id) && forall j :: 0 <= j < t ==> !NamedBy(types[j].name, id)
       else t == 0
  }

  lemma SpecIsEditedAs(r: Catalog, c: Category, id: string, t: nat)
    requires EditedAs(TypesFor(r, c), id, t)
    ensures SpecFor(r, c, id) == Some(TypesFor(r, c)[t])
  {
    var types, name := TypesFor(r, c), ComponentType(id);
    FoundTypeIsFirst(types, name);
    forall j | 0 <= j < |types| ensures NamedBy(types[j].name, id) <==> types[j].name == name {
      ComponentTypeNames(id, types[j].name);
    }
  }

  lemma OpenKey(r: Catalog, m: Editor, tab: TopTab, k: nat)
    requires Good(r) && !m.showHelp && m.screen == TopLevel(tab, k) && k < |IdsForTab(m.doc, tab)|
    ensures SafeEditor(r, m) && IdsForTab(m.doc, tab)[k] in Table(m.doc, tab)
    ensures OnKey(r, m, Press(Enter)) ==
            m.(screen := OpenSelected(r, m.doc, tab, IdsForTab(m.doc, tab)[k]).GetOr(m.screen))
  {
    hide IdsForTab, OpenSelected;
    SelectedIsListed(m.doc, tab, k);
  }

  /** Enter on any listed component opens exactly that one: its own value, in the form of its
      type. */
  lemma OpeningShows(r: Catalog, m: Editor, c: Category, k: nat, id: string, t: nat)
    requires AtComponent(r, m, c, k, id) && EditedAs(TypesFor(r, c), id, t)
    ensures id in MapFor(m.doc, c) && GoodFields(TypesFor(r, c)[t].fields)
    ensures var spec := TypesFor(r, c)[t];
            Run(r, m, Downs(k) + [Press(Enter)]) ==
            m.(screen := EditComponent(c, id, NewForm(Some(spec.name), false, spec.fields, MapFor(m.doc, c)[id],
                                                      r.show)))
  {
    hide IdsForTab, Run, OnKey, Safe, ListScreen, Downs, NewForm, EditedAs;
    SpecIsEditedAs(r, c, id, t);
    SpecForIsGood(r, c, id);
    TabIsList(r, m, TabFor(c));
    DownsSelect(r, m, (i: nat) => TopLevel(TabFor(c), i), |IdsForTab(m.doc, TabFor(c))|, k);
    RunSnoc(r, m, Downs(k), Press(Enter));
    OpenKey(r, m.(screen := TopLevel(TabFor(c), k)), TabFor(c), k);
  }

  lemma SubmitKey(r: Catalog, m: Editor)
    requires Good(r) && SafeEditor(r, m) && !m.showHelp && m.screen.EditComponent?
    requires m.screen.form.focused < |m.screen.form.specs| ==>
               m.screen.form.specs[m.screen.form.focused].kind != OperatorListField
    ensures WellFormed(m.screen.form)
    ensures OnKey(r, m, Press(Enter)) ==
            m.(doc := Put(m.doc, m.screen.category, m.screen.id, Obj(FormObject(m.screen.form))), dirty := true,
               screen := TopLevel(TabFor(m.screen.category), 0))
  {
    hide WellFormed, FormObject, Put;
  }

  /** Opening any component and submitting it untouched changes that component only, and keeps
      under each of its fields exactly what fits the field. */
  lemma ResubmittingKeepsWhatFits(r: Catalog, m: Editor, c: Category, k: nat, id: string, t: nat)
    requires AtComponent(r, m, c, k, id) && EditedAs(TypesFor(r, c), id, t)
    requires var fields := TypesFor(r, c)[t].fields;
             PrefixFree(fields, false) && (fields != [] ==> fields[0].kind != OperatorListField)
    ensures var fields, after := TypesFor(r, c)[t].fields, Run(r, m, Downs(k) + [Press(Enter)] + [Press(Enter)]);
            && id in MapFor(m.doc, c) && id in MapFor(after.doc, c)
            && after.doc == Put(m.doc, c, id, MapFor(after.doc, c)[id])
            && after.dirty && after.screen == TopLevel(TabFor(c), 0)
            && forall i :: 0 <= i < |fields| ==>
                 (GetPath(MapFor(after.doc, c)[id], fields[i].key) == GetPath(MapFor(m.doc, c)[id], fields[i].key) <==>
                  Fits(fields[i], GetPath(MapFor(m.doc, c)[id], fields[i].key)))
  {
    hide Run, OnKey, Safe, Downs, PrefixFree, NewForm, NamedBy, FormObject, Fits, GetPath, IdsForTab, WellFormed;
    OpeningShows(r, m, c, k, id, t);
    var spec, value := TypesFor(r, c)[t], MapFor(m.doc, c)[id];
    var form := NewForm(Some(spec.name), false, spec.fields, value, r.show);
    NewFormIsSafe(Some(spec.name), false, spec.fields, value, r.show);
    NewFormStartsAtTop(Some(spec.name), false, spec.fields, value, r.show);
    var shown := m.(screen := EditComponent(c, id, form));
    RunSnoc(r, m, Downs(k) + [Press(Enter)], Press(Enter));
    FormIsSafe(r, shown);
    SubmitKey(r, shown);
    assert MapFor(Put(m.doc, c, id, Obj(FormObject(form))), c)[id] == Obj(FormObject(form));
    forall i | 0 <= i < |spec.fields|
      ensures GetPath(Obj(FormObject(form)), spec.fields[i].key) == GetPath(value, spec.fields[i].key) <==>
              Fits(spec.fields[i], GetPath(value, spec.fields[i].key))
    {
      OpenFormKeeps(spec, value, r.show, i);
    }
  }

  lemma FormIsSafe(r: Catalog, m: Editor)
    requires m.screen.EditComponent? && WellFormed(m.screen.form)
    ensures SafeEditor(r, m)
  {
    hide WellFormed;
  }

  lemma OpenFormKeeps(spec: TypeSpec, value: Json, show: Printer, i: nat)
    requires GoodFields(spec.fields) && PrefixFree(spec.fields, false) && i < |spec.fields|
    ensures var form := NewForm(Some(spec.name), false, spec.fields, value, show);
            && WellFormed(form)
            && (GetPath(Obj(FormObject(form)), spec.fields[i].key) == GetPath(value, spec.fields[i].key) <==>
                Fits(spec.fields[i], GetPath(value, spec.fields[i].key)))
  {
    hide FormObject, Fits, GetPath, PrefixFree;
    ListedSurvivesIff(FormType(Some(spec.name), false, spec.fields), value, show, i);
  }

  function Tabs(i: nat): seq<Event> {
    if i == 0 then [] else Tabs(i - 1) + [Press(Tab)]
  }

  lemma TabKey(r: Catalog, m: Editor)
    requires Good(r) && SafeEditor(r, m) && !m.showHelp && m.screen.EditComponent?
    requires m.screen.form.focused + 1 < |m.screen.form.fields|
    ensures var form := m.screen.form;
            OnKey(r, m, Press(Tab)) ==
            m.(screen := EditComponent(m.screen.category, m.screen.id, form.(focused := form.focused + 1)))
  {
    hide WellFormed;
  }

  lemma {:induction false} TabsFocus(r: Catalog, m: Editor, i: nat)
    requires Good(r) && SafeEditor(r, m) && !m.showHelp && m.screen.EditComponent? && m.screen.form.focused == 0
    requires i < |m.screen.form.fields|
    ensures Run(r, m, Tabs(i)) ==
            m.(screen := EditComponent(m.screen.category, m.screen.id, m.screen.form.(focused := i)))
  {
    hide OnKey, Run, WellFormed;
    if i == 0 {
      RunSnoc(r, m, [], Press(Tab));
      assert m == m.(screen := EditComponent(m.screen.category, m.screen.id, m.screen.form.(focused := 0)));
    } else {
      var focused := m.screen.form.(focused := i - 1);
      TabsFocus(r, m, i - 1);
      RunSnoc(r, m, Tabs(i - 1), Press(Tab));
      FocusKeepsForm(m.screen.form, i - 1);
      TabKey(r, m.(screen := EditComponent(m.screen.category, m.screen.id, focused)));
    }
  }

  lemma TypeKey(r: Catalog, m: Editor, typed: string)
    requires Good(r) && SafeEditor(r, m) && !m.showHelp && m.screen.EditComponent?
    requires m.screen.form.focused < |m.screen.form.fields|
    ensures OnKey(r, m, Event(Other, typed, false)) ==
            m.(screen := EditComponent(m.screen.category, m.screen.id, FormKey(m.screen.form, Other, typed).0))
  {
    hide WellFormed, FieldKey;
  }

  /** Typing into any text field of any component and submitting writes what was typed there, and
      nothing if that is nothing; every other field keeps exactly what fits it. */
  lemma EditingWritesTyped(r: Catalog, m: Editor, c: Category, k: nat, id: string, t: nat, i: nat, typed: string)
    requires AtComponent(r, m, c, k, id) && EditedAs(TypesFor(r, c), id, t)
    requires var fields := TypesFor(r, c)[t].fields;
             PrefixFree(fields, false) && i < |fields| && fields[i].kind in {StrField, DurationField}
    ensures var fields := TypesFor(r, c)[t].fields;
            var after := Run(r, m, Downs(k) + [Press(Enter)] + Tabs(i) + [Event(Other, typed, false)] + [Press(Enter)]);
            && id in MapFor(m.doc, c) && id in MapFor(after.doc, c)
            && after.doc == Put(m.doc, c, id, MapFor(after.doc, c)[id]) && after.dirty
            && GetPath(MapFor(after.doc, c)[id], fields[i].key) == (if typed == "" then None else Some(Str(typed)))
            && forall j :: 0 <= j < |fields| && j != i ==>
                 (GetPath(MapFor(after.doc, c)[id], fields[j].key) == GetPath(MapFor(m.doc, c)[id], fields[j].key) <==>
                  Fits(fields[j], GetPath(MapFor(m.doc, c)[id], fields[j].key)))
  {
    hide Run, OnKey, Safe, Downs, Tabs, PrefixFree, NewForm, NamedBy, FormObject, Fits, GetPath, IdsForTab, WellFormed,
         FormKey;
    OpeningShows(r, m, c, k, id, t);
    var spec, value := TypesFor(r, c)[t], MapFor(m.doc, c)[id];
    var form := NewForm(Some(spec.name), false, spec.fields, value, r.show);
    NewFormIsSafe(Some(spec.name), false, spec.fields, value, r.show);
    FormOpens(spec, value, r.show);
    var es := Downs(k) + [Press(Enter)];
    var shown := m.(screen := EditComponent(c, id, form));
    FormIsSafe(r, shown);
    TabsFocus(r, shown, i);
    RunBoth(r, m, es, Tabs(i));
    var focused := form.(focused := i);
    FocusKeepsForm(form, i);
    var at := m.(screen := EditComponent(c, id, focused));
    FormIsSafe(r, at);
    RunSnoc(r, m, es + Tabs(i), Event(Other, typed, false));
    TypeKey(r, at, typed);
    KeyIsWritten(focused, Other, typed, i);
    TypingKeepsPlace(focused, typed);
    var edited := FormKey(focused, Other, typed).0;
    FormIsSafe(r, m.(screen := EditComponent(c, id, edited)));
    RunSnoc(r, m, es + Tabs(i) + [Event(Other, typed, false)], Press(Enter));
    SubmitKey(r, m.(screen := EditComponent(c, id, edited)));
    assert MapFor(Put(m.doc, c, id, Obj(FormObject(edited))), c)[id] == Obj(FormObject(edited));
    forall j | 0 <= j < |spec.fields| && j != i
      ensures GetPath(Obj(FormObject(edited)), spec.fields[j].key) == GetPath(value, spec.fields[j].key) <==>
              Fits(spec.fields[j], GetPath(value, spec.fields[j].key))
    {
      KeyIsWritten(focused, Other, typed, j);
      OpenFormKeeps(spec, value, r.show, j);
    }
  }

  lemma FormOpens(spec: TypeSpec, value: Json, show: Printer)
    requires GoodFields(spec.fields)
    ensures var form := NewForm(Some(spec.name), false, spec.fields, value, show);
            form.specs == spec.fields && |form.fields| == |spec.fields| && form.focused == 0 && !form.writeTypeKey
  {
  }

  lemma FocusKeepsForm(form: FormState, i: nat)
    requires WellFormed(form) && i < |form.fields|
    ensures WellFormed(form.(focused := i)) && FormObject(form.(focused := i)) == FormObject(form)
    ensures form.specs[i].kind in {StrField, DurationField} ==> form.fields[i].TextInput?
  {
    assert Matches(form.specs[i], form.fields[i]);
  }

  lemma TypingKeepsPlace(form: FormState, typed: string)
    ensures var after := FormKey(form, Other, typed).0; after.specs == form.specs && after.focused == form.focused
  {
  }

  // --- Pipelines

  ghost predicate AtPipeline(r: Catalog, m: Editor, k: nat, id: string) {
    && Good(r) && SafeEditor(r, m) && !m.showHelp && m.screen == TopLevel(Pipelines, 0)
    && k < |IdsForTab(m.doc, Pipelines)| && IdsForTab(m.doc, Pipelines)[k] == id
  }

  lemma OpeningPipelineShows(r: Catalog, m: Editor, k: nat, id: string)
    requires AtPipeline(r, m, k, id)
    ensures id in m.doc.pipelines && GoodFields(PIPELINE_FIELDS)
    ensures Run(r, m, Downs(k) + [Press(Enter)]) ==
            m.(screen := EditPipeline(id, NewForm(None, false, PIPELINE_FIELDS, m.doc.pipelines[id], r.show)))
  {
    hide IdsForTab, Run, OnKey, Safe, ListScreen, Downs, NewForm;
    TabIsList(r, m, Pipelines);
    DownsSelect(r, m, (i: nat) => TopLevel(Pipelines, i), |IdsForTab(m.doc, Pipelines)|, k);
    RunSnoc(r, m, Downs(k), Press(Enter));
    OpenKey(r, m.(screen := TopLevel(Pipelines, k)), Pipelines, k);
  }

  /** d on any pipeline removes exactly it. */
  lemma RemovingPipeline(r: Catalog, m: Editor, k: nat, id: string)
    requires AtPipeline(r, m, k, id)
    ensures var after := Run(r, m, Downs(k) + [Press(Char('d'))]);
            && after.doc == m.doc.(pipelines := m.doc.pipelines - {id}) && after.dirty
            && after.screen == TopLevel(Pipelines, 0)
  {
    hide IdsForTab, Run, OnKey, Safe, ListScreen, Downs;
    TabIsList(r, m, Pipelines);
    DownsSelect(r, m, (i: nat) => TopLevel(Pipelines, i), |IdsForTab(m.doc, Pipelines)|, k);
    RunSnoc(r, m, Downs(k), Press(Char('d')));
    DeletePipelineKey(r, m.(screen := TopLevel(Pipelines, k)), k, id);
  }

  lemma DeletePipelineKey(r: Catalog, m: Editor, k: nat, id: string)
    requires Good(r) && !m.showHelp && m.screen == TopLevel(Pipelines, k)
    requires k < |IdsForTab(m.doc, Pipelines)| && IdsForTab(m.doc, Pipelines)[k] == id
    ensures SafeEditor(r, m) && OnKey(r, m, Press(Char('d'))) == DeleteSelected(m, Pipelines, id)
  {
    hide IdsForTab, DeleteSelected, Navigate;
  }

  lemma NewPipelineIsNamed(r: Catalog, m: Editor, id: string)
    requires Good(r) && SafeEditor(r, m) && !m.showHelp
    ensures m.screen.TopLevel? && m.screen.tab == Pipelines ==>
              OnKey(r, m, Press(Char('a'))) == m.(screen := NameNewPipeline(""))
    ensures m.screen.NameNewPipeline? ==> OnKey(r, m, Event(Other, id, false)) == m.(screen := NameNewPipeline(id))
    ensures m.screen == NameNewPipeline(id) ==>
              GoodFields(PIPELINE_FIELDS) &&
              OnKey(r, m, Press(Enter)) ==
              if Trim(id) == "" || Trim(id) in m.doc.pipelines then m else
                m.(screen := EditPipeline(Trim(id), NewForm(None, false, PIPELINE_FIELDS, Obj(map[]), r.show)))
  {
    hide IdsForTab, NewForm, Trim;
  }

  /** a, an id and Enter open an empty pipeline form under an id that is new; one that is taken or
      blank is refused at the prompt. */
  lemma AddingPipelineOpensForm(r: Catalog, m: Editor, id: string)
    requires Good(r) && SafeEditor(r, m) && !m.showHelp && m.screen.TopLevel? && m.screen.tab == Pipelines
    ensures GoodFields(PIPELINE_FIELDS)
    ensures Run(r, m, [Press(Char('a'))] + [Event(Other, id, false)] + [Press(Enter)]) ==
            m.(screen := if Trim(id) == "" || Trim(id) in m.doc.pipelines then NameNewPipeline(id)
                         else EditPipeline(Trim(id), NewForm(None, false, PIPELINE_FIELDS, Obj(map[]), r.show)))
  {
    hide Run, OnKey, NewForm, Trim;
    RunOne(r, m, Press(Char('a')));
    NewPipelineIsNamed(r, m, id);
    RunSnoc(r, m, [Press(Char('a'))], Event(Other, id, false));
    NewPipelineIsNamed(r, m.(screen := NameNewPipeline("")), id);
    RunSnoc(r, m, [Press(Char('a'))] + [Event(Other, id, false)], Press(Enter));
    NewPipelineIsNamed(r, m.(screen := NameNewPipeline(id)), id);
  }

  // --- Templates

  /** T, Down to a template, Enter, an id, Enter to name it, Enter to take its parameters as they
      are and Enter to accept the receiver built from them. */
  function TemplateKeys(k: nat, id: string): seq<Event> {
    [Press(Char('T'))] + Downs(k) + [Press(Enter)] + [Event(Other, id, false)] + [Press(Enter)] + [Press(Enter)]
    + [Press(Enter)]
  }

  lemma TemplatesAreList(r: Catalog, m: Editor)
    requires Good(r) && !m.showHelp
    ensures ListScreen(r, m, (k: nat) => TemplateBrowse(k), |r.templates|)
  {
  }

  lemma BrowseOpens(r: Catalog, m: Editor)
    requires Good(r) && SafeEditor(r, m) && !m.showHelp && m.screen.TopLevel? && m.screen.tab == Receivers
    ensures OnKey(r, m, Press(Char('T'))) == m.(screen := TemplateBrowse(0))
  {
    hide IdsForTab;
  }

  lemma TemplateIsNamed(r: Catalog, m: Editor, k: nat, t: Template)
    requires Good(r) && !m.showHelp && m.screen == TemplateBrowse(k) && k < |r.templates|
    requires FindTemplate(r.templates, r.templates[k].key) == Some(t)
    ensures SafeEditor(r, m)
    ensures OnKey(r, m, Press(Enter)) ==
            m.(screen := NameTemplateReceiver(r.templates[k].key, r.templates[k].defaultId))
  {
    hide FindTemplate;
  }

  lemma TemplateTakesName(r: Catalog, m: Editor, key: string, input: string, t: Template, id: string)
    requires Good(r) && !m.showHelp && m.screen == NameTemplateReceiver(key, input)
    requires FindTemplate(r.templates, key) == Some(t)
    ensures SafeEditor(r, m)
    ensures OnKey(r, m, Event(Other, id, false)) == m.(screen := NameTemplateReceiver(key, id))
    ensures Trim(input) != "" && Trim(input) !in m.doc.receivers ==>
              OnKey(r, m, Press(Enter)) ==
              m.(screen := EditTemplateParams(key, Trim(input), ParamsForm(r, key, Obj(map[]))))
  {
    hide FindTemplate, ParamsForm, Trim;
  }

  lemma TemplateIsReviewed(r: Catalog, m: Editor, key: string, id: string, form: FormState, t: Template)
    requires Good(r) && !m.showHelp && m.screen == EditTemplateParams(key, id, form) && WellFormed(form)
    requires FindTemplate(r.templates, key) == Some(t)
    ensures SafeEditor(r, m)
    ensures var params := Obj(FormObject(form));
            OnKey(r, m, Press(Enter)) == m.(screen := ReviewTemplateReceiver(key, id, params, t.build(params)))
  {
    hide FindTemplate, WellFormed, FormObject;
  }

  lemma ReviewIsAccepted(r: Catalog, m: Editor, key: string, id: string, params: Json, receiver: Json, t: Template)
    requires Good(r) && !m.showHelp && m.screen == ReviewTemplateReceiver(key, id, params, receiver)
    requires FindTemplate(r.templates, key) == Some(t)
    ensures SafeEditor(r, m)
    ensures OnKey(r, m, Press(Enter)) ==
            m.(doc := Put(m.doc, Receiver, id, receiver), dirty := true, screen := TopLevel(Receivers, 0))
  {
    hide FindTemplate, ParamsForm, Put;
  }

  /** A template's defaults, under a new id, add the receiver it builds from them and nothing else. */
  lemma AddingFromTemplate(r: Catalog, m: Editor, k: nat, id: string, t: Template)
    requires Good(r) && SafeEditor(r, m) && !m.showHelp && m.screen.TopLevel? && m.screen.tab == Receivers
    requires k < |r.templates| && FindTemplate(r.templates, r.templates[k].key) == Some(t)
    requires Trim(id) != "" && Trim(id) !in m.doc.receivers
    ensures GoodFields(t.params) && WellFormed(NewForm(None, false, t.params, Obj(map[]), r.show))
    ensures var params := Obj(FormObject(NewForm(None, false, t.params, Obj(map[]), r.show)));
            Run(r, m, TemplateKeys(k, id)) ==
            m.(doc := m.doc.(receivers := m.doc.receivers[Trim(id) := t.build(params)]), dirty := true,
               screen := TopLevel(Receivers, 0))
  {
    hide Run, OnKey, Safe, ListScreen, Downs, NewForm, FormObject, WellFormed, Trim, FindTemplate;
    var key := r.templates[k].key;
    FoundTemplateIsGood(r.templates, key);
    NewFormIsSafe(None, false, t.params, Obj(map[]), r.show);
    var form := NewForm(None, false, t.params, Obj(map[]), r.show);
    assert ParamsForm(r, key, Obj(map[])) == form;
    RunOne(r, m, Press(Char('T')));
    BrowseOpens(r, m);
    TemplatesAreList(r, m.(screen := TemplateBrowse(0)));
    DownsSelect(r, m.(screen := TemplateBrowse(0)), (i: nat) => TemplateBrowse(i), |r.templates|, k);
    var es := [Press(Char('T'))] + Downs(k);
    RunBoth(r, m, [Press(Char('T'))], Downs(k));
    RunSnoc(r, m, es, Press(Enter));
    TemplateIsNamed(r, m.(screen := TemplateBrowse(k)), k, t);
    RunSnoc(r, m, es + [Press(Enter)], Event(Other, id, false));
    TemplateTakesName(r, m.(screen := NameTemplateReceiver(key, r.templates[k].defaultId)), key,
                      r.templates[k].defaultId, t, id);
    var named := es + [Press(Enter)] + [Event(Other, id, false)];
    RunSnoc(r, m, named, Press(Enter));
    TemplateTakesName(r, m.(screen := NameTemplateReceiver(key, id)), key, id, t, id);
    RunSnoc(r, m, named + [Press(Enter)], Press(Enter));
    TemplateIsReviewed(r, m.(screen := EditTemplateParams(key, Trim(id), form)), key, Trim(id), form, t);
    RunSnoc(r, m, named + [Press(Enter)] + [Press(Enter)], Press(Enter));
    var params := Obj(FormObject(form));
    ReviewIsAccepted(r, m.(screen := ReviewTemplateReceiver(key, Trim(id), params, t.build(params))), key, Trim(id),
                     params, t.build(params), t);
  }

  /** Esc at the review goes back to the parameters, which hold what they held as far as it fits. */
  lemma ReviewGoesBack(r: Catalog, m: Editor, t: Template, i: nat)
    requires Good(r) && SafeEditor(r, m) && !m.showHelp && m.screen.ReviewTemplateReceiver?
    requires FindTemplate(r.templates, m.screen.templateKey) == Some(t) && i < |t.params| && PrefixFree(t.params, false)
    ensures var after := OnKey(r, m, Press(Esc));
            && after == m.(screen := after.screen) && after.screen.EditTemplateParams?
            && after.screen.templateKey == m.screen.templateKey && after.screen.id == m.screen.id
            && WellFormed(after.screen.form)
            && var path, form := t.params[i].key, after.screen.form;
            && (GetPath(Obj(FormObject(form)), path) == GetPath(m.screen.params, path) <==>
                Fits(t.params[i], GetPath(m.screen.params, path)))
  {
    hide FormObject, WellFormed, GetPath, Fits, PrefixFree, FindTemplate;
    FoundTemplateIsGood(r.templates, m.screen.templateKey);
    NewFormIsWellFormed(None, false, t.params, m.screen.params, r.show);
    ListedSurvivesIff(FormType(None, false, t.params), m.screen.params, r.show, i);
  }

  // --- Help

  /** ? and then any key at all leave everything as it was. */
  lemma HelpChangesNothing(r: Catalog, m: Editor, e: Event)
    requires Good(r) && SafeEditor(r, m) && !m.showHelp && AcceptsHelp(m.screen)
    ensures Run(r, m, [Press(Char('?'))] + [e]) == m
  {
    hide HandleKey, Safe, Run;
    RunOne(r, m, Press(Char('?')));
    RunSnoc(r, m, [Press(Char('?'))], e);
  }

  // --- Leaving

  /** How many screens away the top level is. */
  function Depth(s: Screen): nat {
    match s
    case TopLevel(_, _) => 0
    case OperatorList(_, _, _, _) | ReviewTemplateReceiver(_, _, _, _) => 2
    case OperatorPickType(_, _, _, _) | OperatorEdit(_, _, _, _, _) => 3
    case _ => 1
  }

  /** The tab a screen was reached from. */
  function Home(s: Screen): TopTab {
    match s
    case TopLevel(tab, _) => tab
    case PickType(c, _) => TabFor(c)
    case NameNewComponent(c, _, _) => TabFor(c)
    case EditComponent(c, _, _) => TabFor(c)
    case ConfirmRemove(c, _, _) => TabFor(c)
    case OperatorList(c, _, _, _) => TabFor(c)
    case OperatorPickType(c, _, _, _) => TabFor(c)
    case OperatorEdit(c, _, _, _, _) => TabFor(c)
    case NameNewPipeline(_) => Pipelines
    case EditPipeline(_, _) => Pipelines
    case _ => Receivers
  }

  /** Declining a removal, with any key but y, shows the component's tab and changes nothing. */
  lemma DecliningChangesNothing(r: Catalog, m: Editor, e: Event)
    requires Good(r) && SafeEditor(r, m) && !m.showHelp && m.screen.ConfirmRemove?
    requires e.key != Char('y') && e.key != Char('?')
    ensures OnKey(r, m, e) == m.(screen := TopLevel(Home(m.screen), 0))
  {
  }

  /** Leaving an operator's form leaves the operators as they were, and that one selected. */
  lemma CancellingOperatorKeepsAll(r: Catalog, m: Editor)
    requires Good(r) && SafeEditor(r, m) && !m.showHelp && m.screen.OperatorEdit?
    ensures OnKey(r, m, Press(Esc)) ==
            m.(screen := OperatorList(m.screen.category, m.screen.id, m.screen.form, m.screen.index.GetOr(0)))
  {
    hide WellFormed, OperatorsOf;
  }

  ghost predicate GoesBack(m: Editor, after: Editor) {
    && after == m.(screen := after.screen, shouldQuit := after.shouldQuit)
    && Home(after.screen) == Home(m.screen)
    && if m.screen.TopLevel? then after.shouldQuit && after.screen == m.screen
       else Depth(after.screen) == Depth(m.screen) - 1 && after.shouldQuit == m.shouldQuit
  }

  predicate AtOperators(s: Screen) {
    s.OperatorList? || s.OperatorPickType? || s.OperatorEdit?
  }

  lemma EscGoesBackAtOperators(r: Catalog, m: Editor)
    requires Good(r) && SafeEditor(r, m) && !m.showHelp && AtOperators(m.screen)
    ensures GoesBack(m, OnKey(r, m, Press(Esc)))
  {
    hide WellFormed, NewForm, OperatorsOf, FormObject, FindTemplate, AdvanceFocus;
  }

  lemma EscGoesBackElsewhere(r: Catalog, m: Editor)
    requires Good(r) && SafeEditor(r, m) && !m.showHelp && !AtOperators(m.screen)
    ensures GoesBack(m, OnKey(r, m, Press(Esc)))
  {
    hide WellFormed, IdsForTab, NewForm, FormObject, FindTemplate, ParamsForm, Navigate, DeleteSelected, ToJson,
         OperatorListStep, OperatorPickTypeStep, OperatorEditStep;
  }

  lemma EscGoesBack(r: Catalog, m: Editor)
    requires Good(r) && SafeEditor(r, m) && !m.showHelp
    ensures GoesBack(m, OnKey(r, m, Press(Esc)))
  {
    hide GoesBack, OnKey, Safe;
    if AtOperators(m.screen) {
      EscGoesBackAtOperators(r, m);
    } else {
      EscGoesBackElsewhere(r, m);
    }
  }

  function Escs(k: nat): seq<Event> {
    if k == 0 then [] else [Press(Esc)] + Escs(k - 1)
  }

  /** From any screen, Esc pressed once more than the screen is deep leaves the editor from the
      tab the screen was reached from, with the document and whether it is saved as they were. */
  lemma {:induction false} EscsLeave(r: Catalog, m: Editor)
    requires Good(r) && SafeEditor(r, m) && !m.showHelp
    ensures var after := Run(r, m, Escs(Depth(m.screen) + 1));
            after == m.(screen := after.screen, shouldQuit := true) && after.screen.TopLevel?
            && after.screen.tab == Home(m.screen)
    decreases Depth(m.screen)
  {
    hide Run, OnKey, Safe;
    var rest := Escs(Depth(m.screen));
    EscGoesBack(r, m);
    KeyStaysSafe(r, m, Press(Esc));
    RunOne(r, m, Press(Esc));
    RunBoth(r, m, [Press(Esc)], rest);
    if Depth(m.screen) == 0 {
      RunSnoc(r, OnKey(r, m, Press(Esc)), [], Press(Esc));
    } else {
      EscsLeave(r, OnKey(r, m, Press(Esc)));
    }
  }
}

/**
 The config editor as a state machine over its screens (crates/collector/src/editor/
 app.rs): what each key does, and what holds after every key of every session. Component
 types and templates are parameters; a text input's new text and the outcome of a save
 come with the key.
 */
module EditorModel {
  import opened Options
  import opened Text
  import opened StringOrder
  import opened JsonTree
  import opened Forms
  import opened FormEditing
  import opened EditorDocument

  datatype TypeSpec = TypeSpec(name: string, fields: seq<FieldSpec>)

  datatype Template = Template(key: string, defaultId: string, params: seq<FieldSpec>, build: Json -> Json)

  /** The tables of schema_registry.rs and templates.rs, and how JSON is printed. */
  datatype Catalog = Catalog(receivers: seq<TypeSpec>, exporters: seq<TypeSpec>, extensions: seq<TypeSpec>,
                               operators: seq<TypeSpec>, templates: seq<Template>, show: Printer)

  predicate GoodFields(fields: seq<FieldSpec>) {
    forall i :: 0 <= i < |fields| ==> WellFormedSpec(fields[i])
  }

  predicate GoodTypes(types: seq<TypeSpec>) {
    forall i :: 0 <= i < |types| ==> GoodFields(types[i].fields)
  }

  predicate Good(r: Catalog) {
    && GoodTypes(r.receivers) && GoodTypes(r.exporters) && GoodTypes(r.extensions) && GoodTypes(r.operators)
    && forall i :: 0 <= i < |r.templates| ==> GoodFields(r.templates[i].params)
  }

  function TypesFor(r: Catalog, c: Category): seq<TypeSpec> {
    match c case Receiver => r.receivers case Exporter => r.exporters case Extension => r.extensions
  }

  /** types.iter().find: the first of that name. */
  function FindType(types: seq<TypeSpec>, name: string): Option<TypeSpec> {
    if types == [] then None else if types[0].name == name then Some(types[0]) else FindType(types[1..], name)
  }

  function FindTemplate(templates: seq<Template>, key: string): Option<Template> {
    if templates == [] then None else if templates[0].key == key then Some(templates[0])
      else FindTemplate(templates[1..], key)
  }

  /** The part of an id before its first slash. */
  function ComponentType(id: string): string {
    Split(id, '/')[0]
  }

  /** The id is the name, or the name, a slash and more. */
  predicate NamedBy(name: string, id: string) {
    Plain(name, '/') && (id == name || name + "/" <= id)
  }

  lemma ComponentTypeNames(id: string, name: string)
    ensures ComponentType(id) == name <==> NamedBy(name, id)
  {
    var parts := Split(id, '/');
    JoinSplit(id, '/');
    assert parts[0] in parts;
    assert |parts| > 1 ==> id == parts[0] + "/" + Join(parts[1..], "/");
    if NamedBy(name, id) {
      if id == name {
        SplitPlain(id, '/');
      } else {
        var rest := id[|name|..];
        assert id == name + rest && rest[0] == '/';
        SplitPlainPrefix(name, rest, '/');
        assert name + "" == name;
      }
    }
  }

  predicate FirstNamed(types: seq<TypeSpec>, name: string, k: nat) {
    k < |types| && types[k].name == name && forall j :: 0 <= j < k ==> types[j].name != name
  }

  lemma {:induction false} FoundTypeIsFirst(types: seq<TypeSpec>, name: string)
    ensures match FindType(types, name)
            case None => forall j :: 0 <= j < |types| ==> types[j].name != name
            case Some(t) => exists k :: 0 <= k < |types| && FirstNamed(types, name, k) && types[k] == t
  {
    if types != [] && types[0].name != name {
      FoundTypeIsFirst(types[1..], name);
      var found := FindType(types[1..], name);
      if found.None? {
        forall j | 0 <= j < |types| ensures types[j].name != name { assert j > 0 ==> types[j] == types[1..][j - 1]; }
      } else {
        var k :| 0 <= k < |types[1..]| && FirstNamed(types[1..], name, k) && types[1..][k] == found.value;
        forall j | 0 <= j < k + 1 ensures types[j].name != name { assert j > 0 ==> types[j] == types[1..][j - 1]; }
        assert FirstNamed(types, name, k + 1);
      }
    } else if types != [] {
      assert FirstNamed(types, name, 0);
    }
  }

  const PIPELINE_FIELDS: seq<FieldSpec> := [FieldSpec(["receivers"], StringListField, false, None),
                                            FieldSpec(["exporters"], StringListField, false, None)]

  // --- Tabs

  datatype TopTab = Receivers | Exporters | Extensions | Pipelines

  function TabCategory(t: TopTab): Option<Category> {
    match t case Receivers => Some(Receiver) case Exporters => Some(Exporter) case Extensions => Some(Extension)
      case Pipelines => None
  }

  function NextTab(t: TopTab): TopTab {
    match t case Receivers => Exporters case Exporters => Extensions case Extensions => Pipelines
      case Pipelines => Receivers
  }

  function PreviousTab(t: TopTab): TopTab {
    match t case Receivers => Pipelines case Exporters => Receivers case Extensions => Exporters
      case Pipelines => Extensions
  }

  function TabFor(c: Category): TopTab {
    match c case Receiver => Receivers case Exporter => Exporters case Extension => Extensions
  }

  /** Every category is listed on its own tab and offers its own types. */
  lemma CategoriesAreSeparate(r: Catalog, doc: EditorDoc, c: Category)
    ensures Table(doc, TabFor(c)) == MapFor(doc, c) && Table(doc, Pipelines) == doc.pipelines
    ensures r == r.(receivers := TypesFor(r, Receiver), exporters := TypesFor(r, Exporter),
                    extensions := TypesFor(r, Extension))
  {
  }

  /** The tabs form a ring of four, and every category has its own. */
  lemma TabsCycle(t: TopTab, c: Category)
    ensures PreviousTab(NextTab(t)) == t && NextTab(PreviousTab(t)) == t
    ensures NextTab(t) != t && NextTab(NextTab(t)) != t && NextTab(NextTab(NextTab(NextTab(t)))) == t
    ensures NextTab(Receivers) == Exporters && NextTab(Exporters) == Extensions && NextTab(Extensions) == Pipelines
    ensures TabCategory(TabFor(c)) == Some(c)
  {
  }

  function Table(doc: EditorDoc, t: TopTab): Object {
    match TabCategory(t) case Some(c) => MapFor(doc, c) case None => doc.pipelines
  }

  function IdsForTab(doc: EditorDoc, t: TopTab): seq<string> {
    Sorted(Table(doc, t).Keys)
  }

  // --- Screens

  datatype Screen =
    | TopLevel(tab: TopTab, selected: nat)
    | PickType(category: Category, selected: nat)
    | NameNewComponent(category: Category, typeName: string, input: string)
    | NameNewPipeline(input: string)
    | EditComponent(category: Category, id: string, form: FormState)
    | EditPipeline(id: string, form: FormState)
    | ConfirmRemove(category: Category, id: string, blocking: seq<string>)
    | OperatorList(category: Category, id: string, form: FormState, selected: nat)
    | OperatorPickType(category: Category, id: string, form: FormState, selected: nat)
    | OperatorEdit(category: Category, id: string, form: FormState, index: Option<nat>, opForm: FormState)
    | TemplateBrowse(selected: nat)
    | NameTemplateReceiver(templateKey: string, input: string)
    | EditTemplateParams(templateKey: string, id: string, form: FormState)
    | ReviewTemplateReceiver(templateKey: string, id: string, params: Json, receiver: Json)

  /** 0 or inside the list. */
  predicate Selects(selected: nat, n: nat) {
    selected == 0 || selected < n
  }

  /** Selections, focus and choices are in range, forms match their specs one to one, and
      whatever will be looked up is there. */
  ghost predicate Safe(r: Catalog, doc: EditorDoc, s: Screen) {
    match s
    case TopLevel(tab, selected) => Selects(selected, |IdsForTab(doc, tab)|)
    case PickType(c, selected) => Selects(selected, |TypesFor(r, c)|)
    case NameNewComponent(c, name, _) => FindType(TypesFor(r, c), name).Some?
    case NameNewPipeline(_) => true
    case EditComponent(_, _, form) => WellFormed(form)
    case EditPipeline(_, form) => WellFormed(form) && form.specs == PIPELINE_FIELDS && form.typeName.None?
    case ConfirmRemove(_, _, _) => true
    case OperatorList(_, _, form, selected) => WellFormed(form) && Selects(selected, |OperatorsOf(form)|)
    case OperatorPickType(_, _, form, selected) => WellFormed(form) && Selects(selected, |r.operators|)
    case OperatorEdit(_, _, form, index, opForm) => WellFormed(form) && WellFormed(opForm)
      && (index.Some? ==> index.value < |OperatorsOf(form)|)
    case TemplateBrowse(selected) => Selects(selected, |r.templates|)
    case NameTemplateReceiver(key, _) => FindTemplate(r.templates, key).Some?
    case EditTemplateParams(key, _, form) => FindTemplate(r.templates, key).Some? && WellFormed(form)
    case ReviewTemplateReceiver(key, _, _, _) => FindTemplate(r.templates, key).Some?
  }

  /** The editor. `saved` is the tree last loaded from or written to the file. */
  datatype Editor = Editor(doc: EditorDoc, screen: Screen, dirty: bool, shouldQuit: bool, showHelp: bool, saved: Json)

  /** A key, what it makes of a text input, and whether a save it starts succeeds. */
  datatype Event = Event(key: Key, typed: string, saveOk: bool)

  ghost predicate SafeEditor(r: Catalog, m: Editor) {
    Safe(r, m.doc, m.screen)
  }

  // --- What the keys do

  function Below(selected: nat, n: nat): nat {
    if n == 0 then 0 else if selected + 1 < n then selected + 1 else n - 1
  }

  function Above(selected: nat): nat {
    if selected > 0 then selected - 1 else 0
  }

  /** The form a listed component opens in: its type's, or the first type's if unknown. */
  function SpecFor(r: Catalog, c: Category, id: string): Option<TypeSpec> {
    var types := TypesFor(r, c);
    var found := FindType(types, ComponentType(id));
    if found.Some? then found else if types == [] then None else Some(types[0])
  }

  function OpenSelected(r: Catalog, doc: EditorDoc, tab: TopTab, id: string): Option<Screen>
    requires Good(r) && id in Table(doc, tab)
  {
    var value := Table(doc, tab)[id];
    match TabCategory(tab)
    case None => Some(EditPipeline(id, NewForm(None, false, PIPELINE_FIELDS, value, r.show)))
    case Some(c) =>
      var spec := SpecFor(r, c, id);
      if spec.None? then None else
        SpecForIsGood(r, c, id);
        Some(EditComponent(c, id, NewForm(Some(spec.value.name), false, spec.value.fields, value, r.show)))
  }

  lemma {:induction false} FoundTypeIsGood(types: seq<TypeSpec>, name: string)
    requires GoodTypes(types)
    ensures FindType(types, name).Some? ==>
            GoodFields(FindType(types, name).value.fields) && FindType(types, name).value.name == name
  {
    if types != [] && types[0].name != name { FoundTypeIsGood(types[1..], name); }
  }

  lemma SpecForIsGood(r: Catalog, c: Category, id: string)
    requires Good(r)
    ensures SpecFor(r, c, id).Some? ==> GoodFields(SpecFor(r, c, id).value.fields)
  {
    FoundTypeIsGood(TypesFor(r, c), ComponentType(id));
  }

  lemma {:induction false} FoundTemplateIsGood(templates: seq<Template>, key: string)
    requires forall i :: 0 <= i < |templates| ==> GoodFields(templates[i].params)
    ensures FindTemplate(templates, key).Some? ==> GoodFields(FindTemplate(templates, key).value.params)
  {
    if templates != [] && templates[0].key != key { FoundTemplateIsGood(templates[1..], key); }
  }

  lemma SelectedIsListed(doc: EditorDoc, tab: TopTab, selected: nat)
    requires selected < |IdsForTab(doc, tab)|
    ensures IdsForTab(doc, tab)[selected] in Table(doc, tab)
  {
    SortedHasAll(Table(doc, tab).Keys);
  }

  function DeleteSelected(m: Editor, tab: TopTab, id: string): Editor {
    match TabCategory(tab)
    case Some(c) =>
      var blocking := PipelinesReferencing(m.doc, c, id);
      if blocking == [] then m.(doc := Remove(m.doc, c, id), dirty := true, screen := TopLevel(tab, 0))
      else m.(screen := ConfirmRemove(c, id, blocking))
    case None => m.(doc := m.doc.(pipelines := m.doc.pipelines - {id}), dirty := true, screen := TopLevel(tab, 0))
  }

  /** The screen a key at the top level leads to, for the keys that change nothing else. */
  function Navigate(r: Catalog, doc: EditorDoc, tab: TopTab, selected: nat, key: Key): Screen
    requires Good(r)
  {
    var ids := IdsForTab(doc, tab);
    match key
    case Tab => TopLevel(NextTab(tab), 0)
    case BackTab => TopLevel(PreviousTab(tab), 0)
    case Down => TopLevel(tab, Below(selected, |ids|))
    case Up => TopLevel(tab, Above(selected))
    case Enter =>
      if selected >= |ids| then TopLevel(tab, selected) else
        SelectedIsListed(doc, tab, selected);
        OpenSelected(r, doc, tab, ids[selected]).GetOr(TopLevel(tab, selected))
    case Char(c) =>
      if c == 'a' && TabCategory(tab).Some? then PickType(TabCategory(tab).value, 0)
      else if c == 'a' then NameNewPipeline("")
      else if c == 'T' && tab == Receivers then TemplateBrowse(0)
      else TopLevel(tab, selected)
    case _ => TopLevel(tab, selected)
  }

  function TopLevelStep(r: Catalog, m: Editor, tab: TopTab, selected: nat, e: Event): Editor
    requires Good(r)
  {
    var ids := IdsForTab(m.doc, tab);
    var stay := m.(screen := TopLevel(tab, selected));
    if e.key in {Char('q'), Esc} then stay.(shouldQuit := true)
    else if e.key in {Char('d'), Delete} then if selected < |ids| then DeleteSelected(m, tab, ids[selected]) else stay
    else if e.key == Char('s') then if e.saveOk then stay.(saved := ToJson(m.doc), dirty := false) else stay
    else m.(screen := Navigate(r, m.doc, tab, selected, e.key))
  }

  function PickTypeStep(r: Catalog, c: Category, selected: nat, key: Key): Screen {
    var types := TypesFor(r, c);
    match key
    case Esc => TopLevel(TabFor(c), 0)
    case Down => PickType(c, Below(selected, |types|))
    case Up => PickType(c, Above(selected))
    case Enter => if selected < |types| then NameNewComponent(c, types[selected].name, "") else PickType(c, selected)
    case _ => PickType(c, selected)
  }

  function NameNewComponentStep(r: Catalog, doc: EditorDoc, c: Category, typeName: string, input: string,
                                e: Event): Screen
    requires Good(r) && FindType(TypesFor(r, c), typeName).Some?
  {
    match e.key
    case Esc => TopLevel(TabFor(c), 0)
    case Enter =>
      var id := Trim(input);
      if id == "" || id in MapFor(doc, c) then NameNewComponent(c, typeName, input) else
        FoundTypeIsGood(TypesFor(r, c), typeName);
        var spec := FindType(TypesFor(r, c), typeName).value;
        EditComponent(c, id, NewForm(Some(typeName), false, spec.fields, Obj(Seeded(spec.fields)), r.show))
    case _ => NameNewComponent(c, typeName, e.typed)
  }

  function NameNewPipelineStep(r: Catalog, doc: EditorDoc, input: string, e: Event): Screen {
    match e.key
    case Esc => TopLevel(Pipelines, 0)
    case Enter =>
      var id := Trim(input);
      if id == "" || id in doc.pipelines then NameNewPipeline(input)
      else EditPipeline(id, NewForm(None, false, PIPELINE_FIELDS, Obj(map[]), r.show))
    case _ => NameNewPipeline(e.typed)
  }

  function EditComponentStep(m: Editor, c: Category, id: string, form: FormState, e: Event): Editor
    requires WellFormed(form)
  {
    if e.key == Enter && form.focused < |form.specs| && form.specs[form.focused].kind == OperatorListField then
      m.(screen := OperatorList(c, id, form, 0))
    else
      var (form', outcome) := FormKey(form, e.key, e.typed);
      match outcome
      case Continue => m.(screen := EditComponent(c, id, form'))
      case Cancel => m.(screen := TopLevel(TabFor(c), 0))
      case Submit => m.(doc := Put(m.doc, c, id, Obj(FormObject(form))), dirty := true,
                        screen := TopLevel(TabFor(c), 0))
  }

  function EditPipelineStep(m: Editor, id: string, form: FormState, e: Event): Editor
    requires WellFormed(form)
  {
    var (form', outcome) := FormKey(form, e.key, e.typed);
    match outcome
    case Continue => m.(screen := EditPipeline(id, form'))
    case Cancel => m.(screen := TopLevel(Pipelines, 0))
    case Submit =>
      m.(doc := m.doc.(pipelines := m.doc.pipelines[id := Obj(FormObject(form))]), dirty := true,
         screen := TopLevel(Pipelines, 0))
  }

  function ConfirmRemoveStep(m: Editor, c: Category, id: string, key: Key): Editor {
    if key == Char('y') then m.(doc := Remove(Strip(m.doc, c, id), c, id), dirty := true,
                                screen := TopLevel(TabFor(c), 0))
    else m.(screen := TopLevel(TabFor(c), 0))
  }

  function OperatorListStep(r: Catalog, c: Category, id: string, form: FormState, selected: nat, key: Key): Screen
    requires Good(r)
  {
    var ops, stay := OperatorsOf(form), OperatorList(c, id, form, selected);
    if key == Esc then EditComponent(c, id, AdvanceFocus(form))
    else if key == Down then OperatorList(c, id, form, Below(selected, |ops|))
    else if key == Up then OperatorList(c, id, form, Above(selected))
    else if key == Char('a') then OperatorPickType(c, id, form, 0)
    else if key == Enter then
      if selected >= |ops| then stay else
        var spec := FindType(r.operators, TextOf(Member(ops[selected], "type")).GetOr(""));
        FoundTypeIsGood(r.operators, TextOf(Member(ops[selected], "type")).GetOr(""));
        if spec.None? then stay else
          OperatorEdit(c, id, form, Some(selected),
                       NewForm(Some(spec.value.name), true, spec.value.fields, ops[selected], r.show))
    else if key in {Char('d'), Delete} then
      OperatorList(c, id, if selected < |ops| then SetOperators(form, ops[..selected] + ops[selected + 1..])
                   else form, 0)
    else stay
  }

  function OperatorPickTypeStep(r: Catalog, c: Category, id: string, form: FormState, selected: nat, key: Key): Screen
    requires Good(r)
  {
    match key
    case Esc => OperatorList(c, id, form, 0)
    case Down => OperatorPickType(c, id, form, Below(selected, |r.operators|))
    case Up => OperatorPickType(c, id, form, Above(selected))
    case Enter =>
      if selected >= |r.operators| then OperatorPickType(c, id, form, selected) else
        var spec := r.operators[selected];
        OperatorEdit(c, id, form, None, NewForm(Some(spec.name), true, spec.fields, Obj(Seeded(spec.fields)), r.show))
    case _ => OperatorPickType(c, id, form, selected)
  }

  function OperatorEditStep(c: Category, id: string, form: FormState, index: Option<nat>, opForm: FormState,
                            e: Event): Screen
    requires WellFormed(opForm)
  {
    var (opForm', outcome) := FormKey(opForm, e.key, e.typed);
    match outcome
    case Continue => OperatorEdit(c, id, form, index, opForm')
    case Cancel => OperatorList(c, id, form, index.GetOr(0))
    case Submit =>
      var ops, value := OperatorsOf(form), Obj(FormObject(opForm));
      if index.Some? && index.value < |ops| then
        OperatorList(c, id, SetOperators(form, ops[index.value := value]), index.value)
      else OperatorList(c, id, SetOperators(form, ops + [value]), |ops|)
  }

  function TemplateBrowseStep(r: Catalog, selected: nat, key: Key): Screen {
    match key
    case Esc => TopLevel(Receivers, 0)
    case Down => TemplateBrowse(Below(selected, |r.templates|))
    case Up => TemplateBrowse(Above(selected))
    case Enter =>
      if selected < |r.templates| then NameTemplateReceiver(r.templates[selected].key, r.templates[selected].defaultId)
      else TemplateBrowse(selected)
    case _ => TemplateBrowse(selected)
  }

  function ParamsForm(r: Catalog, key: string, params: Json): FormState
    requires Good(r) && FindTemplate(r.templates, key).Some?
  {
    FoundTemplateIsGood(r.templates, key);
    NewForm(None, false, FindTemplate(r.templates, key).value.params, params, r.show)
  }

  function NameTemplateStep(r: Catalog, doc: EditorDoc, key: string, input: string, e: Event): Screen
    requires Good(r) && FindTemplate(r.templates, key).Some?
  {
    match e.key
    case Esc => TopLevel(Receivers, 0)
    case Enter =>
      var id := Trim(input);
      if id == "" || id in doc.receivers then NameTemplateReceiver(key, input)
      else EditTemplateParams(key, id, ParamsForm(r, key, Obj(map[])))
    case _ => NameTemplateReceiver(key, e.typed)
  }

  function EditParamsStep(r: Catalog, key: string, id: string, form: FormState, e: Event): Screen
    requires FindTemplate(r.templates, key).Some? && WellFormed(form)
  {
    var (form', outcome) := FormKey(form, e.key, e.typed);
    match outcome
    case Continue => EditTemplateParams(key, id, form')
    case Cancel => TopLevel(Receivers, 0)
    case Submit =>
      var params := Obj(FormObject(form));
      ReviewTemplateReceiver(key, id, params, FindTemplate(r.templates, key).value.build(params))
  }

  function ReviewStep(r: Catalog, m: Editor, key: string, id: string, params: Json, receiver: Json, e: Event): Editor
    requires Good(r) && FindTemplate(r.templates, key).Some?
  {
    if e.key == Enter then m.(doc := Put(m.doc, Receiver, id, receiver), dirty := true,
                              screen := TopLevel(Receivers, 0))
    else if e.key == Esc then m.(screen := EditTemplateParams(key, id, ParamsForm(r, key, params)))
    else m.(screen := ReviewTemplateReceiver(key, id, params, receiver))
  }

  function HandleKey(r: Catalog, m: Editor, e: Event): Editor
    requires Good(r) && SafeEditor(r, m)
  {
    match m.screen
    case TopLevel(tab, selected) => TopLevelStep(r, m, tab, selected, e)
    case PickType(c, selected) => m.(screen := PickTypeStep(r, c, selected, e.key))
    case NameNewComponent(c, typeName, input) => m.(screen := NameNewComponentStep(r, m.doc, c, typeName, input, e))
    case NameNewPipeline(input) => m.(screen := NameNewPipelineStep(r, m.doc, input, e))
    case EditComponent(c, id, form) => EditComponentStep(m, c, id, form, e)
    case EditPipeline(id, form) => EditPipelineStep(m, id, form, e)
    case ConfirmRemove(c, id, _) => ConfirmRemoveStep(m, c, id, e.key)
    case OperatorList(c, id, form, selected) => m.(screen := OperatorListStep(r, c, id, form, selected, e.key))
    case OperatorPickType(c, id, form, selected) => m.(screen := OperatorPickTypeStep(r, c, id, form, selected, e.key))
    case OperatorEdit(c, id, form, index, opForm) => m.(screen := OperatorEditStep(c, id, form, index, opForm, e))
    case TemplateBrowse(selected) => m.(screen := TemplateBrowseStep(r, selected, e.key))
    case NameTemplateReceiver(key, input) => m.(screen := NameTemplateStep(r, m.doc, key, input, e))
    case EditTemplateParams(key, id, form) => m.(screen := EditParamsStep(r, key, id, form, e))
    case ReviewTemplateReceiver(key, id, params, receiver) => ReviewStep(r, m, key, id, params, receiver, e)
  }

  predicate AcceptsHelp(s: Screen) {
    s.TopLevel? || s.PickType? || s.ConfirmRemove? || s.OperatorList? || s.OperatorPickType? || s.TemplateBrowse?
  }

  function OnKey(r: Catalog, m: Editor, e: Event): Editor
    requires Good(r) && SafeEditor(r, m)
  {
    if m.showHelp then m.(showHelp := false)
    else if e.key == Char('?') && AcceptsHelp(m.screen) then m.(showHelp := true)
    else HandleKey(r, m, e)
  }
}

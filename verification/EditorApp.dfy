/**
 The editor's App object (crates/collector/src/editor/app.rs): handlers that take the screen,
 change the document in place and return the next screen, proved against the state machine
 of module EditorModel. The file it edits is a file on a disk that can fail.
 */
module EditorApp {
  import opened FileSystem
  import opened JsonTree
  import opened Forms
  import opened FormEditing
  import opened EditorDocument
  import opened M = EditorModel
  import Sessions = EditorSessions

  /** The YAML library. */
  datatype Codec = Codec(yaml: Json -> string, parse: string -> Json)

  /** Parsing what was printed gives it back. */
  ghost predicate Faithful(codec: Codec) {
    forall v :: codec.parse(codec.yaml(v)) == v
  }

  /** What loading the file reads; a missing file is an empty document, as Null is. */
  function Loaded(files: Files, path: string, codec: Codec): Json {
    match ContentOf(files, path)
    case None => Null
    case Some(text) => codec.parse(text)
  }

  /** The handlers are handed the screen; what the object holds meanwhile does not matter. */
  lemma StepsIgnoreScreen(r: Catalog, m: Editor, s: Screen, e: Event)
    requires Good(r) && Safe(r, m.doc, s)
    ensures var n := m.(screen := s);
            match s
            case TopLevel(tab, selected) => TopLevelStep(r, n, tab, selected, e) == TopLevelStep(r, m, tab, selected, e)
            case EditComponent(c, id, form) =>
              EditComponentStep(n, c, id, form, e) == EditComponentStep(m, c, id, form, e)
            case EditPipeline(id, form) => EditPipelineStep(n, id, form, e) == EditPipelineStep(m, id, form, e)
            case ConfirmRemove(c, id, _) => ConfirmRemoveStep(n, c, id, e.key) == ConfirmRemoveStep(m, c, id, e.key)
            case ReviewTemplateReceiver(key, id, params, receiver) =>
              ReviewStep(r, n, key, id, params, receiver, e) == ReviewStep(r, m, key, id, params, receiver, e)
            case _ => true
  {
    hide WellFormed, OperatorsOf, FormObject, IdsForTab, PipelinesReferencing, FindTemplate, ParamsForm, OpenSelected,
         Put, Remove, Strip, ToJson;
  }

  class App {
    const catalog: Catalog
    const disk: Disk
    const path: string
    const tmpPath: string
    const checkPath: string
    const codec: Codec
    var doc: EditorDoc
    var screen: Screen
    var dirty: bool
    var shouldQuit: bool
    var showHelp: bool

    /** The state the machine speaks of; what was last loaded or saved is what is on disk. */
    ghost function View(): Editor
      reads this, disk
    {
      Editor(doc, screen, dirty, shouldQuit, showHelp, Loaded(disk.files, path, codec))
    }

    ghost predicate Wired()
      reads disk
    {
      Good(catalog) && disk.Valid() && Faithful(codec) && path != tmpPath && path != checkPath && tmpPath != checkPath
    }

    /** Nothing the next key indexes or looks up is missing, and while the editor says it has
        no unsaved changes, the file on disk reads as its document. */
    ghost predicate Valid()
      reads this, disk
    {
      Wired() && SafeEditor(catalog, View()) && Sessions.Clean(View())
    }

    constructor (catalog: Catalog, disk: Disk, path: string, tmpPath: string, checkPath: string, codec: Codec)
      requires Good(catalog) && disk.Valid() && Faithful(codec)
      requires path != tmpPath && path != checkPath && tmpPath != checkPath
      ensures Valid() && this.disk == disk && this.path == path
      ensures View() == Sessions.Start(Loaded(disk.files, path, codec))
    {
      this.catalog := catalog;
      this.disk := disk;
      this.path, this.tmpPath, this.checkPath := path, tmpPath, checkPath;
      this.codec := codec;
      doc := Parse(Loaded(disk.files, path, codec));
      screen := TopLevel(Receivers, 0);
      dirty, shouldQuit, showHelp := false, false, false;
      new;
      Sessions.StartIsSafe(catalog, Loaded(disk.files, path, codec));
    }

    /** Why the document may not have been saved. */
    twostate predicate SavingHindered(doc: EditorDoc)
      reads disk
    {
      disk.Hindered(codec.yaml(Placeholder(ToJson(doc))))
    }

    /** `typed` is what the key makes of a text input; `e` also tells how a save went. */
    method OnKey(key: Key, typed: string) returns (e: Event)
      requires Valid()
      modifies this, disk
      ensures Valid()
      ensures e.key == key && e.typed == typed
      ensures View() == M.OnKey(catalog, old(View()), e)
      ensures key == Char('s') && old(screen).TopLevel? && !old(showHelp) ==> e.saveOk || SavingHindered(old(doc))
    {
      hide M.HandleKey;
      e := Event(key, typed, false);
      if showHelp {
        showHelp := false;
      } else if key == Char('?') && AcceptsHelp(screen) {
        showHelp := true;
      } else {
        var taken := screen;
        screen := TopLevel(Receivers, 0);
        var next;
        next, e := HandleKey(taken, key, typed);
        screen := next;
      }
      Sessions.KeyStaysSafe(catalog, old(View()), e);
      Sessions.KeyStaysClean(catalog, old(View()), e);
    }

    /** What a handler leaves behind once the screen it returns is shown. */
    ghost function With(next: Screen): Editor
      reads this, disk
    {
      View().(screen := next)
    }

    method HandleKey(taken: Screen, key: Key, typed: string) returns (next: Screen, e: Event)
      requires Wired() && Safe(catalog, doc, taken)
      modifies this`doc, this`dirty, this`shouldQuit, disk
      ensures Wired()
      ensures e.key == key && e.typed == typed
      ensures With(next) == M.HandleKey(catalog, old(With(taken)), e)
      ensures key == Char('s') && taken.TopLevel? ==> e.saveOk || SavingHindered(old(doc))
    {
      hide WellFormed, OperatorsOf, NewForm, FormObject, IdsForTab, PipelinesReferencing, Seeded, SetOperators,
           FindType, FindTemplate, ParamsForm, OpenSelected, Put, Remove, Strip, ToJson, TopLevelStep,
           EditComponentStep, EditPipelineStep, ConfirmRemoveStep, ReviewStep;
      StepsIgnoreScreen(catalog, View(), taken, Event(key, typed, false));
      StepsIgnoreScreen(catalog, View(), taken, Event(key, typed, true));
      e := Event(key, typed, false);
      match taken
      case TopLevel(tab, selected) => next, e := HandleTopLevel(tab, selected, key, typed);
      case PickType(c, selected) => next := PickTypeStep(catalog, c, selected, key);
      case NameNewComponent(c, typeName, input) => next := NameNewComponentStep(catalog, doc, c, typeName, input, e);
      case NameNewPipeline(input) => next := NameNewPipelineStep(catalog, doc, input, e);
      case EditComponent(c, id, form) => next := HandleEditComponent(c, id, form, key, typed);
      case EditPipeline(id, form) => next := HandleEditPipeline(id, form, key, typed);
      case ConfirmRemove(c, id, _) => next := HandleConfirmRemove(c, id, key);
      case OperatorList(c, id, form, selected) => next := OperatorListStep(catalog, c, id, form, selected, key);
      case OperatorPickType(c, id, form, selected) => next := OperatorPickTypeStep(catalog, c, id, form, selected, key);
      case OperatorEdit(c, id, form, index, opForm) => next := OperatorEditStep(c, id, form, index, opForm, e);
      case TemplateBrowse(selected) => next := TemplateBrowseStep(catalog, selected, key);
      case NameTemplateReceiver(template, input) => next := NameTemplateStep(catalog, doc, template, input, e);
      case EditTemplateParams(template, id, form) => next := EditParamsStep(catalog, template, id, form, e);
      case ReviewTemplateReceiver(template, id, params, receiver) =>
        next := HandleReview(template, id, params, receiver, key, typed);
    }

    /** Saving either makes the file read back as the document, and then nothing is unsaved, or
        changes neither. */
    method Save() returns (ok: bool)
      requires Wired()
      modifies this`dirty, disk
      ensures Wired()
      ensures ok ==> Parse(Loaded(disk.files, path, codec)) == doc && !dirty
      ensures Loaded(disk.files, path, codec) == if ok then ToJson(doc) else old(Loaded(disk.files, path, codec))
      ensures dirty == (old(dirty) && !ok)
      ensures ok || SavingHindered(doc)
    {
      ok := SaveWithBinary(disk, doc, path, tmpPath, checkPath, codec.yaml);
      ParseToJson(doc);
      if ok {
        dirty := false;
      }
    }

    method HandleTopLevel(tab: TopTab, selected: nat, key: Key, typed: string) returns (next: Screen, e: Event)
      requires Wired()
      modifies this`doc, this`dirty, this`shouldQuit, disk
      ensures Wired()
      ensures e.key == key && e.typed == typed
      ensures With(next) == TopLevelStep(catalog, old(View()), tab, selected, e)
      ensures key == Char('s') ==> e.saveOk || SavingHindered(old(doc))
    {
      hide IdsForTab, Navigate, DeleteSelected, ToJson, Parse, Loaded;
      e := Event(key, typed, false);
      next := TopLevel(tab, selected);
      if key == Char('q') || key == Esc {
        shouldQuit := true;
      } else if key == Char('d') || key == Delete {
        var ids := IdsForTab(doc, tab);
        if selected < |ids| {
          next := RemoveSelected(tab, ids[selected]);
        }
      } else if key == Char('s') {
        var ok := Save();
        e := Event(key, typed, ok);
      } else {
        next := Navigate(catalog, doc, tab, selected, key);
      }
    }

    method RemoveSelected(tab: TopTab, id: string) returns (next: Screen)
      modifies this`doc, this`dirty
      ensures With(next) == DeleteSelected(old(View()), tab, id)
    {
      if TabCategory(tab).None? {
        doc := doc.(pipelines := doc.pipelines - {id});
      } else {
        var c := TabCategory(tab).value;
        var blocking := PipelinesReferencing(doc, c, id);
        if blocking != [] {
          return ConfirmRemove(c, id, blocking);
        }
        doc := Remove(doc, c, id);
      }
      dirty := true;
      next := TopLevel(tab, 0);
    }

    method HandleEditComponent(c: Category, id: string, form: FormState, key: Key, typed: string) returns (next: Screen)
      requires WellFormed(form)
      modifies this`doc, this`dirty
      ensures With(next) == EditComponentStep(old(View()), c, id, form, Event(key, typed, false))
    {
      hide FormObject, WellFormed;
      if key == Enter && form.focused < |form.specs| && form.specs[form.focused].kind == OperatorListField {
        return OperatorList(c, id, form, 0);
      }
      var (form', outcome) := FormKey(form, key, typed);
      match outcome
      case Continue => next := EditComponent(c, id, form');
      case Cancel => next := TopLevel(TabFor(c), 0);
      case Submit =>
        var value := ToValue(form);
        doc := Put(doc, c, id, value);
        dirty := true;
        next := TopLevel(TabFor(c), 0);
    }

    method HandleEditPipeline(id: string, form: FormState, key: Key, typed: string) returns (next: Screen)
      requires WellFormed(form)
      modifies this`doc, this`dirty
      ensures With(next) == EditPipelineStep(old(View()), id, form, Event(key, typed, false))
    {
      hide FormObject, WellFormed;
      var (form', outcome) := FormKey(form, key, typed);
      match outcome
      case Continue => next := EditPipeline(id, form');
      case Cancel => next := TopLevel(Pipelines, 0);
      case Submit =>
        var value := ToValue(form);
        doc := doc.(pipelines := doc.pipelines[id := value]);
        dirty := true;
        next := TopLevel(Pipelines, 0);
    }

    method HandleConfirmRemove(c: Category, id: string, key: Key) returns (next: Screen)
      modifies this`doc, this`dirty
      ensures With(next) == ConfirmRemoveStep(old(View()), c, id, key)
    {
      if key == Char('y') {
        doc := StripFromPipelines(doc, c, id);
        doc := Remove(doc, c, id);
        dirty := true;
      }
      next := TopLevel(TabFor(c), 0);
    }

    method HandleReview(template: string, id: string, params: Json, receiver: Json, key: Key, typed: string)
      returns (next: Screen)
      requires Good(catalog) && FindTemplate(catalog.templates, template).Some?
      modifies this`doc, this`dirty
      ensures With(next) == ReviewStep(catalog, old(View()), template, id, params, receiver, Event(key, typed, false))
    {
      next := ReviewTemplateReceiver(template, id, params, receiver);
      if key == Enter {
        doc := doc.(receivers := doc.receivers[id := receiver]);
        dirty := true;
        next := TopLevel(Receivers, 0);
      } else if key == Esc {
        next := EditTemplateParams(template, id, ParamsForm(catalog, template, params));
      }
    }
  }
}

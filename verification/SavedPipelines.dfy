/**
 From the editor to the collector: the pipelines the status extension reads out of a config
 (extractPipelines in otelcol/extensions/statuscfgextension/resolvedconfig.go) are the ones
 typed into the editor's forms.
 */
module SavedPipelines {
  import opened Options
  import opened JsonTree
  import opened Forms
  import opened EditorDocument
  import opened EditorModel
  import opened EditorSessions
  import opened Attribution

  function StringList(v: Option<Json>): seq<string> {
    Strings(AsArray(v).GetOr([]))
  }

  function TopologyOf(def: Json): PipelineTopology {
    PipelineTopology(StringList(Member(def, "receivers")), StringList(Member(def, "exporters")))
  }

  /** The pipelines object inside the service section, wherever the tree has another shape empty. */
  function PipelineDefs(service: Option<Json>): Object {
    AsObject(Member(Obj(AsObject(service)), "pipelines"))
  }

  /** asStringList. */
  method CollectStrings(v: Option<Json>) returns (out: seq<string>)
    ensures out == StringList(v)
  {
    out := [];
    var list := AsArray(v);
    if list.None? {
      return;
    }
    var items := list.value;
    for i := 0 to |items|
      invariant out == Strings(items[..i])
    {
      assert items[..i + 1][..i] == items[..i];
      if items[i].Str? {
        out := out + [items[i].text];
      }
    }
    assert items[..|items|] == items;
  }

  method ExtractPipelines(service: Option<Json>) returns (out: Pipelines)
    ensures out == map name | name in PipelineDefs(service) :: TopologyOf(PipelineDefs(service)[name])
  {
    var pipelines := PipelineDefs(service);
    out := map[];
    var todo := pipelines.Keys;
    while todo != {}
      invariant todo <= pipelines.Keys && out.Keys == pipelines.Keys - todo
      invariant forall name :: name in out ==> out[name] == TopologyOf(pipelines[name])
      decreases |todo|
    {
      var name :| name in todo;
      var receivers := CollectStrings(Member(pipelines[name], "receivers"));
      var exporters := CollectStrings(Member(pipelines[name], "exporters"));
      out := out[name := PipelineTopology(receivers, exporters)];
      todo := todo - {name};
    }
  }

  /** The collector reads the document's own pipelines back from a saved file. */
  lemma SavedDefsAreRead(doc: EditorDoc)
    ensures PipelineDefs(Member(ToJson(doc), "service")) == doc.pipelines
  {
    ParseToJson(doc);
  }

  lemma ListFieldIsRead(form: FormState, i: nat)
    requires WellFormed(form) && form.specs == PIPELINE_FIELDS && form.typeName.None? && i < 2
    ensures form.fields[i].ListInput?
    ensures StringList(Member(Obj(FormObject(form)), if i == 0 then "receivers" else "exporters")) ==
            Items(form.fields[i].text)
  {
    hide Items, FormObject;
    assert Matches(form.specs[i], form.fields[i]);
    PipelineFieldsArePrefixFree();
    FormWrites(form, i);
    StringsOfTexts(Items(form.fields[i].text));
    assert Strings([]) == [];
  }

  /** After submitting a pipeline form and saving, the collector routes exactly the receivers
      and exporters typed, in that order, and the other pipelines as before. */
  lemma SubmittedPipelineIsRead(r: Catalog, m: Editor, e: Event, name: string)
    requires Good(r) && SafeEditor(r, m) && SubmitsPipeline(m, e)
    requires name == m.screen.id || name in m.doc.pipelines
    ensures var saved, form := ToJson(OnKey(r, m, e).doc), m.screen.form;
            var defs := PipelineDefs(Member(saved, "service"));
            && form.fields[0].ListInput? && form.fields[1].ListInput? && name in defs
            && TopologyOf(defs[name]) == if name == m.screen.id then
              PipelineTopology(Items(form.fields[0].text), Items(form.fields[1].text))
                                         else TopologyOf(m.doc.pipelines[name])
  {
    hide Items, FormObject, WellFormed, StringList, ToJson, PipelineDefs;
    var form := m.screen.form;
    assert |form.fields| == 2 by { FormHasTwo(form); }
    ListFieldIsRead(form, 0);
    ListFieldIsRead(form, 1);
    SavedDefsAreRead(OnKey(r, m, e).doc);
  }

  lemma FormHasTwo(form: FormState)
    requires WellFormed(form) && form.specs == PIPELINE_FIELDS
    ensures |form.fields| == 2
  {
  }
}

/**
 The document the editor works on (crates/collector/src/editor/model.rs). YAML text is a
 faithful encoding of a JSON tree here; `yaml` stands for the serialiser.
 */
module EditorDocument {
  import opened Options
  import opened StringOrder
  import opened Text
  import opened JsonTree
  import opened FileSystem

  datatype Category = Receiver | Exporter | Extension

  datatype EditorDoc = EditorDoc(receivers: Object, exporters: Object, extensions: Object, pipelines: Object)

  // --- Loading and printing

  /** Whatever is missing or has the wrong shape reads as empty. */
  function Parse(v: Json): EditorDoc {
    var service := Member(v, "service");
    EditorDoc(AsObject(Member(v, "receivers")), AsObject(Member(v, "exporters")), AsObject(Member(v, "extensions")),
              if service.Some? then AsObject(Member(service.value, "pipelines")) else map[])
  }

  function IdList(ids: seq<string>): Json {
    Arr(seq(|ids|, i requires 0 <= i < |ids| => Str(ids[i])))
  }

  /** Every defined extension is active. */
  function ToJson(doc: EditorDoc): Json {
    Obj(map["receivers" := Obj(doc.receivers),
            "exporters" := Obj(doc.exporters),
            "extensions" := Obj(doc.extensions),
            "service" := Obj(map["extensions" := IdList(Sorted(doc.extensions.Keys)),
                                 "pipelines" := Obj(doc.pipelines)])])
  }

  lemma ParseToJson(doc: EditorDoc)
    ensures Parse(ToJson(doc)) == doc
  {
    hide Sorted;
    var service := map["extensions" := IdList(Sorted(doc.extensions.Keys)), "pipelines" := Obj(doc.pipelines)];
    assert Member(ToJson(doc), "service") == Some(Obj(service));
    assert Member(Obj(service), "pipelines") == Some(Obj(doc.pipelines));
  }

  /** Where a saved file has what: every component and pipeline as it is, and as the active
      extensions exactly those defined, each once and in order. */
  lemma SavedTreeHolds(doc: EditorDoc)
    ensures var v, ids := ToJson(doc), Sorted(doc.extensions.Keys);
            && GetPath(v, ["receivers"]) == Some(Obj(doc.receivers))
            && GetPath(v, ["exporters"]) == Some(Obj(doc.exporters))
            && GetPath(v, ["extensions"]) == Some(Obj(doc.extensions))
            && GetPath(v, ["service", "pipelines"]) == Some(Obj(doc.pipelines))
            && GetPath(v, ["service", "extensions"]) == Some(Arr(seq(|ids|, i requires 0 <= i < |ids| => Str(ids[i]))))
            && (forall id :: id in ids <==> id in doc.extensions)
            && (forall i, j :: 0 <= i < j < |ids| ==> ids[i] != ids[j] && StringLe(ids[i], ids[j]))
            && v.fields.Keys == {"receivers", "exporters", "extensions", "service"}
  {
    hide Sorted, StringLe;
    var ids := Sorted(doc.extensions.Keys);
    var service := map["extensions" := IdList(ids), "pipelines" := Obj(doc.pipelines)];
    assert Member(ToJson(doc), "service") == Some(Obj(service));
    assert GetPath(ToJson(doc), ["service", "extensions"]) == GetPath(Obj(service), ["service", "extensions"][1..]);
    assert GetPath(ToJson(doc), ["service", "pipelines"]) == GetPath(Obj(service), ["service", "pipelines"][1..]);
    SortedHasAll(doc.extensions.Keys);
    forall i, j | 0 <= i < j < |ids| ensures ids[i] != ids[j] && StringLe(ids[i], ids[j]) {
      SortedInOrder(doc.extensions.Keys, i, j);
    }
  }

  // --- References

  function CategoryKey(c: Category): Option<string> {
    match c case Receiver => Some("receivers") case Exporter => Some("exporters") case Extension => None
  }

  function MapFor(doc: EditorDoc, c: Category): Object {
    match c case Receiver => doc.receivers case Exporter => doc.exporters case Extension => doc.extensions
  }

  /** What a pipeline definition lists under a category's key. */
  function ListedIn(def: Json, c: Category): seq<Json> {
    match CategoryKey(c)
    case None => []
    case Some(key) => AsArray(Member(def, key)).GetOr([])
  }

  predicate References(def: Json, c: Category, id: string) {
    Str(id) in ListedIn(def, c)
  }

  function PipelinesReferencing(doc: EditorDoc, c: Category, id: string): seq<string> {
    Sorted(set name | name in doc.pipelines && References(doc.pipelines[name], c, id))
  }

  lemma ReferencingNamesAll(doc: EditorDoc, c: Category, id: string)
    ensures forall name :: name in PipelinesReferencing(doc, c, id) <==>
                           name in doc.pipelines && References(doc.pipelines[name], c, id)
    ensures var names := PipelinesReferencing(doc, c, id);
            forall i, j :: 0 <= i < j < |names| ==> names[i] != names[j] && StringLe(names[i], names[j])
    ensures PipelinesReferencing(doc, c, id) == [] <==>
            forall name :: name in doc.pipelines ==> !References(doc.pipelines[name], c, id)
  {
    hide References, StringLe;
    var names := set name | name in doc.pipelines && References(doc.pipelines[name], c, id);
    SortedHasAll(names);
    forall i, j | 0 <= i < j < |Sorted(names)|
      ensures Sorted(names)[i] != Sorted(names)[j] && StringLe(Sorted(names)[i], Sorted(names)[j]) {
      SortedInOrder(names, i, j);
    }
    if PipelinesReferencing(doc, c, id) == [] { assert forall name :: name in names ==> name in Sorted(names); }
    else { assert Sorted(names)[0] in names; }
  }

  // --- Stripping

  function Without(items: seq<Json>, id: string): seq<Json> {
    if items == [] then [] else
      Without(items[..|items| - 1], id) + if items[|items| - 1] == Str(id) then [] else [items[|items| - 1]]
  }

  function StripDef(def: Json, key: string, id: string): Json {
    match AsArray(Member(def, key))
    case Some(items) => Obj(def.fields[key := Arr(Without(items, id))])
    case None => def
  }

  function Strip(doc: EditorDoc, c: Category, id: string): EditorDoc {
    match CategoryKey(c)
    case None => doc
    case Some(key) => doc.(pipelines := map name | name in doc.pipelines :: StripDef(doc.pipelines[name], key, id))
  }

  /** arr.retain, in place. */
  method Retain(items: seq<Json>, id: string) returns (kept: seq<Json>)
    ensures kept == Without(items, id)
  {
    kept := [];
    for i := 0 to |items|
      invariant kept == Without(items[..i], id)
    {
      assert items[..i + 1][..i] == items[..i];
      if items[i] != Str(id) {
        kept := kept + [items[i]];
      }
    }
    assert items[..|items|] == items;
  }

  /** for def in pipelines.values_mut(). */
  method StripFromPipelines(doc: EditorDoc, c: Category, id: string) returns (stripped: EditorDoc)
    ensures stripped == Strip(doc, c, id)
  {
    if CategoryKey(c).None? {
      return doc;
    }
    var key := CategoryKey(c).value;
    var pipelines := doc.pipelines;
    var todo := pipelines.Keys;
    while todo != {}
      invariant pipelines.Keys == doc.pipelines.Keys && todo <= pipelines.Keys
      invariant forall name :: name in pipelines ==>
                  pipelines[name] == if name in todo then doc.pipelines[name]
                    else StripDef(doc.pipelines[name], key, id)
      decreases |todo|
    {
      var name :| name in todo;
      var def := pipelines[name];
      var items := AsArray(Member(def, key));
      if items.Some? {
        var kept := Retain(items.value, id);
        pipelines := pipelines[name := Obj(def.fields[key := Arr(kept)])];
      }
      todo := todo - {name};
    }
    stripped := doc.(pipelines := pipelines);
  }

  lemma {:induction false} WithoutKeepsOthers(items: seq<Json>, id: string)
    ensures forall x :: x in Without(items, id) <==> x in items && x != Str(id)
  {
    if items != [] {
      assert items == items[..|items| - 1] + [items[|items| - 1]];
      WithoutKeepsOthers(items[..|items| - 1], id);
    }
  }

  /** Retaining keeps the order: it drops the id and nothing else. */
  lemma {:induction false} WithoutDrops(a: seq<Json>, b: seq<Json>, id: string)
    ensures Without(a + b, id) == Without(a, id) + Without(b, id)
    ensures |b| == 1 ==> Without(b, id) == if b[0] == Str(id) then [] else b
    ensures |b| == 0 ==> Without(b, id) == []
  {
    if b == [] {
      assert a + b == a;
    } else {
      assert (a + b)[..|a + b| - 1] == a + b[..|b| - 1];
      WithoutDrops(a, b[..|b| - 1], id);
    }
  }

  /** After stripping, nothing refers to the id and every other reference is as it was. */
  lemma StripRemovesExactly(doc: EditorDoc, c: Category, id: string, name: string, c': Category, id': string)
    requires name in doc.pipelines
    ensures Strip(doc, c, id).pipelines.Keys == doc.pipelines.Keys
    ensures References(Strip(doc, c, id).pipelines[name], c', id') <==>
            References(doc.pipelines[name], c', id') && !(c == c' && id == id')
  {
    var def := doc.pipelines[name];
    if c != Extension {
      var items := AsArray(Member(def, CategoryKey(c).value));
      if items.Some? { WithoutKeepsOthers(items.value, id); }
    }
  }

  /** Whatever else a pipeline holds stays, and so does everything outside the pipelines. */
  lemma StripKeepsRest(doc: EditorDoc, c: Category, id: string, name: string, key: string)
    ensures var after := Strip(doc, c, id);
            && after == doc.(pipelines := after.pipelines) && after.pipelines.Keys == doc.pipelines.Keys
            && (name in doc.pipelines && Some(key) != CategoryKey(c) ==>
                  Member(after.pipelines[name], key) == Member(doc.pipelines[name], key))
  {
  }

  // --- References to what is not defined

  /** A pipeline lists a receiver or exporter that the document does not define. */
  predicate Dangles(doc: EditorDoc, name: string, c: Category, id: string) {
    name in doc.pipelines && References(doc.pipelines[name], c, id) && id !in MapFor(doc, c)
  }

  function Put(doc: EditorDoc, c: Category, id: string, v: Json): EditorDoc {
    match c
    case Receiver => doc.(receivers := doc.receivers[id := v])
    case Exporter => doc.(exporters := doc.exporters[id := v])
    case Extension => doc.(extensions := doc.extensions[id := v])
  }

  function Remove(doc: EditorDoc, c: Category, id: string): EditorDoc {
    match c
    case Receiver => doc.(receivers := doc.receivers - {id})
    case Exporter => doc.(exporters := doc.exporters - {id})
    case Extension => doc.(extensions := doc.extensions - {id})
  }

  /** Each category has its own table, and defining or removing a component changes no other entry. */
  lemma TablesAreSeparate(doc: EditorDoc, c: Category, id: string, v: Json, c': Category)
    ensures doc == EditorDoc(MapFor(doc, Receiver), MapFor(doc, Exporter), MapFor(doc, Extension), doc.pipelines)
    ensures MapFor(Put(doc, c, id, v), c') == (if c' == c then MapFor(doc, c)[id := v] else MapFor(doc, c'))
    ensures MapFor(Remove(doc, c, id), c') == (if c' == c then MapFor(doc, c) - {id} else MapFor(doc, c'))
    ensures Put(doc, c, id, v).pipelines == doc.pipelines == Remove(doc, c, id).pipelines
  {
  }

  /** Defining a component settles exactly the references to it. */
  lemma PutSettles(doc: EditorDoc, c: Category, id: string, v: Json, name: string, c': Category, id': string)
    ensures Dangles(Put(doc, c, id, v), name, c', id') <==> Dangles(doc, name, c', id') && !(c == c' && id == id')
  {
  }

  /** Removing a component after stripping it leaves no new dangling reference, and so does
      removing one that no pipeline lists. */
  lemma RemoveStripped(doc: EditorDoc, c: Category, id: string, name: string, c': Category, id': string)
    ensures Dangles(Remove(Strip(doc, c, id), c, id), name, c', id') <==>
            Dangles(doc, name, c', id') && !(c == c' && id == id')
  {
    hide References;
    if name in doc.pipelines { StripRemovesExactly(doc, c, id, name, c', id'); }
  }

  lemma RemoveUnlisted(doc: EditorDoc, c: Category, id: string, name: string, c': Category, id': string)
    requires PipelinesReferencing(doc, c, id) == []
    ensures Dangles(Remove(doc, c, id), name, c', id') <==> Dangles(doc, name, c', id')
  {
    hide References;
    ReferencingNamesAll(doc, c, id);
  }

  // --- Saving

  /** What the validator sees: `${VAR}` texts are replaced first. */
  function Placeholder(v: Json): Json {
    match v
    case Str(s) => if Contains(s, "${") then Str("placeholder-value") else v
    case Obj(fields) => Obj(map k | k in fields :: Placeholder(fields[k]))
    case Arr(items) => Arr(seq(|items|, i requires 0 <= i < |items| => Placeholder(items[i])))
    case _ => v
  }

  /** No text that the shell of a validating machine would have to fill in. */
  predicate Resolved(v: Json) {
    match v
    case Str(s) => !Contains(s, "${")
    case Obj(fields) => forall k :: k in fields ==> Resolved(fields[k])
    case Arr(items) => forall i :: 0 <= i < |items| ==> Resolved(items[i])
    case _ => true
  }

  /** The stand-in needs no variable, and is the document itself if that needs none. */
  lemma {:induction false} PlaceholderResolves(v: Json)
    ensures Resolved(Placeholder(v))
    ensures Resolved(v) ==> Placeholder(v) == v
  {
    match v
    case Str(_) =>
      assert forall i :: 0 <= i <= |"placeholder-value"| ==> |"placeholder-value"[i..]| > 0 ==>
             "placeholder-value"[i..][0] != '$';
    case Obj(fields) =>
      forall k | k in fields ensures Resolved(Placeholder(fields[k]))
        && (Resolved(fields[k]) ==> Placeholder(fields[k]) == fields[k]) {
        PlaceholderResolves(fields[k]);
      }
    case Arr(items) =>
      forall i | 0 <= i < |items| ensures Resolved(Placeholder(items[i]))
        && (Resolved(items[i]) ==> Placeholder(items[i]) == items[i]) {
        PlaceholderResolves(items[i]);
      }
    case _ =>
  }

  /** w is v with other texts in place of those that mention a variable. */
  predicate StandsIn(v: Json, w: Json) {
    match v
    case Str(s) => if Contains(s, "${") then w.Str? && !Contains(w.text, "${") else w == v
    case Obj(fields) => w.Obj? && w.fields.Keys == fields.Keys && forall k :: k in fields ==>
      StandsIn(fields[k], w.fields[k])
    case Arr(items) => w.Arr? && |w.items| == |items| && forall i :: 0 <= i < |items| ==> StandsIn(items[i], w.items[i])
    case _ => w == v
  }

  /** The stand-in differs from the document at the texts that mention a variable, and there only. */
  lemma {:induction false} PlaceholderStandsIn(v: Json)
    ensures StandsIn(v, Placeholder(v))
  {
    match v
    case Str(_) => PlaceholderResolves(v);
    case Obj(fields) =>
      forall k | k in fields ensures StandsIn(fields[k], Placeholder(fields[k])) { PlaceholderStandsIn(fields[k]); }
    case Arr(items) =>
      forall i | 0 <= i < |items| ensures StandsIn(items[i], Placeholder(items[i])) { PlaceholderStandsIn(items[i]); }
    case _ =>
  }

  /** In every state the file was untouched, or held the whole document and its stand-in had
      been accepted. */
  ghost predicate SavedOrOld(history: seq<Files>, k: nat, path: string, before: Option<string>, text: string,
                             checked: string, passed: set<string>) {
    forall i :: k <= i < |history| ==>
      ContentOf(history[i], path) == before || (ContentOf(history[i], path) == Some(text) && checked in passed)
  }

  /** Write the text beside everything else, have it checked and remove it. */
  method Validated(disk: Disk, checkPath: string, text: string) returns (ok: bool)
    requires disk.Valid()
    modifies disk
    ensures disk.Extends()
    ensures ok ==> text in disk.passed
    ensures !ok ==> disk.Hindered(text)
    ensures disk.faults == old(disk.faults) ==> checkPath !in disk.files
    ensures forall other :: other != checkPath ==> ContentOf(disk.files, other) == ContentOf(old(disk.files), other)
    ensures forall other :: other != checkPath ==>
              Untouched(disk.history, |old(disk.history)|, other, ContentOf(old(disk.files), other))
  {
    ok := disk.WriteFileSynced(checkPath, text);
    if ok {
      ok := disk.Check(checkPath);
    }
    disk.Remove(checkPath);
  }

  /** Validate a copy with placeholders, then write beside the file and rename. Stopped
      anywhere, the file is entirely the old one or entirely the validated document. Not saving has a cause. */
  method SaveWithBinary(disk: Disk, doc: EditorDoc, path: string, tmpPath: string, checkPath: string,
                        yaml: Json -> string) returns (ok: bool)
    requires disk.Valid() && path != tmpPath && path != checkPath && tmpPath != checkPath
    modifies disk
    ensures disk.Valid()
    ensures ContentOf(disk.files, path) == if ok then Some(yaml(ToJson(doc))) else ContentOf(old(disk.files), path)
    ensures ok ==> yaml(Placeholder(ToJson(doc))) in disk.passed
    ensures !ok ==> disk.Hindered(yaml(Placeholder(ToJson(doc))))
    ensures disk.Extends()
    ensures disk.faults == old(disk.faults) ==> checkPath !in disk.files && (ok ==> tmpPath !in disk.files)
    ensures SavedOrOld(disk.history, |old(disk.history)|, path, ContentOf(old(disk.files), path),
                       yaml(ToJson(doc)), yaml(Placeholder(ToJson(doc))), disk.passed)
  {
    hide Placeholder, ToJson;
    ok := Validated(disk, checkPath, yaml(Placeholder(ToJson(doc))));
    if !ok {
      return;
    }
    ok := disk.WriteFileSynced(tmpPath, yaml(ToJson(doc)));
    if !ok {
      return;
    }
    ok := disk.Rename(tmpPath, path);
  }
}

/**
 The editor's forms (crates/collector/src/editor/app.rs, FormState and
 field_edit_state_from, and minimal_value of schema_registry.rs). A form belongs to one
 screen at a time and is moved, never shared, so it is a value here.
 */
module Forms {
  import opened Options
  import opened Text
  import opened JsonTree

  datatype FieldKind =
    | StrField
    | BoolField
    | DurationField
    | EnumField(options: seq<string>)
    | StringListField
    | OperatorListField

  datatype FieldSpec = FieldSpec(key: Path, kind: FieldKind, required: bool, default: Option<string>)

  /** A choice needs something to choose from. */
  predicate WellFormedSpec(spec: FieldSpec) {
    spec.kind.EnumField? ==> spec.kind.options != []
  }

  datatype FieldState =
    | TextInput(text: string)
    | Toggle(checked: bool)
    | Choice(options: seq<string>, selected: nat)
    | ListInput(text: string)
    | Operators(ops: seq<Json>)

  /** How serde_json prints a value that is not a string: never as nothing. */
  type Printer = Json -> string

  ghost predicate Prints(show: Printer) {
    forall v: Json :: !v.Str? ==> show(v) != ""
  }

  // --- From a value to a field

  function Strings(items: seq<Json>): seq<string> {
    if items == [] then [] else
      Strings(items[..|items| - 1]) + if items[|items| - 1].Str? then [items[|items| - 1].text] else []
  }

  /** Of a list only the texts are read, in order. */
  lemma {:induction false} StringsSkip(a: seq<Json>, b: seq<Json>)
    ensures Strings(a + b) == Strings(a) + Strings(b)
    ensures |b| == 1 ==> Strings(b) == if b[0].Str? then [b[0].text] else []
    ensures |b| == 0 ==> Strings(b) == []
  {
    if b == [] {
      assert a + b == a;
    } else {
      assert (a + b)[..|a + b| - 1] == a + b[..|b| - 1];
      StringsSkip(a, b[..|b| - 1]);
    }
  }

  function Position(options: seq<string>, text: string): nat {
    if options == [] then 0 else if options[0] == text then 0
    else if text in options then 1 + Position(options[1..], text) else 0
  }

  function TextOf(current: Option<Json>): Option<string> {
    if current.Some? && current.value.Str? then Some(current.value.text) else None
  }

  function Or(a: Option<string>, b: Option<string>): Option<string> {
    if a.Some? then a else b
  }

  /** field_edit_state_from, given what the value holds under the field's key. */
  function FieldFrom(spec: FieldSpec, current: Option<Json>, show: Printer): FieldState
    requires WellFormedSpec(spec)
  {
    match spec.kind
    case EnumField(options) =>
      Choice(options, Position(options, Or(TextOf(current), spec.default).GetOr(options[0])))
    case BoolField =>
      Toggle(if current.Some? && current.value.Bool? then current.value.value else spec.default == Some("true"))
    case StringListField =>
      ListInput(Join(Strings(AsArray(current).GetOr([])), ", "))
    case OperatorListField =>
      Operators(AsArray(current).GetOr([]))
    case _ =>
      var shown := if current.None? then None else if current.value.Str? then Some(current.value.text)
          else Some(show(current.value));
      TextInput(Or(shown, spec.default).GetOr(""))
  }

  // --- From a field to a value

  function TrimAll(parts: seq<string>): (r: seq<string>)
    ensures |r| == |parts|
  {
    seq(|parts|, i requires 0 <= i < |parts| => Trim(parts[i]))
  }

  function Items(text: string): seq<string> {
    NonEmpty(TrimAll(Split(text, ',')))
  }

  function Texts(items: seq<string>): seq<Json> {
    seq(|items|, i requires 0 <= i < |items| => Str(items[i]))
  }

  /** What the field writes, if anything. */
  function FieldValue(f: FieldState): Option<Json>
    requires f.Choice? ==> f.selected < |f.options|
  {
    match f
    case TextInput(text) => if text == "" then None else Some(Str(text))
    case Toggle(checked) => Some(Bool(checked))
    case Choice(options, selected) => Some(Str(options[selected]))
    case ListInput(text) => if Items(text) == [] then None else Some(Arr(Texts(Items(text))))
    case Operators(ops) => if ops == [] then None else Some(Arr(ops))
  }

  // --- The form

  datatype FormState = FormState(typeName: Option<string>, writeTypeKey: bool, specs: seq<FieldSpec>,
                                 fields: seq<FieldState>, focused: nat)

  predicate Matches(spec: FieldSpec, f: FieldState) {
    match spec.kind
    case EnumField(options) => f.Choice? && f.options == options && f.selected < |options|
    case BoolField => f.Toggle?
    case StringListField => f.ListInput?
    case OperatorListField => f.Operators?
    case _ => f.TextInput?
  }

  /** Every spec has its field, choices are in range and so is the focus. */
  predicate WellFormed(form: FormState) {
    && |form.fields| == |form.specs|
    && (forall i :: 0 <= i < |form.specs| ==> WellFormedSpec(form.specs[i]) && Matches(form.specs[i], form.fields[i]))
    && (form.focused == 0 || form.focused < |form.fields|)
  }

  lemma {:induction false} PositionInRange(options: seq<string>, text: string)
    requires options != []
    ensures Position(options, text) < |options|
    ensures text in options ==> options[Position(options, text)] == text
  {
    if options[0] != text && text in options {
      assert options == [options[0]] + options[1..];
      PositionInRange(options[1..], text);
    }
  }

  lemma FieldFromMatches(spec: FieldSpec, current: Option<Json>, show: Printer)
    requires WellFormedSpec(spec)
    ensures Matches(spec, FieldFrom(spec, current, show))
  {
    if spec.kind.EnumField? {
      PositionInRange(spec.kind.options, Or(TextOf(current), spec.default).GetOr(spec.kind.options[0]));
    }
  }

  function NewForm(typeName: Option<string>, writeTypeKey: bool, specs: seq<FieldSpec>, value: Json,
                   show: Printer): FormState
    requires forall i :: 0 <= i < |specs| ==> WellFormedSpec(specs[i])
  {
    FormState(typeName, writeTypeKey, specs,
              seq(|specs|, i requires 0 <= i < |specs| => FieldFrom(specs[i], GetPath(value, specs[i].key), show)), 0)
  }

  lemma NewFormIsWellFormed(typeName: Option<string>, writeTypeKey: bool, specs: seq<FieldSpec>, value: Json,
                            show: Printer)
    requires forall i :: 0 <= i < |specs| ==> WellFormedSpec(specs[i])
    ensures WellFormed(NewForm(typeName, writeTypeKey, specs, value, show))
  {
    forall i | 0 <= i < |specs|
      ensures Matches(specs[i], NewForm(typeName, writeTypeKey, specs, value, show).fields[i])
    {
      FieldFromMatches(specs[i], GetPath(value, specs[i].key), show);
    }
  }

  predicate InRange(fields: seq<FieldState>) {
    forall i :: 0 <= i < |fields| ==> fields[i].Choice? ==> fields[i].selected < |fields[i].options|
  }

  /** What the fields write, one after the other. */
  function Written(specs: seq<FieldSpec>, fields: seq<FieldState>): Object
    requires |specs| == |fields| && InRange(fields)
  {
    if specs == [] then map[] else
      var n := |specs| - 1;
      var before, value := Written(specs[..n], fields[..n]), FieldValue(fields[n]);
      if value.None? then before else SetPath(before, specs[n].key, value.value)
  }

  function FormObject(form: FormState): Object
    requires WellFormed(form)
  {
    var written := Written(form.specs, form.fields);
    if form.writeTypeKey && form.typeName.Some? then written["type" := Str(form.typeName.value)] else written
  }

  method ToValue(form: FormState) returns (v: Json)
    requires WellFormed(form)
    ensures v == Obj(FormObject(form))
  {
    hide SetPath, FieldValue;
    var written: Object := map[];
    for i := 0 to |form.specs|
      invariant written == Written(form.specs[..i], form.fields[..i])
    {
      assert form.specs[..i + 1][..i] == form.specs[..i] && form.fields[..i + 1][..i] == form.fields[..i];
      var value := FieldValue(form.fields[i]);
      if value.Some? {
        written := SetPath(written, form.specs[i].key, value.value);
      }
    }
    assert form.specs[..|form.specs|] == form.specs && form.fields[..|form.specs|] == form.fields;
    if form.writeTypeKey && form.typeName.Some? {
      written := written["type" := Str(form.typeName.value)];
    }
    v := Obj(written);
  }

  // --- Reading back what a form wrote

  /** No key leads to or through another, nor through the type key if that is written. */
  predicate PrefixFree(specs: seq<FieldSpec>, writesType: bool) {
    && (forall i, j :: 0 <= i < j < |specs| ==> Incomparable(specs[i].key, specs[j].key))
    && (writesType ==> forall i :: 0 <= i < |specs| ==> Incomparable(specs[i].key, ["type"]))
  }

  lemma {:induction false} WrittenElsewhere(specs: seq<FieldSpec>, fields: seq<FieldState>, path: Path)
    requires |specs| == |fields| && InRange(fields)
    requires forall i :: 0 <= i < |specs| ==> Incomparable(specs[i].key, path)
    ensures GetPath(Obj(Written(specs, fields)), path) == None
  {
    if specs != [] {
      var n := |specs| - 1;
      WrittenElsewhere(specs[..n], fields[..n], path);
      var value := FieldValue(fields[n]);
      if value.Some? { SetKeepsOthers(Written(specs[..n], fields[..n]), specs[n].key, value.value, path); }
    }
  }

  lemma {:induction false} WrittenAt(specs: seq<FieldSpec>, fields: seq<FieldState>, i: nat)
    requires |specs| == |fields| && InRange(fields) && i < |specs|
    requires PrefixFree(specs, false)
    ensures GetPath(Obj(Written(specs, fields)), specs[i].key) == FieldValue(fields[i])
    decreases |specs|
  {
    var n := |specs| - 1;
    var before, value := Written(specs[..n], fields[..n]), FieldValue(fields[n]);
    if i == n {
      if value.None? {
        WrittenElsewhere(specs[..n], fields[..n], specs[n].key);
      } else {
        SetThenGet(before, specs[n].key, value.value);
      }
    } else {
      WrittenAt(specs[..n], fields[..n], i);
      if value.Some? { SetKeepsOthers(before, specs[n].key, value.value, specs[i].key); }
    }
  }

  predicate WritesType(form: FormState) {
    form.writeTypeKey && form.typeName.Some?
  }

  /** Every field reads back exactly what it wrote. */
  lemma FormWrites(form: FormState, i: nat)
    requires WellFormed(form) && i < |form.specs| && PrefixFree(form.specs, WritesType(form))
    ensures GetPath(Obj(FormObject(form)), form.specs[i].key) == FieldValue(form.fields[i])
  {
    WrittenAt(form.specs, form.fields, i);
    if WritesType(form) {
      var written := Written(form.specs, form.fields);
      assert FormObject(form) == SetPath(written, ["type"], Str(form.typeName.value));
      assert Incomparable(["type"], form.specs[i].key);
      SetKeepsOthers(written, ["type"], Str(form.typeName.value), form.specs[i].key);
    }
  }

  /** A form that carries its type writes it, and one that does not writes no such member. */
  lemma FormWritesType(form: FormState)
    requires WellFormed(form) && forall i :: 0 <= i < |form.specs| ==> Incomparable(form.specs[i].key, ["type"])
    ensures GetPath(Obj(FormObject(form)), ["type"]) ==
            if WritesType(form) then Some(Str(form.typeName.value)) else None
  {
    WrittenElsewhere(form.specs, form.fields, ["type"]);
  }

  lemma {:induction false} SameFieldsSameObject(specs: seq<FieldSpec>, a: seq<FieldState>, b: seq<FieldState>)
    requires |specs| == |a| == |b| && InRange(a) && InRange(b)
    requires forall i :: 0 <= i < |specs| ==> FieldValue(a[i]) == FieldValue(b[i])
    ensures Written(specs, a) == Written(specs, b)
  {
    if specs != [] {
      var n := |specs| - 1;
      SameFieldsSameObject(specs[..n], a[..n], b[..n]);
    }
  }

  // --- Loading and submitting an untouched form

  /** Which form is opened, whatever the value. */
  datatype FormType = FormType(typeName: Option<string>, writeTypeKey: bool, specs: seq<FieldSpec>) {
    predicate Valid() {
      && (forall i :: 0 <= i < |specs| ==> WellFormedSpec(specs[i]))
      && PrefixFree(specs, writeTypeKey && typeName.Some?)
    }
  }

  function Open(t: FormType, v: Json, show: Printer): (form: FormState)
    requires t.Valid()
    ensures WellFormed(form)
  {
    NewFormIsWellFormed(t.typeName, t.writeTypeKey, t.specs, v, show);
    NewForm(t.typeName, t.writeTypeKey, t.specs, v, show)
  }

  /** The value of the form opened on v and submitted untouched. */
  function Normalize(t: FormType, v: Json, show: Printer): Json
    requires t.Valid()
  {
    Obj(FormObject(Open(t, v, show)))
  }

  /** The same for one field. */
  function Settle(spec: FieldSpec, current: Option<Json>, show: Printer): Option<Json>
    requires WellFormedSpec(spec)
  {
    FieldFromMatches(spec, current, show);
    FieldValue(FieldFrom(spec, current, show))
  }

  lemma NormalizeAt(t: FormType, v: Json, show: Printer, i: nat)
    requires t.Valid() && i < |t.specs|
    ensures GetPath(Normalize(t, v, show), t.specs[i].key) == Settle(t.specs[i], GetPath(v, t.specs[i].key), show)
  {
    FormWrites(Open(t, v, show), i);
  }

  ghost predicate SettleAlike(t: FormType, v: Json, w: Json, show: Printer)
    requires t.Valid()
  {
    forall i :: 0 <= i < |t.specs| ==>
      Settle(t.specs[i], GetPath(v, t.specs[i].key), show) == Settle(t.specs[i], GetPath(w, t.specs[i].key), show)
  }

  lemma SettlingAlikeNormalizesAlike(t: FormType, v: Json, w: Json, show: Printer)
    requires t.Valid() && SettleAlike(t, v, w, show)
    ensures Normalize(t, v, show) == Normalize(t, w, show)
  {
    hide FieldFrom, FieldValue, Written, GetPath;
    var a, b := Open(t, v, show), Open(t, w, show);
    forall i | 0 <= i < |t.specs| ensures FieldValue(a.fields[i]) == FieldValue(b.fields[i]) {
      assert Settle(t.specs[i], GetPath(v, t.specs[i].key), show) ==
             Settle(t.specs[i], GetPath(w, t.specs[i].key), show);
    }
    SameFieldsSameObject(t.specs, a.fields, b.fields);
  }

  /** Two values normalise alike exactly when every field settles alike. */
  lemma NormalizeAlikeIff(t: FormType, v: Json, w: Json, show: Printer)
    requires t.Valid()
    ensures Normalize(t, v, show) == Normalize(t, w, show) <==> SettleAlike(t, v, w, show)
  {
    hide Settle, Normalize;
    forall i | 0 <= i < |t.specs|
      ensures GetPath(Normalize(t, v, show), t.specs[i].key) == Settle(t.specs[i], GetPath(v, t.specs[i].key), show)
      ensures GetPath(Normalize(t, w, show), t.specs[i].key) == Settle(t.specs[i], GetPath(w, t.specs[i].key), show)
    {
      NormalizeAt(t, v, show, i);
      NormalizeAt(t, w, show, i);
    }
    if SettleAlike(t, v, w, show) { SettlingAlikeNormalizesAlike(t, v, w, show); }
  }

  /** What no field of the form stands for reads as nothing after a submit, so it survives
      exactly if it was nothing before. */
  lemma UnlistedSurvivesIff(t: FormType, v: Json, show: Printer, path: Path)
    requires t.Valid() && forall i :: 0 <= i < |t.specs| ==> Incomparable(t.specs[i].key, path)
    requires t.writeTypeKey && t.typeName.Some? ==> Incomparable(["type"], path)
    ensures GetPath(Normalize(t, v, show), path) == GetPath(v, path) <==> GetPath(v, path) == None
  {
    var form := Open(t, v, show);
    WrittenElsewhere(t.specs, form.fields, path);
    if WritesType(form) {
      var written := Written(t.specs, form.fields);
      assert FormObject(form) == SetPath(written, ["type"], Str(t.typeName.value));
      SetKeepsOthers(written, ["type"], Str(t.typeName.value), path);
    }
  }

  /** A text field with a default that currently holds an empty text: clearing it is undone. */
  predicate Reappears(spec: FieldSpec, current: Option<Json>) {
    && spec.kind in {StrField, DurationField}
    && spec.default.Some? && spec.default.value != ""
    && current == Some(Str(""))
  }

  lemma {:induction false} StringsOfTexts(items: seq<string>)
    ensures Strings(Texts(items)) == items
  {
    if items != [] {
      assert Texts(items)[..|items| - 1] == Texts(items[..|items| - 1]);
      StringsOfTexts(items[..|items| - 1]);
      assert items == items[..|items| - 1] + [items[|items| - 1]];
    }
  }

  predicate CleanItem(s: string) {
    s != "" && Trim(s) == s && Plain(s, ',')
  }

  lemma {:induction false} SplitIsPlain(s: string, sep: char)
    ensures forall i :: 0 <= i < |Split(s, sep)| ==> Plain(Split(s, sep)[i], sep)
  {
    if s != "" { SplitIsPlain(s[1..], sep); }
  }

  lemma {:induction false} NonEmptySelects(parts: seq<string>)
    ensures forall s :: s in NonEmpty(parts) ==> s != "" && s in parts
  {
    if parts != [] { NonEmptySelects(parts[..|parts| - 1]); }
  }

  lemma ItemsAreClean(text: string)
    ensures forall s :: s in Items(text) ==> CleanItem(s)
  {
    var parts := Split(text, ',');
    SplitIsPlain(text, ',');
    NonEmptySelects(TrimAll(parts));
    forall s | s in Items(text) ensures CleanItem(s) {
      var i :| 0 <= i < |parts| && TrimAll(parts)[i] == s;
      TrimTwice(parts[i]);
    }
  }

  /** A typed list: its parts between commas, trimmed, the blank ones left out. */
  lemma ItemsArePartsTrimmed(a: string, b: string)
    ensures Items(a + [','] + b) == Items(a) + Items(b)
    ensures Plain(a, ',') ==> Items(a) == if Trim(a) == "" then [] else [Trim(a)]
  {
    hide Trim, Split, NonEmpty, TrimAll;
    SplitBoth(a, b, ',');
    TrimAllOfBoth(Split(a, ','), Split(b, ','));
    NonEmptyDrops(TrimAll(Split(a, ',')), TrimAll(Split(b, ',')));
    if Plain(a, ',') {
      SplitPlain(a, ',');
      TrimAllOfOne(a);
      NonEmptyDrops([], [Trim(a)]);
    }
  }

  lemma TrimAllOfBoth(a: seq<string>, b: seq<string>)
    ensures TrimAll(a + b) == TrimAll(a) + TrimAll(b)
  {
    hide Trim;
  }

  lemma TrimAllOfOne(s: string)
    ensures TrimAll([s]) == [Trim(s)]
  {
    hide Trim;
  }

  lemma TrimPadded(s: string)
    ensures Trim(" " + s) == Trim(s)
  {
    assert (" " + s)[1..] == s;
  }

  /** Clean items survive being joined for display and split again. */
  lemma ItemsOfJoined(items: seq<string>)
    requires forall s :: s in items ==> CleanItem(s)
    ensures Items(Join(items, ", ")) == items
  {
    if items == [] {
      assert TrimAll([""]) == [""];
      assert NonEmpty([""]) == NonEmpty([""][..0]);
    } else {
      SplitJoin(items, ',', " ");
      assert [','] + " " == ", ";
      var parts := Split(Join(items, ", "), ',');
      assert TrimAll(parts) == items by {
        forall i | 0 <= i < |items| ensures Trim(parts[i]) == items[i] {
          assert items[i] in items;
          if i > 0 { TrimPadded(items[i]); }
        }
      }
      NonEmptyKeepsAll(items);
    }
  }

  lemma ListSettles(spec: FieldSpec, current: Option<Json>, show: Printer)
    requires spec.kind.StringListField?
    ensures var once := Settle(spec, current, show); Settle(spec, once, show) == once
  {
    var items := Items(Join(Strings(AsArray(current).GetOr([])), ", "));
    ItemsAreClean(Join(Strings(AsArray(current).GetOr([])), ", "));
    ItemsOfJoined(items);
    StringsOfTexts(items);
    assert Strings([]) == [] && Join([], ", ") == "" && Items("") == [] by { ItemsOfJoined([]); }
  }

  lemma EnumSettles(spec: FieldSpec, current: Option<Json>, show: Printer)
    requires WellFormedSpec(spec) && spec.kind.EnumField?
    ensures var once := Settle(spec, current, show); Settle(spec, once, show) == once
  {
    var options := spec.kind.options;
    FieldFromMatches(spec, current, show);
    var selected := FieldFrom(spec, current, show).selected;
    PositionInRange(options, options[selected]);
  }

  // --- What an untouched form keeps

  /** What the field's widget can show and write as it is. */
  predicate Fits(spec: FieldSpec, current: Option<Json>) {
    match spec.kind
    case BoolField => current.Some? && current.value.Bool?
    case EnumField(options) => current.Some? && current.value.Str? && current.value.text in options
    case StringListField =>
      current.Some? ==>
        && current.value.Arr? && current.value.items != []
        && forall i :: 0 <= i < |current.value.items| ==>
             current.value.items[i].Str? && CleanItem(current.value.items[i].text)
    case OperatorListField => current.Some? ==> current.value.Arr? && current.value.items != []
    case _ =>
      if current.None? then spec.default.GetOr("") == "" else current.value.Str? && current.value.text != ""
  }

  lemma ListKeepsIff(spec: FieldSpec, current: Option<Json>, show: Printer)
    requires spec.kind.StringListField?
    ensures Settle(spec, current, show) == current <==> Fits(spec, current)
  {
    hide Items, Join, CleanItem, Strings;
    var items := Items(Join(Strings(AsArray(current).GetOr([])), ", "));
    ItemsAreClean(Join(Strings(AsArray(current).GetOr([])), ", "));
    assert forall i :: 0 <= i < |items| ==> CleanItem(items[i]);
    if current.None? {
      CleanTextsSettle([]);
      assert Texts([]) == [];
    } else if Fits(spec, current) {
      var texts := seq(|current.value.items|, i requires 0 <= i < |current.value.items| => current.value.items[i].text);
      assert current.value.items == Texts(texts);
      assert forall s :: s in texts ==> CleanItem(s);
      CleanTextsSettle(texts);
    }
  }

  lemma CleanTextsSettle(texts: seq<string>)
    requires forall s :: s in texts ==> CleanItem(s)
    ensures Items(Join(Strings(Texts(texts)), ", ")) == texts
  {
    hide CleanItem;
    StringsOfTexts(texts);
    ItemsOfJoined(texts);
  }

  lemma EnumKeepsIff(spec: FieldSpec, current: Option<Json>, show: Printer)
    requires WellFormedSpec(spec) && spec.kind.EnumField?
    ensures Settle(spec, current, show) == current <==> Fits(spec, current)
  {
    FieldFromMatches(spec, current, show);
    var shown := Or(TextOf(current), spec.default).GetOr(spec.kind.options[0]);
    PositionInRange(spec.kind.options, shown);
  }

  /** Opened and submitted untouched, a field keeps exactly what fits it. */
  lemma FieldKeepsIff(spec: FieldSpec, current: Option<Json>, show: Printer)
    requires WellFormedSpec(spec)
    ensures Settle(spec, current, show) == current <==> Fits(spec, current)
  {
    match spec.kind
    case EnumField(_) => EnumKeepsIff(spec, current, show);
    case StringListField => ListKeepsIff(spec, current, show);
    case _ =>
  }

  /** So a listed path reads back what it held exactly if that fits its field. */
  lemma ListedSurvivesIff(t: FormType, v: Json, show: Printer, i: nat)
    requires t.Valid() && i < |t.specs|
    ensures GetPath(Normalize(t, v, show), t.specs[i].key) == GetPath(v, t.specs[i].key) <==>
            Fits(t.specs[i], GetPath(v, t.specs[i].key))
  {
    hide Settle, Fits, Normalize;
    NormalizeAt(t, v, show, i);
    FieldKeepsIff(t.specs[i], GetPath(v, t.specs[i].key), show);
  }

  /** What takes the place of a value that does not fit: the default, of an enum the first option
      if there is no default among the options or another text was stored, and of a text that is
      not one what it prints as. */
  lemma UnfitFallsBack(spec: FieldSpec, current: Option<Json>, show: Printer)
    requires WellFormedSpec(spec) && Prints(show) && !Fits(spec, current)
    ensures spec.kind.BoolField? ==> Settle(spec, current, show) == Some(Bool(spec.default == Some("true")))
    ensures spec.kind.EnumField? ==>
              var options := spec.kind.options;
              Settle(spec, current, show) ==
              Some(if (current.Some? && current.value.Str?) || spec.default.None? || spec.default.value !in options
                   then Str(options[0]) else Str(spec.default.value))
    ensures spec.kind in {StrField, DurationField} ==>
              Settle(spec, current, show) ==
              if current == Some(Str("")) then None else if current.None? then Some(Str(spec.default.value))
                else Some(Str(show(current.value)))
    ensures spec.kind.OperatorListField? ==> Settle(spec, current, show) == None
  {
    if spec.kind.EnumField? {
      FieldFromMatches(spec, current, show);
      var shown := Or(TextOf(current), spec.default).GetOr(spec.kind.options[0]);
      PositionInRange(spec.kind.options, shown);
      UnlistedIsFirst(spec.kind.options, shown);
    }
  }

  lemma UnlistedIsFirst(options: seq<string>, text: string)
    ensures text !in options ==> Position(options, text) == 0
  {
  }

  /** One more round changes a field exactly if it is a cleared text with a default. */
  lemma FieldSettlesIff(spec: FieldSpec, current: Option<Json>, show: Printer)
    requires WellFormedSpec(spec) && Prints(show)
    ensures var once := Settle(spec, current, show); Settle(spec, once, show) == once <==> !Reappears(spec, current)
  {
    hide Items;
    match spec.kind
    case EnumField(_) => EnumSettles(spec, current, show);
    case StringListField => ListSettles(spec, current, show);
    case _ =>
  }

  lemma FieldSettlesTwice(spec: FieldSpec, current: Option<Json>, show: Printer)
    requires WellFormedSpec(spec) && Prints(show)
    ensures var twice := Settle(spec, Settle(spec, current, show), show); Settle(spec, twice, show) == twice
  {
    FieldSettlesIff(spec, Settle(spec, current, show), show);
  }

  /** Two rounds always reach the fixpoint. */
  lemma TwoRoundsSuffice(t: FormType, v: Json, show: Printer)
    requires t.Valid() && Prints(show)
    ensures var twice := Normalize(t, Normalize(t, v, show), show); Normalize(t, twice, show) == twice
  {
    hide Settle, Normalize;
    var once := Normalize(t, v, show);
    var twice := Normalize(t, once, show);
    forall i | 0 <= i < |t.specs|
      ensures Settle(t.specs[i], GetPath(twice, t.specs[i].key), show) ==
              Settle(t.specs[i], GetPath(once, t.specs[i].key), show)
    {
      NormalizeAt(t, v, show, i);
      NormalizeAt(t, once, show, i);
      FieldSettlesTwice(t.specs[i], GetPath(v, t.specs[i].key), show);
    }
    NormalizeAlikeIff(t, twice, once, show);
  }

  /** One round is enough exactly when no text field with a default holds an empty text. */
  lemma OneRoundSufficesIff(t: FormType, v: Json, show: Printer)
    requires t.Valid() && Prints(show)
    ensures Normalize(t, Normalize(t, v, show), show) == Normalize(t, v, show)
            <==> forall i :: 0 <= i < |t.specs| ==> !Reappears(t.specs[i], GetPath(v, t.specs[i].key))
  {
    hide Settle, Normalize, Reappears;
    var once := Normalize(t, v, show);
    NormalizeAlikeIff(t, once, v, show);
    forall i | 0 <= i < |t.specs|
      ensures Settle(t.specs[i], GetPath(once, t.specs[i].key), show) ==
              Settle(t.specs[i], GetPath(v, t.specs[i].key), show)
              <==> !Reappears(t.specs[i], GetPath(v, t.specs[i].key))
    {
      NormalizeAt(t, v, show, i);
      FieldSettlesIff(t.specs[i], GetPath(v, t.specs[i].key), show);
    }
  }
}

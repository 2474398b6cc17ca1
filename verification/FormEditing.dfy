/** Keys pressed in a form (crates/collector/src/editor/app.rs, FormState). */
module FormEditing {
  import opened Options
  import opened JsonTree
  import opened Forms

  datatype Key = Enter | Esc | Tab | BackTab | Up | Down | Left | Right | Delete | Char(c: char) | Other

  datatype Outcome = Continue | Submit | Cancel

  /** Focus and choices wrap around; an empty list of fields keeps 0. */
  function Next(i: nat, n: nat): nat { (i + 1) % (if n > 0 then n else 1) }
  function Previous(i: nat, n: nat): nat { if i > 0 then i - 1 else if n > 0 then n - 1 else 0 }

  /** A key for the focused field. `typed` is what the key makes of a text input. */
  function FieldKey(f: FieldState, key: Key, typed: string): FieldState {
    match f
    case Choice(options, selected) =>
      if key == Left then Choice(options, Previous(selected, |options|))
      else if key == Right then Choice(options, Next(selected, |options|))
      else f
    case Toggle(checked) => if key in {Left, Right, Char(' ')} then Toggle(!checked) else f
    case TextInput(_) => TextInput(typed)
    case ListInput(_) => ListInput(typed)
    case Operators(_) => f
  }

  function FormKey(form: FormState, key: Key, typed: string): (FormState, Outcome) {
    match key
    case Enter => (form, Submit)
    case Esc => (form, Cancel)
    case Tab => (form.(focused := Next(form.focused, |form.fields|)), Continue)
    case BackTab => (form.(focused := Previous(form.focused, |form.fields|)), Continue)
    case _ =>
      if form.focused < |form.fields| then
        (form.(fields := form.fields[form.focused := FieldKey(form.fields[form.focused], key, typed)]), Continue)
      else (form, Continue)
  }

  lemma FormKeyKeepsForm(form: FormState, key: Key, typed: string)
    requires WellFormed(form)
    ensures WellFormed(FormKey(form, key, typed).0)
  {
  }

  /** A key in the focused field is written under that field's key and nowhere else: a text input
      takes what is typed, Left, Right and Space flip a toggle, Right goes to the next option and
      Left to the one before, around the ends. */
  lemma KeyIsWritten(form: FormState, key: Key, typed: string, j: nat)
    requires WellFormed(form) && PrefixFree(form.specs, WritesType(form)) && form.focused < |form.specs|
    requires key !in {Enter, Esc, Tab, BackTab} && j < |form.specs|
    ensures WellFormed(FormKey(form, key, typed).0) && FormKey(form, key, typed).1 == Continue
    ensures var after := GetPath(Obj(FormObject(FormKey(form, key, typed).0)), form.specs[j].key);
            if j != form.focused then after == GetPath(Obj(FormObject(form)), form.specs[j].key)
            else
              match form.fields[j]
              case TextInput(_) => after == if typed == "" then None else Some(Str(typed))
              case ListInput(_) => after == if Items(typed) == [] then None else Some(Arr(Texts(Items(typed))))
              case Toggle(checked) => after == Some(Bool(checked != (key in {Left, Right, Char(' ')})))
              case Choice(options, k) =>
                after == Some(Str(if key == Right then if k == |options| - 1 then options[0] else options[k + 1]
                                  else if key == Left then if k == 0 then options[|options| - 1] else options[k - 1]
                                  else options[k]))
              case Operators(ops) => after == if ops == [] then None else Some(Arr(ops))
  {
    hide FormObject, Items, Texts, PrefixFree, GetPath, Next, Previous;
    FormKeyKeepsForm(form, key, typed);
    var after := FormKey(form, key, typed).0;
    FormWrites(form, j);
    FormWrites(after, j);
    if form.fields[j].Choice? { Wraps(form.fields[j].selected, |form.fields[j].options|); }
  }

  lemma Wraps(i: nat, n: nat)
    requires i < n
    ensures Next(i, n) == (if i == n - 1 then 0 else i + 1) && Previous(i, n) == if i == 0 then n - 1 else i - 1
  {
  }

  lemma PreviousUndoesNext(i: nat, n: nat)
    requires i == 0 || i < n
    ensures Next(i, n) == 0 || Next(i, n) < n
    ensures Previous(Next(i, n), n) == if n == 0 then 0 else i
  {
  }

  /** BackTab undoes Tab, and Left undoes Right; keys that move or leave change no field. */
  lemma KeysUndo(form: FormState, key: Key, typed: string)
    requires WellFormed(form)
    ensures FormKey(FormKey(form, Tab, typed).0, BackTab, typed).0 == form
    ensures form.focused < |form.fields| && !form.fields[form.focused].TextInput?
            && !form.fields[form.focused].ListInput? ==>
              FormKey(FormKey(form, Right, typed).0, Left, typed).0 == form
    ensures forall k :: k in {Tab, BackTab, Enter, Esc} ==> FormKey(form, k, typed).0.fields == form.fields
  {
    PreviousUndoesNext(form.focused, |form.fields|);
    if form.focused < |form.fields| {
      var field := form.fields[form.focused];
      if field.Choice? { PreviousUndoesNext(field.selected, |field.options|); }
      assert form.fields[form.focused := field] == form.fields;
    }
  }

  // --- The operators of a form

  function AdvanceFocus(form: FormState): FormState {
    form.(focused := Next(form.focused, |form.fields|))
  }

  function OperatorField(specs: seq<FieldSpec>): Option<nat> {
    if specs == [] then None
    else if specs[0].kind.OperatorListField? then Some(0)
    else match OperatorField(specs[1..]) case None => None case Some(i) => Some(i + 1)
  }

  lemma {:induction false} OperatorFieldIsFirst(specs: seq<FieldSpec>)
    ensures match OperatorField(specs)
            case None => forall i :: 0 <= i < |specs| ==> !specs[i].kind.OperatorListField?
            case Some(k) => k < |specs| && specs[k].kind.OperatorListField? && forall i :: 0 <= i < k ==>
              !specs[i].kind.OperatorListField?
  {
    if specs != [] {
      OperatorFieldIsFirst(specs[1..]);
      assert forall i :: 0 < i < |specs| ==> specs[i] == specs[1..][i - 1];
    }
  }

  function OperatorsOf(form: FormState): seq<Json> {
    match OperatorField(form.specs)
    case Some(i) => if i < |form.fields| && form.fields[i].Operators? then form.fields[i].ops else []
    case None => []
  }

  function SetOperators(form: FormState, ops: seq<Json>): FormState {
    match OperatorField(form.specs)
    case Some(i) => if i < |form.fields| && form.fields[i].Operators? then
      form.(fields := form.fields[i := Operators(ops)]) else form
    case None => form
  }

  /** What is set is what is read back, in a form that has an operators field at all; the
      rest of the form stays. */
  lemma SetOperatorsSets(form: FormState, ops: seq<Json>)
    requires WellFormed(form)
    ensures WellFormed(SetOperators(form, ops))
    ensures OperatorsOf(SetOperators(form, ops)) == if OperatorField(form.specs).Some? then ops else []
    ensures forall i :: 0 <= i < |form.fields| && !form.fields[i].Operators? ==>
            SetOperators(form, ops).fields[i] == form.fields[i]
  {
    OperatorFieldIsFirst(form.specs);
  }

  // --- New components

  function SeedValue(spec: FieldSpec): Json {
    if spec.default.Some? then Str(spec.default.value)
    else match spec.kind
      case StringListField => Arr([Str("placeholder")])
      case BoolField => Bool(false)
      case OperatorListField => Arr([])
      case EnumField(options) => Str(if options == [] then "" else options[0])
      case _ => Str("placeholder")
  }

  function Seeded(specs: seq<FieldSpec>): Object {
    if specs == [] then map[] else
      var last, before := specs[|specs| - 1], Seeded(specs[..|specs| - 1]);
      if last.required then SetPath(before, last.key, SeedValue(last)) else before
  }

  method MinimalValue(specs: seq<FieldSpec>) returns (v: Json)
    ensures v == Obj(Seeded(specs))
  {
    hide SetPath;
    var written: Object := map[];
    for i := 0 to |specs|
      invariant written == Seeded(specs[..i])
    {
      assert specs[..i + 1][..i] == specs[..i];
      if specs[i].required {
        written := SetPath(written, specs[i].key, SeedValue(specs[i]));
      }
    }
    assert specs[..|specs|] == specs;
    v := Obj(written);
  }

  lemma {:induction false} SeededElsewhere(specs: seq<FieldSpec>, path: Path)
    requires forall i :: 0 <= i < |specs| ==> Incomparable(specs[i].key, path)
    ensures GetPath(Obj(Seeded(specs)), path) == None
  {
    if specs != [] {
      var n := |specs| - 1;
      SeededElsewhere(specs[..n], path);
      if specs[n].required { SetKeepsOthers(Seeded(specs[..n]), specs[n].key, SeedValue(specs[n]), path); }
    }
  }

  lemma {:induction false} SeededAt(specs: seq<FieldSpec>, i: nat)
    requires i < |specs| && PrefixFree(specs, false)
    ensures GetPath(Obj(Seeded(specs)), specs[i].key) == if specs[i].required then Some(SeedValue(specs[i])) else None
    decreases |specs|
  {
    var n := |specs| - 1;
    if i == n {
      SeededElsewhere(specs[..n], specs[n].key);
      if specs[n].required { SetThenGet(Seeded(specs[..n]), specs[n].key, SeedValue(specs[n])); }
    } else {
      SeededAt(specs[..n], i);
      if specs[n].required { SetKeepsOthers(Seeded(specs[..n]), specs[n].key, SeedValue(specs[n]), specs[i].key); }
    }
  }

  /** What a field shows of its own seed. */
  function Shown(spec: FieldSpec, show: Printer): FieldState
    requires WellFormedSpec(spec)
  {
    if spec.required && spec.default.None? && spec.kind in {StrField, DurationField} then TextInput("placeholder")
    else if spec.required && spec.default.None? && spec.kind == StringListField then ListInput("placeholder")
    else FieldFrom(spec, None, show)
  }

  lemma SeedShows(spec: FieldSpec, show: Printer)
    requires WellFormedSpec(spec) && spec.required
    ensures FieldFrom(spec, Some(SeedValue(spec)), show) == Shown(spec, show)
  {
    var items := [Str("placeholder")];
    assert items[..0] == [] && Strings(items[..0]) == [];
    assert Strings(items) == ["placeholder"];
  }

  /** A new component's form shows what an empty one would, except that required texts and
      lists without a default hold a placeholder. */
  lemma SeededFormShows(typeName: string, specs: seq<FieldSpec>, show: Printer, i: nat)
    requires (forall k :: 0 <= k < |specs| ==> WellFormedSpec(specs[k])) && PrefixFree(specs, false) && i < |specs|
    ensures NewForm(Some(typeName), false, specs, Obj(Seeded(specs)), show).fields[i] == Shown(specs[i], show)
  {
    hide FieldFrom, SeedValue, Seeded, PrefixFree;
    SeededAt(specs, i);
    if specs[i].required { SeedShows(specs[i], show); }
  }
}

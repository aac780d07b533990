/** The clone panel of a gene: the idle / adding / editing(id) modes, the
    form being edited, the save that hands the form to the internal-fields
    update, and the display and input rules of its fields. */
module CloneManagement {
  import opened Options
  import opened JsValues
  import opened GenesHook

  /** A call to `updateInternalFields`: the gene, the form, and the clone id
      passed as a third argument when a clone is being edited. The hook's
      function takes two parameters, so that id reaches no query. */
  datatype UpdateCall = UpdateCall(geneId: string, fields: map<string, Value>, cloneId: Option<string>)

  /** The input kinds of the edit form. */
  datatype FieldKind = TextInput | NumberInput | TextArea

  /** `renderField` shows a read-only field only when its value is truthy. */
  predicate ShowsField(value: Value)
  {
    Truthy(value)
  }

  /** `String(value || '')`: the text an edit input shows for a form value. */
  function ShownText(value: Value): string
  {
    OrEmpty(value)
  }

  /** What typing `input` stores: `Number(input)` in a number input, the
      text itself in any other. */
  function EditedValue(kind: FieldKind, input: string): Value
  {
    if kind == NumberInput then Number(ToNumber(input)) else Text(input)
  }

  /** Empty text, undefined and the number 0 (a price of 0 included) are
      hidden; a non-empty text is shown and copied as typed. */
  lemma ShowsFieldSpec(s: string)
    ensures !ShowsField(Undefined) && !ShowsField(Text("")) && !ShowsField(Number(Zero))
    ensures ShowsField(Text(s)) <==> s != ""
    ensures s != "" ==> ShownText(Text(s)) == s
  {
  }

  /** Clearing a number input stores 0, which the input then shows as empty:
      a cleared number field and a field holding 0 look the same. */
  lemma ClearedNumberShowsEmpty()
    ensures EditedValue(NumberInput, "") == Number(Zero)
    ensures ShownText(EditedValue(NumberInput, "")) == ""
  {
    ToNumberOfEmpty();
  }

  /** Text typed into a text input or text area shows back unchanged. */
  lemma TypedTextShowsBack(kind: FieldKind, input: string)
    requires kind != NumberInput
    ensures ShownText(EditedValue(kind, input)) == input
  {
  }

  /** `else if (editingClone)`: an empty id does not count as editing. */
  predicate IsSet(id: Option<string>)
  {
    id.Some? && id.value != ""
  }

  /** The clone panel's state for one gene. */
  class CloneEditor {
    const gene: GeneData
    var editingClone: Option<string>
    var isAddingClone: bool
    var formData: map<string, Value>

    constructor (gene: GeneData)
      ensures this.gene == gene
      ensures editingClone == None && !isAddingClone && formData == map[]
    {
      this.gene := gene;
      editingClone, isAddingClone, formData := None, false, map[];
    }

    /** `handleEdit`: edit the given clone, the form holding its record.
        Adding mode is left as it was. */
    method HandleEdit(clone: InternalFields)
      modifies this
      ensures editingClone == Some(clone.id) && formData == Record(clone)
      ensures isAddingClone == old(isAddingClone)
    {
      editingClone := Some(clone.id);
      formData := Record(clone);
    }

    /** `handleAddNew`: adding mode, the form holding only an empty clone
        name. The edited clone id is left as it was. */
    method HandleAddNew()
      modifies this
      ensures isAddingClone && formData == map["clone" := Text("")]
      ensures editingClone == old(editingClone)
    {
      isAddingClone := true;
      formData := map["clone" := Text("")];
    }

    /** `handleCancel`: both modes cleared, the form emptied. */
    method HandleCancel()
      modifies this
      ensures editingClone == None && !isAddingClone && formData == map[]
    {
      editingClone := None;
      isAddingClone := false;
      formData := map[];
    }

    /** Typing `input` into the form field `key` of the given kind. */
    method EditField(key: string, kind: FieldKind, input: string)
      modifies this
      ensures formData == old(formData)[key := EditedValue(kind, input)]
      ensures editingClone == old(editingClone) && isAddingClone == old(isAddingClone)
    {
      formData := formData[key := EditedValue(kind, input)];
    }

    /** `handleSave` for the signed-in user, if any, with the database's
        error for the upsert, if any. Returns the update call made, the
        upsert it issues and whether `onUpdate` was called. Adding mode
        wins over editing mode. A save whose update fails changes no state
        and calls nothing after it; a successful one clears the mode it
        saved and empties the form; with neither mode set the form is
        emptied without any update. */
    method HandleSave(user: Option<string>, upsertError: Option<string>)
      returns (call: Option<UpdateCall>, upsert: Option<map<string, Value>>, notified: bool)
      modifies this
      ensures old(isAddingClone) ==> call == Some(UpdateCall(gene.gene.id, old(formData), None))
      ensures !old(isAddingClone) && IsSet(old(editingClone)) ==>
        call == Some(UpdateCall(gene.gene.id, old(formData), old(editingClone)))
      ensures call.None? <==> !old(isAddingClone) && !IsSet(old(editingClone))
      ensures call.None? ==> upsert == None
      ensures call.Some? ==> upsert == UpdateInternalFields(gene.gene.id, old(formData), user, upsertError).upsert
      ensures call.Some? && UpdateInternalFields(gene.gene.id, old(formData), user, upsertError).error.Some? ==>
        !notified && editingClone == old(editingClone) && isAddingClone == old(isAddingClone) && formData == old(formData)
      ensures call.None? || UpdateInternalFields(gene.gene.id, old(formData), user, upsertError).error.None? ==>
        notified && formData == map[]
      ensures call.Some? && UpdateInternalFields(gene.gene.id, old(formData), user, upsertError).error.None? ==>
        if old(isAddingClone) then !isAddingClone && editingClone == old(editingClone)
        else editingClone == None && isAddingClone == old(isAddingClone)
      ensures call.None? ==> editingClone == old(editingClone) && isAddingClone == old(isAddingClone)
    {
      call, upsert, notified := None, None, false;
      if isAddingClone {
        call := Some(UpdateCall(gene.gene.id, formData, None));
        var outcome := UpdateInternalFields(gene.gene.id, formData, user, upsertError);
        upsert := outcome.upsert;
        if outcome.error.Some? {
          return;
        }
        isAddingClone := false;
      } else if IsSet(editingClone) {
        call := Some(UpdateCall(gene.gene.id, formData, editingClone));
        var outcome := UpdateInternalFields(gene.gene.id, formData, user, upsertError);
        upsert := outcome.upsert;
        if outcome.error.Some? {
          return;
        }
        editingClone := None;
      }
      formData := map[];
      notified := true;
    }
  }

  /** Adding a clone while another is being edited and saving: the update
      carries no clone id, adding mode ends and the edited clone id stays,
      so the panel returns to editing with an empty form. */
  method AddWhileEditing(gene: GeneData, clone: InternalFields, user: string)
    returns (cloneId: Option<string>, stillEditing: Option<string>, form: map<string, Value>)
    ensures cloneId == None
    ensures stillEditing == Some(clone.id)
    ensures form == map[]
  {
    var editor := new CloneEditor(gene);
    editor.HandleEdit(clone);
    editor.HandleAddNew();
    var call, upsert, notified := editor.HandleSave(Some(user), None);
    cloneId := call.value.cloneId;
    stillEditing := editor.editingClone;
    form := editor.formData;
  }

  /** Without a signed-in user, saving an edited clone fails: the editor
      keeps the clone, its form and the typed value. */
  method SaveWithoutUserKeepsForm(gene: GeneData, clone: InternalFields, key: string, input: string)
    returns (editing: Option<string>, value: Value)
    requires clone.id != ""
    ensures editing == Some(clone.id)
    ensures value == Text(input)
  {
    var editor := new CloneEditor(gene);
    editor.HandleEdit(clone);
    editor.EditField(key, TextArea, input);
    var call, upsert, notified := editor.HandleSave(None, None);
    editing := editor.editingClone;
    value := editor.formData[key];
  }
}

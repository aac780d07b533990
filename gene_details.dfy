/** The gene details view: the internal-fields edit form, the fields a save
    writes, the merged record handed back to the page, and the
    editing state. */
module GeneDetails {
  import opened Strings
  import opened Sequences
  import opened Options
  import opened JsValues
  import opened GenesHook
  import opened TagParsing

  // ---------------------------------------------------------------------
  // The edit form
  // ---------------------------------------------------------------------

  /** The text fields of the form, in form order (tags and price aside). */
  const EditTextKeys: seq<string> := [
    "notes", "assigned_to", "parent_product_id", "nbt_num", "catalog_num", "host", "clone",
    "clonality", "isotype", "light_chain", "storage_temperature", "lead_time", "country_of_origin",
    "datasheet_url", "website_url_to_product", "product_application", "research_area", "image_url",
    "image_filename", "image_caption", "positive_control", "expression_system", "purification",
    "supplied_as", "immunogen"]

  /** The form's contents: the text fields by name, the tags (an array, or
      a string if one was stored) and the price as typed. */
  datatype EditData = EditData(text: map<string, string>, tags: Value, price: string)

  function StoredFields(internal: Option<InternalFields>): map<string, Value>
  {
    if internal.Some? then internal.value.fields else map[]
  }

  /** `price_usd?.toString() || ''`: a stored price prints even when it is
      zero. */
  function PriceText(price: Value): string
  {
    if price.Undefined? then "" else JsString(price)
  }

  /** The form's initial values: each text field's stored value or "", the
      stored tags or [], the stored price as text or "". */
  function InitialEditData(internal: Option<InternalFields>): (r: EditData)
    ensures r.text.Keys == set k | k in EditTextKeys
  {
    var stored := StoredFields(internal);
    EditData(map k | k in EditTextKeys :: OrEmpty(Get(stored, k)),
             Or(Get(stored, "tags"), TagList([])),
             PriceText(Get(stored, "price_usd")))
  }

  /** A gene with no internal fields starts from an empty form. */
  lemma InitialEditDataEmpty()
    ensures InitialEditData(None) == EditData(map k | k in EditTextKeys :: "", TagList([]), "")
  {
  }

  /** `fieldsToUpdate`: the form's fields, with the tags parsed when they
      are a string and the price read by `parseFloat`, or undefined when
      empty. None when the tags are neither an array nor a string: splitting
      them throws and the save stops. */
  function FieldsToUpdate(e: EditData): (r: Option<map<string, Value>>)
    ensures r.Some? <==> e.tags.TagList? || e.tags.Text?
  {
    if !(e.tags.TagList? || e.tags.Text?) then None
    else
      var tags := if e.tags.TagList? then e.tags else TagList(ParseTags(e.tags.s));
      var price := if e.price != "" then Number(ParseFloat(e.price)) else Undefined;
      Some(TextFields(e.text)["tags" := tags]["price_usd" := price])
  }

  function TextFields(text: map<string, string>): (r: map<string, Value>)
    ensures r.Keys == text.Keys
    ensures forall k :: k in text ==> r[k] == Text(text[k])
  {
    map k | k in text :: Text(text[k])
  }

  /** The saved fields are the form's text fields, the tags passed through
      when they are an array and parsed when a string, and the price as the
      number `parseFloat` reads, or undefined when the input is empty. */
  lemma FieldsToUpdateSpec(e: EditData)
    requires e.tags.TagList? || e.tags.Text?
    ensures var r := FieldsToUpdate(e).value;
      && r.Keys == e.text.Keys + {"tags", "price_usd"}
      && (e.tags.TagList? ==> r["tags"] == e.tags)
      && (e.tags.Text? ==> r["tags"] == TagList(ParseTags(e.tags.s)))
      && (e.price == "" ==> r["price_usd"] == Undefined)
      && (e.price != "" ==> r["price_usd"] == Number(ParseFloat(e.price)))
      && (forall k :: k in e.text && k != "tags" && k != "price_usd" ==> r[k] == Text(e.text[k]))
  {
  }

  /** The stored internal fields as one record. */
  function AsRecord(internal: Option<InternalFields>): map<string, Value>
  {
    if internal.None? then map[] else Record(internal.value)
  }

  /** The internal fields handed to `onUpdate`: the old record overlaid by
      the saved fields, then the new update time. */
  function MergedInternalFields(internal: Option<InternalFields>, saved: map<string, Value>, now: string): (r: map<string, Value>)
    ensures r.Keys == AsRecord(internal).Keys + saved.Keys + {"updated_at"}
    ensures r["updated_at"] == Text(now)
    ensures forall k :: k in saved && k != "updated_at" ==> r[k] == saved[k]
    ensures forall k :: k in AsRecord(internal) && k !in saved && k != "updated_at" ==> r[k] == AsRecord(internal)[k]
  {
    (AsRecord(internal) + saved)["updated_at" := Text(now)]
  }

  /** `own || external || placeholder`: the stored value when truthy, else
      the external one when truthy, else the placeholder text. The name
      falls back to "No name available", the description to "No description
      available". */
  function Displayed(own: Value, external: Value, placeholder: string): (r: string)
    ensures Truthy(own) && own.Text? ==> r == own.s
    ensures !Truthy(own) && Truthy(external) && external.Text? ==> r == external.s
    ensures !Truthy(own) && !Truthy(external) ==> r == placeholder
  {
    if Truthy(own) then JsString(own)
    else if Truthy(external) then JsString(external)
    else placeholder
  }

  const NoName: string := "No name available"
  const NoDescription: string := "No description available"

  /** The details view's state for one gene. */
  class DetailsEditor {
    const gene: GeneData
    var isEditing: bool
    var editData: EditData

    constructor (gene: GeneData)
      ensures this.gene == gene && !isEditing && editData == InitialEditData(gene.internal)
    {
      this.gene := gene;
      isEditing := false;
      editData := InitialEditData(gene.internal);
    }

    /** The Edit button. */
    method StartEditing()
      modifies this
      ensures isEditing && editData == old(editData)
    {
      isEditing := true;
    }

    /** Typing in the tags input stores the parsed tags. */
    method EditTags(input: string)
      modifies this
      ensures editData == old(editData).(tags := TagList(ParseTags(input)))
      ensures unchanged(this`isEditing)
    {
      editData := editData.(tags := TagList(ParseTags(input)));
    }

    /** Typing in the price input stores the text as typed. */
    method EditPrice(input: string)
      modifies this
      ensures editData == old(editData).(price := input) && isEditing == old(isEditing)
    {
      editData := editData.(price := input);
    }

    /** Typing in a text field. */
    method EditText(key: string, input: string)
      modifies this
      ensures editData == old(editData).(text := old(editData).text[key := input]) && isEditing == old(isEditing)
    {
      editData := editData.(text := editData.text[key := input]);
    }

    /** `handleSave` for the signed-in user, if any, with the database's
        error for the upsert, if any, at time `now`. Returns the upsert
        issued and the internal fields handed to `onUpdate`, if any. When
        the update succeeds, editing ends and the merged fields are handed
        on; when it fails, or the tags cannot be split, the state is kept
        and nothing is handed on. The form is never changed. */
    method HandleSave(user: Option<string>, upsertError: Option<string>, now: string)
      returns (upsert: Option<map<string, Value>>, updated: Option<map<string, Value>>)
      modifies this
      ensures editData == old(editData)
      ensures FieldsToUpdate(old(editData)).None? ==> upsert == None && updated == None && isEditing == old(isEditing)
      ensures FieldsToUpdate(old(editData)).Some? ==>
        var outcome := UpdateInternalFields(gene.gene.id, FieldsToUpdate(old(editData)).value, user, upsertError);
        && upsert == outcome.upsert
        && (outcome.error.None? ==>
              !isEditing && updated == Some(MergedInternalFields(gene.internal, FieldsToUpdate(old(editData)).value, now)))
        && (outcome.error.Some? ==> isEditing == old(isEditing) && updated == None)
    {
      upsert, updated := None, None;
      var fieldsToUpdate := FieldsToUpdate(editData);
      if fieldsToUpdate.None? {
        return;
      }
      var outcome := UpdateInternalFields(gene.gene.id, fieldsToUpdate.value, user, upsertError);
      upsert := outcome.upsert;
      if outcome.error.Some? {
        return;
      }
      isEditing := false;
      updated := Some(MergedInternalFields(gene.internal, fieldsToUpdate.value, now));
    }

    /** `handleCancel`: back to the initial values, out of editing. */
    method HandleCancel()
      modifies this
      ensures !isEditing && editData == InitialEditData(gene.internal)
    {
      editData := InitialEditData(gene.internal);
      isEditing := false;
    }
  }

  /** Cancelling after any edits gives back the form the view opened with. */
  method CancelRestoresForm(gene: GeneData, tagsInput: string, priceInput: string) returns (same: bool)
    ensures same
  {
    var editor := new DetailsEditor(gene);
    var initial := editor.editData;
    editor.StartEditing();
    editor.EditTags(tagsInput);
    editor.EditPrice(priceInput);
    editor.HandleCancel();
    same := editor.editData == initial && !editor.isEditing;
  }
}

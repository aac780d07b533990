/** The genes hook: the stored genes joined with the signed-in user's
    internal fields, the loading state around that fetch, and the record an
    internal-fields update writes. The database is a parameter: its replies
    are passed in, and a query is modelled by the rows it selects. */
module GenesHook {
  import opened Sequences
  import opened Options
  import opened JsValues

  /** A stored gene. `genomicPos` is the `external_data.genomic_pos` object's
      `chr` property when that object is present and truthy. */
  datatype Gene = Gene(
    id: string,
    symbol: string,
    entrez_id: Value,
    name: Value,
    description: Value,
    created_at: string,
    updated_at: string,
    genomicPos: Option<Value>)

  /** A stored internal-fields record: its keys, and every other column by
      its database name. */
  datatype InternalFields = InternalFields(
    id: string,
    gene_id: string,
    user_id: string,
    updated_at: string,
    fields: map<string, Value>)

  /** A stored internal-fields record as one object: its columns, the keys
      among them. */
  function Record(f: InternalFields): (r: map<string, Value>)
    ensures r.Keys == f.fields.Keys + {"id", "gene_id", "user_id", "updated_at"}
  {
    f.fields["id" := Text(f.id)]["gene_id" := Text(f.gene_id)]["user_id" := Text(f.user_id)]["updated_at" := Text(f.updated_at)]
  }

  /** A gene with the internal fields attached to it, if any. */
  datatype GeneData = GeneData(gene: Gene, internal: Option<InternalFields>)

  /** `internalFieldsData.find(field => field.gene_id === geneId)`. */
  function FindInternalFields(records: seq<InternalFields>, geneId: string): (r: Option<InternalFields>)
    ensures r.None? <==> forall k :: 0 <= k < |records| ==> records[k].gene_id != geneId
    ensures r.Some? ==> r.value in records && r.value.gene_id == geneId
  {
    if records == [] then None
    else if records[0].gene_id == geneId then Some(records[0])
    else FindInternalFields(records[1..], geneId)
  }

  /** `find` returns the first matching record. */
  lemma {:induction false} FindInternalFieldsFirst(records: seq<InternalFields>, geneId: string, i: nat)
    requires i < |records| && records[i].gene_id == geneId
    requires forall j :: 0 <= j < i ==> records[j].gene_id != geneId
    ensures FindInternalFields(records, geneId) == Some(records[i])
  {
    if i > 0 {
      FindInternalFieldsFirst(records[1..], geneId, i - 1);
    }
  }

  /** `combinedData`: each gene with its internal fields. */
  function CombinedData(genesData: seq<Gene>, internalData: seq<InternalFields>): (r: seq<GeneData>)
    ensures |r| == |genesData|
    ensures forall i :: 0 <= i < |r| ==> r[i].gene == genesData[i]
  {
    seq(|genesData|, i requires 0 <= i < |genesData| => GeneData(genesData[i], FindInternalFields(internalData, genesData[i].id)))
  }

  /** The join keeps the genes, one entry per gene in the same order and
      unchanged; an entry carries internal fields exactly when a record for
      that gene was loaded, and then the record is for that gene. */
  lemma CombinedDataSpec(genesData: seq<Gene>, internalData: seq<InternalFields>)
    ensures |CombinedData(genesData, internalData)| == |genesData|
    ensures forall i :: 0 <= i < |genesData| ==> CombinedData(genesData, internalData)[i].gene == genesData[i]
    ensures forall i :: 0 <= i < |genesData| ==>
      (CombinedData(genesData, internalData)[i].internal.Some? <==>
        exists k :: 0 <= k < |internalData| && internalData[k].gene_id == genesData[i].id)
    ensures forall i :: 0 <= i < |genesData| && CombinedData(genesData, internalData)[i].internal.Some? ==>
      CombinedData(genesData, internalData)[i].internal.value.gene_id == genesData[i].id
  {
  }

  /** A reply from the database: an error, or the selected rows (which may
      be null). */
  datatype Reply<T> = Failed | Returned(data: Option<seq<T>>)

  function RowsOr<T>(reply: Reply<T>): seq<T>
  {
    if reply.Returned? && reply.data.Some? then reply.data.value else []
  }

  /** The internal-fields query: the user's records for the listed genes. */
  predicate Selected(userId: string, geneIds: seq<string>, record: InternalFields)
  {
    record.user_id == userId && record.gene_id in geneIds
  }

  function GeneIds(genesData: seq<Gene>): (r: seq<string>)
    ensures |r| == |genesData|
  {
    seq(|genesData|, i requires 0 <= i < |genesData| => genesData[i].id)
  }

  /** The internal fields `fetchGenes` loads: with a signed-in user and gene
      rows present, the user's records for those genes from the
      `internal_fields` table, unless that query fails; none otherwise. */
  function LoadedInternalFields(genesData: Option<seq<Gene>>, user: Option<string>,
                                table: seq<InternalFields>, internalQueryFails: bool): seq<InternalFields>
  {
    if user.Some? && genesData.Some? && !internalQueryFails then
      Filter(table, (r: InternalFields) => Selected(user.value, GeneIds(genesData.value), r))
    else []
  }

  /** With no signed-in user, no gene gets internal fields; with one, every
      attached record is that user's. */
  lemma LoadedInternalFieldsSpec(genesData: seq<Gene>, user: Option<string>,
                                 table: seq<InternalFields>, internalQueryFails: bool)
    ensures var combined := CombinedData(genesData, LoadedInternalFields(Some(genesData), user, table, internalQueryFails));
      && (user.None? ==> forall i :: 0 <= i < |combined| ==> combined[i].internal.None?)
      && (user.Some? ==> forall i :: 0 <= i < |combined| && combined[i].internal.Some? ==>
            combined[i].internal.value.user_id == user.value && combined[i].internal.value in table)
  {
    var loaded := LoadedInternalFields(Some(genesData), user, table, internalQueryFails);
    if user.Some? && !internalQueryFails {
      var p := (r: InternalFields) => Selected(user.value, GeneIds(genesData), r);
      forall x | x in loaded ensures x.user_id == user.value && x in table {
        FilterMembers(table, p, x);
      }
    }
  }

  /** The record `updateInternalFields` upserts: the gene and user ids,
      overlaid by the edited fields, whose keys win. */
  function UpsertRecord(geneId: string, userId: string, fields: map<string, Value>): (r: map<string, Value>)
    ensures r.Keys == fields.Keys + {"gene_id", "user_id"}
    ensures forall k :: k in fields ==> r[k] == fields[k]
    ensures "gene_id" !in fields ==> r["gene_id"] == Text(geneId)
    ensures "user_id" !in fields ==> r["user_id"] == Text(userId)
  {
    map["gene_id" := Text(geneId), "user_id" := Text(userId)] + fields
  }

  const NotLoggedIn: string := "You must be logged in to update internal fields"

  /** What `updateInternalFields` does: the upsert it issues, if any, and the
      error it raises, if any. */
  datatype UpdateOutcome = UpdateOutcome(upsert: Option<map<string, Value>>, error: Option<string>)

  /** `updateInternalFields(geneId, fields)` for the signed-in user, if any;
      `upsertError` is the database's error for the upsert, if any. */
  function UpdateInternalFields(geneId: string, fields: map<string, Value>, user: Option<string>,
                                upsertError: Option<string>): (r: UpdateOutcome)
    ensures user.None? <==> r.upsert.None?
    ensures user.None? ==> r.error == Some(NotLoggedIn)
    ensures user.Some? ==> r.upsert == Some(UpsertRecord(geneId, user.value, fields)) && r.error == upsertError
  {
    match user
    case None => UpdateOutcome(None, Some(NotLoggedIn))
    case Some(uid) => UpdateOutcome(Some(UpsertRecord(geneId, uid, fields)), upsertError)
  }

  /** The hook's state. */
  class GenesStore {
    var genes: seq<GeneData>
    var loading: bool

    constructor ()
      ensures genes == [] && !loading
    {
      genes, loading := [], false;
    }

    /** `fetchGenes`. `genesReply` is the reply to the genes query; `user`
        the signed-in user, if any; `table` the `internal_fields` table and
        `internalQueryFails` whether that query errs. A failed genes query
        leaves the genes as they were; otherwise the genes become the
        returned rows (none when null) joined with the loaded internal
        fields. Loading is off at the end either way. */
    method FetchGenes(genesReply: Reply<Gene>, user: Option<string>, table: seq<InternalFields>, internalQueryFails: bool)
      modifies this
      ensures !loading
      ensures genesReply.Failed? ==> genes == old(genes)
      ensures genesReply.Returned? ==>
        genes == CombinedData(RowsOr(genesReply), LoadedInternalFields(genesReply.data, user, table, internalQueryFails))
    {
      loading := true;
      if genesReply.Failed? {
        loading := false;
        return;
      }
      var genesData := genesReply.data;
      var internalFieldsData: seq<InternalFields> := [];
      if user.Some? && genesData.Some? {
        if !internalQueryFails {
          internalFieldsData := Filter(table, (r: InternalFields) => Selected(user.value, GeneIds(genesData.value), r));
        }
      }
      genes := CombinedData(RowsOr(genesReply), internalFieldsData);
      loading := false;
    }
  }
}

/** The request builders of the recipe handlers: the attachment PATCH, the storage
    upload form and the record-save body. The menu blueprint keeps them in
    app/blueprints/menu/functions.py; the core blueprint has its own copies, which
    differ only in where the table id comes from. */
module MenuFunctions {
  import opened Values
  import opened Text
  import RecipeModel

  /** A request to a table's `records` endpoint. */
  datatype Request = Request(table: string, body: Object)

  /** `isinstance(meta, list)` then `meta[0]`: only the first element of a list
      is used; None where indexing an empty list raises. */
  function FirstAttachment(meta: Value): (m: Option<Value>)
    ensures meta.List? && meta.items != [] ==> m == Some(meta.items[0])
    ensures meta.List? && meta.items == [] ==> m == None
    ensures !meta.List? ==> m == Some(meta)
  {
    if meta.List? then (if meta.items == [] then None else Some(meta.items[0])) else Some(meta)
  }

  /** Metadata that passed the `if not attachment_metadata` check never hits the
      empty-list case. */
  lemma TruthyHasFirst(meta: Value)
    requires Truthy(meta)
    ensures FirstAttachment(meta).Some?
  {
  }

  /** The four keys copied from the metadata, None where absent. */
  const CopiedKeys: set<string> := {"path", "title", "mimetype", "size"}

  /** `attachment_json`: None where the metadata is not a dict, so that `.get` raises. */
  function AttachmentJson(meta: Value): (a: Option<Object>)
    ensures a.Some? <==> FirstAttachment(meta).Some? && FirstAttachment(meta).value.Dict?
    ensures a.Some? ==>
      var m := FirstAttachment(meta).value.entries;
      && a.value.Keys == CopiedKeys + {"signedPath"} + (if "id" in m then {"id"} else {})
      && (forall k :: k in CopiedKeys ==> a.value[k] == (if k in m then m[k] else Null))
      && a.value["signedPath"] == (if "signedPath" in m then m["signedPath"] else Str(""))
      && ("id" in m ==> a.value["id"] == m["id"])
  {
    match FirstAttachment(meta)
    case Some(Dict(m)) =>
      var a := map["path" := Get(m, "path", Null), "title" := Get(m, "title", Null),
                   "mimetype" := Get(m, "mimetype", Null), "size" := Get(m, "size", Null),
                   "signedPath" := Get(m, "signedPath", Str(""))];
      Some(if "id" in m then a["id" := m["id"]] else a)
    case _ => None
  }

  /** `update_record_with_attachment`'s PATCH: the record id and a Photo column
      holding the serialised one-element list of the attachment. The table is the
      configured recipes table whatever `tableId` says. */
  function AttachmentPatch(recordId: Value, meta: Value, tableId: string, configTableId: string, lib: Foreign): (r: Option<Request>)
    ensures r.Some? <==> AttachmentJson(meta).Some?
    ensures r.Some? ==> r.value.table == configTableId
    ensures r.Some? ==> r.value.body.Keys == {"Id", "Photo"} && r.value.body["Id"] == recordId
                        && r.value.body["Photo"] == Str(lib.jsonDumps(List([Dict(AttachmentJson(meta).value)])))
  {
    match AttachmentJson(meta)
    case None => None
    case Some(a) => Some(Request(configTableId, map["Id" := recordId, "Photo" := Str(lib.jsonDumps(List([Dict(a)])))]))
  }

  /** The `table_id` argument has no effect on the PATCH. */
  lemma AttachmentTableIgnored(recordId: Value, meta: Value, t1: string, t2: string, configTableId: string, lib: Foreign)
    ensures AttachmentPatch(recordId, meta, t1, configTableId, lib) == AttachmentPatch(recordId, meta, t2, configTableId, lib)
  {
  }

  /** The multipart form of an upload and the `path` query parameter. */
  datatype UploadForm = UploadForm(
    queryPath: string, mimetype: string, path: string, size: string, title: string, fileName: string)

  const UploadPrefix := "download/noco/"
  const JpegMime := "image/jpeg"

  /** `upload_file_to_storage`'s request for a file of `fileSize` bytes at `filePath`. */
  function Upload(filePath: string, tableId: string, fileSize: nat, lib: Foreign): (f: UploadForm)
    ensures f.queryPath == UploadPrefix + tableId + "/" + lib.secureFilename(LastSegment(filePath))
    ensures f.path == f.queryPath
    ensures f.mimetype == JpegMime
    ensures AllDigits(f.size) && ParseDecimal(f.size) == fileSize
    ensures f.title == f.fileName == lib.secureFilename(LastSegment(filePath))
  {
    DecimalRoundTrip(fileSize);
    var target := UploadPrefix + tableId + "/" + lib.secureFilename(LastSegment(filePath));
    var name := lib.secureFilename(LastSegment(filePath));
    UploadForm(target, JpegMime, target, Decimal(fileSize), name, name)
  }

  /** The directory the handlers save uploads to before sending them on. */
  const UploadDir := "static/uploads"

  /** For a file the handlers saved under its secured name, the upload's title is
      that name secured once more, and the storage path ends in it. */
  lemma UploadOfSavedFile(name: string, tableId: string, fileSize: nat, lib: Foreign)
    requires '/' !in name
    ensures var f := Upload(JoinPath(UploadDir, name), tableId, fileSize, lib);
            f.title == lib.secureFilename(name)
            && f.path == UploadPrefix + tableId + "/" + lib.secureFilename(name)
  {
    BasenameOfJoin(UploadDir, name);
  }

  /** `save_recipe`'s body: `to_dict()` with `Id` set to the record's Id. */
  function SaveBody(r: RecipeModel.Recipe): (d: Object)
    ensures d == RecipeModel.ToDict(r)
  {
    RecipeModel.ToDict(r)["Id" := r.Id]
  }

  /** The saved body of a constructed record reads back as that record. */
  lemma SaveBodyRoundTrip(r: RecipeModel.Recipe)
    requires RecipeModel.Normalized(r)
    ensures RecipeModel.FromApiData(SaveBody(r)) == r
  {
    RecipeModel.RoundTrip(r);
  }
}

/** The recipe handlers. app/blueprints/core/routes.py and app/blueprints/menu/routes.py
    hold the same handlers under two blueprints; they are modelled once, with the
    blueprint's name (for `url_for`) and the recipes table's id as inputs. */
module RecipeRoutes {
  import opened Values
  import opened Text
  import opened Upstream
  import opened Http
  import RecipeModel
  import MenuFunctions
  import Search

  type Recipe = RecipeModel.Recipe

  /** `get_recipe_by_id` given the API's reply: the normalised record on 200, None
      for any other status. */
  function GetRecipeById(reply: Reply): (r: Option<Recipe>)
    ensures r.Some? <==> reply.status == 200
    ensures r.Some? ==> r.value == RecipeModel.FromApiData(reply.body) && RecipeModel.Normalized(r.value)
  {
    if reply.status == 200 then Some(RecipeModel.FromApiData(reply.body)) else None
  }

  /** Fetching a record that the table has gives that record, every column
      read from its row and its own Id; a missing record and an unavailable
      service both give None. */
  lemma FetchedRecipe(table: Table, id: int, up: bool)
    ensures GetRecipeById(table.Fetch(id, up)).Some? <==> up && id in table.rows
    ensures up && id in table.rows ==>
              var r := GetRecipeById(table.Fetch(id, up)).value;
              r.Id == Int(id) && r.Title == Get(table.rows[id], "Title", Str("Untitled"))
              && r.Photo == Get(table.rows[id], "Photo", Null)
    ensures up && id in table.rows ==>
              GetRecipeById(table.Fetch(id, up)) == Some(RecipeModel.FromApiData(table.rows[id]["Id" := Int(id)]))
  {
  }

  /** The records of a list reply, each normalised, in the reply's order. */
  function Records(items: seq<Object>): (rs: seq<Recipe>)
    ensures |rs| == |items| && forall i :: 0 <= i < |items| ==> rs[i] == RecipeModel.FromApiData(items[i])
  {
    seq(|items|, i requires 0 <= i < |items| => RecipeModel.FromApiData(items[i]))
  }

  /** `index`: the list page, or the upstream status as both the JSON error's
      `status_code` and the reply's status. */
  function Index(reply: Reply): (resp: Response)
    ensures reply.status != 200 ==> resp == ErrorWithCode("Failed to retrieve recipes", reply.status)
                                    && Status(resp) == reply.status
    ensures reply.status == 200 && ListItems(reply.body).Some? ==>
              resp.Render? && resp.page.RecipeList? && resp.page.recipes == Records(ListItems(reply.body).value)
    ensures reply.status == 200 && ListItems(reply.body).None? ==> resp == Fault
  {
    if reply.status != 200 then ErrorWithCode("Failed to retrieve recipes", reply.status)
    else
      match ListItems(reply.body)
      case None => Fault
      case Some(items) => Render(RecipeList(Records(items)))
  }

  /** The four searched attributes of a recipe. */
  function SearchFields(r: Recipe): Search.Fields {
    Search.Fields(r.Title, r.Meal, r.Core, r.Source)
  }

  /** `search`: the `search` argument's tokens filter the fetched records. The
      page lists exactly the records the specification filter keeps, in order; an
      empty or blank query lists them all; and the page is produced whenever every
      searched attribute is a string or falsy. */
  function SearchRecipes(reply: Reply, args: map<string, string>): (resp: Response)
    ensures reply.status != 200 ==> resp == ErrorWithCode("Failed to retrieve recipes", reply.status)
    ensures resp.Render? ==>
              reply.status == 200 && ListItems(reply.body).Some? && resp.page.RecipeSearch?
              && resp.page.recipes == Search.Filter(Records(ListItems(reply.body).value), SearchFields, Search.Tokens(ArgGet(args, "search")))
    ensures reply.status == 200 && ListItems(reply.body).Some? && AllSpace(ArgGet(args, "search")) ==>
              resp == Render(RecipeSearch(Records(ListItems(reply.body).value)))
    ensures (reply.status == 200 && ListItems(reply.body).Some?
             && Search.AllSearchable(Records(ListItems(reply.body).value), SearchFields)) ==> resp.Render?
    ensures reply.status == 200 ==> resp.Render? || resp == Fault
  {
    var words := Search.Tokens(ArgGet(args, "search"));
    Search.TokensEmptyIff(ArgGet(args, "search"));
    if reply.status != 200 then ErrorWithCode("Failed to retrieve recipes", reply.status)
    else
      match ListItems(reply.body)
      case None => Fault
      case Some(items) =>
        var rs := Records(items);
        Search.FilterNoTokens(rs, SearchFields);
        Search.FilteredAgrees(rs, SearchFields, words);
        if words == [] then Render(RecipeSearch(rs))
        else
          match Search.Filtered(rs, SearchFields, words)
          case None => Fault
          case Some(kept) => Render(RecipeSearch(kept))
  }

  /** `markdown2.markdown(v)` when `v` is truthy, "" otherwise: None where a truthy
      non-string makes markdown raise. */
  function Html(v: Value, lib: Foreign): (h: Option<string>)
    ensures !Truthy(v) ==> h == Some("")
    ensures Truthy(v) && v.Str? ==> h == Some(lib.markdown(v.s))
    ensures Truthy(v) && !v.Str? ==> h == None
  {
    if !Truthy(v) then Some("") else if v.Str? then Some(lib.markdown(v.s)) else None
  }

  /** A falsy field's HTML does not depend on the markdown library at all. */
  lemma FalsyHtmlSkipsMarkdown(v: Value, lib1: Foreign, lib2: Foreign)
    requires !Truthy(v)
    ensures Html(v, lib1) == Html(v, lib2) == Some("")
  {
  }

  /** `recipe`: the record with the HTML of its Ingredients and Method. */
  function ViewRecipe(reply: Reply, lib: Foreign): (resp: Response)
    ensures reply.status != 200 ==> resp == ErrorWithCode("Failed to retrieve recipe", reply.status)
    ensures reply.status == 200 ==>
              var r := RecipeModel.FromApiData(reply.body);
              var ing := Html(r.Ingredients, lib);
              var met := Html(r.Method, lib);
              if ing.Some? && met.Some? then resp == Render(RecipeView(r, ing.value, met.value)) else resp == Fault
  {
    if reply.status != 200 then ErrorWithCode("Failed to retrieve recipe", reply.status)
    else
      var r := RecipeModel.FromApiData(reply.body);
      match (Html(r.Ingredients, lib), Html(r.Method, lib))
      case (Some(ing), Some(met)) => Render(RecipeView(r, ing, met))
      case _ => Fault
  }

  /** `edit_field` and `edit_rich_field`: the attribute's current value. A fetched
      record shows one of its ten attributes, a method or class object for the
      class's own names, and "" for a name it lacks; a failed fetch leaves None,
      whose own names show a method or class object and every other name "". */
  function EditField(reply: Reply, recipeId: int, field: string, rich: bool): (resp: Response)
    ensures resp.Render? && resp.page.EditableField?
    ensures resp.page.field == field && resp.page.recipeId == recipeId && resp.page.rich == rich
    ensures reply.status == 200 && field in RecipeModel.Keys ==>
              resp.page.current == RecipeModel.ToDict(RecipeModel.FromApiData(reply.body))[field]
    ensures reply.status == 200 && field in RecipeModel.ClassAttrs ==> resp.page.current == Opaque(field)
    ensures reply.status == 200 && field !in RecipeModel.InstanceNames ==> resp.page.current == Str("")
    ensures reply.status != 200 ==>
              resp.page.current == if field in RecipeModel.NoneAttrs then Opaque(field) else Str("")
  {
    Render(EditableField(field, recipeId, RecipeModel.GetAttr(GetRecipeById(reply), field), rich))
  }

  /** `display_field`: as `edit_field`, in display form. */
  function DisplayField(reply: Reply, recipeId: int, field: string): (resp: Response)
    ensures resp.Render? && resp.page.DisplayedField? && resp.page.field == field && resp.page.recipeId == recipeId
    ensures reply.status == 200 && field in RecipeModel.Keys ==>
              resp.page.value == RecipeModel.ToDict(RecipeModel.FromApiData(reply.body))[field]
    ensures reply.status == 200 && field in RecipeModel.ClassAttrs ==> resp.page.value == Opaque(field)
    ensures reply.status == 200 && field !in RecipeModel.InstanceNames ==> resp.page.value == Str("")
    ensures reply.status != 200 ==>
              resp.page.value == if field in RecipeModel.NoneAttrs then Opaque(field) else Str("")
  {
    Render(DisplayedField(field, recipeId, RecipeModel.GetAttr(GetRecipeById(reply), field)))
  }

  /** `display_rich_field`: the markdown of the attribute's value, and a fault
      where that value is not a string, which markdown refuses: every name of the
      class, the attribute dictionary, the docstring (None), and None's own names
      after a failed fetch. A name the object lacks shows the markdown of "". */
  function DisplayRichField(reply: Reply, recipeId: int, field: string, lib: Foreign): (resp: Response)
    ensures var v := RecipeModel.GetAttr(GetRecipeById(reply), field);
            if v.Str? then resp == Render(DisplayedRichField(field, recipeId, lib.markdown(v.s))) else resp == Fault
    ensures reply.status == 200 && field in RecipeModel.OtherAttrs ==> resp == Fault
    ensures reply.status != 200 && field in RecipeModel.NoneAttrs ==> resp == Fault
    ensures (reply.status == 200 && field !in RecipeModel.InstanceNames)
            || (reply.status != 200 && field !in RecipeModel.NoneAttrs) ==>
              resp == Render(DisplayedRichField(field, recipeId, lib.markdown("")))
  {
    var v := RecipeModel.GetAttr(GetRecipeById(reply), field);
    if v.Str? then Render(DisplayedRichField(field, recipeId, lib.markdown(v.s))) else Fault
  }

  // ------------------------------------------------------------ read-modify-write edits

  /** The PATCH body of an edit: the fetched row, normalised, with one attribute
      set and serialised by `save_recipe`; None where that raises, in `setattr`
      itself or in `recipe.to_dict()` once a string is stored under `to_dict`. */
  function EditBody(row: Object, id: int, field: string, v: string): (body: Option<Object>)
    ensures body.None? <==> field in RecipeModel.Unassignable || field == "to_dict"
    ensures body.Some? ==> body.value.Keys == RecipeModel.Keys
  {
    match RecipeModel.SetAttr(RecipeModel.FromApiData(row["Id" := Int(id)]), field, v)
    case None => None
    case Some(r) => if field == "to_dict" then None else Some(MenuFunctions.SaveBody(r))
  }

  /** The body is the fetched record's `to_dict()` with only the named attribute
      replaced, and with the record's Id; a name outside the ten leaves it the
      record itself. */
  lemma EditBodyChangesOneField(row: Object, id: int, field: string, v: string)
    ensures var r := RecipeModel.FromApiData(row["Id" := Int(id)]);
            var body := EditBody(row, id, field, v);
            body.Some? ==>
              && (forall k :: k in RecipeModel.Keys ==> body.value[k] == if k == field then Str(v) else RecipeModel.ToDict(r)[k])
              && (field != "Id" ==> body.value["Id"] == Int(id))
              && (field !in RecipeModel.Keys ==> body.value == RecipeModel.ToDict(r))
  {
    RecipeModel.SetAttrToDict(RecipeModel.FromApiData(row["Id" := Int(id)]), field, v);
  }

  /** The fetch, `setattr` and `save_recipe` shared by both edit handlers. The
      handler gets past them exactly when the fetch succeeded and neither `setattr`
      nor `to_dict` raised, and only then is the PATCH sent; its outcome is not
      reported, because `save_recipe` returns None either way. */
  method SetAndSave(table: Table, recipeId: int, field: string, v: string, fetchUp: bool, patchUp: bool)
    returns (saved: bool)
    requires table.Valid()
    modifies table
    ensures table.Valid() && table.nextId == old(table.nextId)
    ensures saved <==> fetchUp && recipeId in old(table.rows) && EditBody(old(table.rows)[recipeId], recipeId, field, v).Some?
    ensures !saved ==> table.rows == old(table.rows)
    ensures saved ==>
              var body := EditBody(old(table.rows)[recipeId], recipeId, field, v).value;
              table.rows == if patchUp && old(table.PatchTarget(body))
                            then old(table.rows)[body["Id"].i := old(table.rows)[body["Id"].i] + (body - {"Id"})]
                            else old(table.rows)
  {
    var reply := table.Fetch(recipeId, fetchUp);
    var recipe := GetRecipeById(reply);
    if recipe.None? {
      return false;
    }
    var updated := RecipeModel.SetAttr(recipe.value, field, v);
    if updated.None? || field == "to_dict" {
      return false;
    }
    var body := MenuFunctions.SaveBody(updated.value);
    var _ := table.Patch(body, patchUp);
    saved := true;
  }

  /** `update_field`: the new value is displayed whether or not the PATCH
      succeeded; a failed fetch faults in `setattr(None, ...)`, and a name whose
      assignment or serialisation raises faults before any PATCH. */
  method UpdateField(table: Table, recipeId: int, field: string, form: map<string, string>, fetchUp: bool, patchUp: bool)
    returns (resp: Response)
    requires table.Valid()
    modifies table
    ensures table.Valid()
    ensures "value" !in form ==> resp == BadRequest && table.rows == old(table.rows)
    ensures "value" in form && (field in RecipeModel.Unassignable || field == "to_dict") ==>
              resp == Fault && table.rows == old(table.rows)
    ensures "value" in form && !(fetchUp && recipeId in old(table.rows)) ==> resp == Fault && table.rows == old(table.rows)
    ensures "value" in form && fetchUp && recipeId in old(table.rows) && EditBody(old(table.rows)[recipeId], recipeId, field, form["value"]).Some? ==>
              resp == Render(DisplayedField(field, recipeId, Str(form["value"])))
              && var body := EditBody(old(table.rows)[recipeId], recipeId, field, form["value"]).value;
                 table.rows == if patchUp && old(table.PatchTarget(body))
                               then old(table.rows)[body["Id"].i := old(table.rows)[body["Id"].i] + (body - {"Id"})]
                               else old(table.rows)
  {
    if "value" !in form {
      return BadRequest;
    }
    var newValue := form["value"];
    var saved := SetAndSave(table, recipeId, field, newValue, fetchUp, patchUp);
    if !saved {
      return Fault;
    }
    resp := Render(DisplayedField(field, recipeId, Str(newValue)));
  }

  /** `update_rich_field`: the raw form value is stored, while the page shows the
      markdown of the cleaned value; it faults where `update_field` does. */
  method UpdateRichField(table: Table, recipeId: int, field: string, form: map<string, string>,
                         fetchUp: bool, patchUp: bool, lib: Foreign)
    returns (resp: Response)
    requires table.Valid()
    modifies table
    ensures table.Valid()
    ensures "value" !in form ==> resp == BadRequest && table.rows == old(table.rows)
    ensures "value" in form && (field in RecipeModel.Unassignable || field == "to_dict") ==>
              resp == Fault && table.rows == old(table.rows)
    ensures "value" in form && !(fetchUp && recipeId in old(table.rows)) ==> resp == Fault && table.rows == old(table.rows)
    ensures "value" in form && fetchUp && recipeId in old(table.rows) && EditBody(old(table.rows)[recipeId], recipeId, field, form["value"]).Some? ==>
              resp == Render(DisplayedRichField(field, recipeId, lib.markdown(lib.cleanify(form["value"]))))
              && var body := EditBody(old(table.rows)[recipeId], recipeId, field, form["value"]).value;
                 table.rows == if patchUp && old(table.PatchTarget(body))
                               then old(table.rows)[body["Id"].i := old(table.rows)[body["Id"].i] + (body - {"Id"})]
                               else old(table.rows)
  {
    if "value" !in form {
      return BadRequest;
    }
    var newValue := lib.cleanify(form["value"]);
    var saved := SetAndSave(table, recipeId, field, form["value"], fetchUp, patchUp);
    if !saved {
      return Fault;
    }
    var richHtml := lib.markdown(newValue);
    resp := Render(DisplayedRichField(field, recipeId, richHtml));
  }

  /** Editing the Id attribute puts the new value, a string, where the PATCH
      looks for the record's id. Under `Table`'s rule that only an integer Id
      names a row, that PATCH matches no record. */
  lemma IdEditNamesNoRecord(table: Table, row: Object, id: int, v: string)
    ensures EditBody(row, id, "Id", v).Some? && EditBody(row, id, "Id", v).value["Id"] == Str(v)
    ensures EditBody(row, id, "Id", v).Some? ==> !table.PatchTarget(EditBody(row, id, "Id", v).value)
  {
    EditBodyChangesOneField(row, id, "Id", v);
  }

  /** Merging a saved body into the stored row and restoring the row's Id reads
      back as the body itself. */
  lemma MergedOnKeys(row: Object, d: Object, id: int)
    requires d.Keys == RecipeModel.Keys && d["Id"] == Int(id)
    ensures RecipeModel.FromApiData((row + (d - {"Id"}))["Id" := Int(id)]) == RecipeModel.FromApiData(d)
  {
    var stored := (row + (d - {"Id"}))["Id" := Int(id)];
    forall k | k in RecipeModel.Keys
      ensures k in stored && stored[k] == d[k]
    {
    }
    RecipeModel.FromApiDataOnKeys(stored, d);
  }

  /** Reading a record back after an edited attribute other than Id was saved
      gives the fetched record with that one attribute set, unless the new value
      is "" for Core or LeftOvers, which read back as `{}`. */
  lemma ReadAfterEdit(row: Object, id: int, field: string, v: string)
    requires field != "Id"
    requires field in {"Core", "LeftOvers"} ==> v != ""
    ensures var r := RecipeModel.FromApiData(row["Id" := Int(id)]);
            var body := EditBody(row, id, field, v);
            body.Some? ==>
              RecipeModel.FromApiData((row + (body.value - {"Id"}))["Id" := Int(id)]) == RecipeModel.SetAttr(r, field, v).value
  {
    var r := RecipeModel.FromApiData(row["Id" := Int(id)]);
    var body := EditBody(row, id, field, v);
    if body.Some? {
      var r' := RecipeModel.SetAttr(r, field, v).value;
      EditBodyChangesOneField(row, id, field, v);
      assert body.value == RecipeModel.ToDict(r');
      MergedOnKeys(row, body.value, id);
      assert RecipeModel.Normalized(r');
      RecipeModel.RoundTrip(r');
    }
  }


  // ------------------------------------------------------------ photos and new records

  /** Where a handler saves an uploaded file: its secured name under
      `static/uploads`, so that the path's basename is that name again. */
  function LocalPath(file: File, lib: Foreign): (p: string)
    ensures '/' !in lib.secureFilename(file.filename) ==> LastSegment(p) == lib.secureFilename(file.filename)
  {
    var name := lib.secureFilename(file.filename);
    if '/' !in name then
      BasenameOfJoin(MenuFunctions.UploadDir, name);
      JoinPath(MenuFunctions.UploadDir, name)
    else
      JoinPath(MenuFunctions.UploadDir, name)
  }

  /** `upload_file_to_storage`: the saved file is stored under the path the upload
      form names, with the size the disk reports; the reply is the service's
      metadata, or None for a non-200 status. */
  method UploadFile(storage: Storage, filePath: string, tableId: string, lib: Foreign, up: bool, metadata: Value)
    returns (meta: Option<Value>)
    requires filePath in storage.disk
    modifies storage
    ensures storage.disk == old(storage.disk)
    ensures var f := MenuFunctions.Upload(filePath, tableId, old(storage.disk)[filePath], lib);
            storage.objects == if up then old(storage.objects)[f.path := old(storage.disk)[filePath]] else old(storage.objects)
    ensures meta == if up then Some(metadata) else None
  {
    var size := storage.disk[filePath];
    var form := MenuFunctions.Upload(filePath, tableId, size, lib);
    meta := storage.Store(form.path, size, up, metadata);
  }

  /** What `update_record_with_attachment` does: raises (metadata without `.get`),
      returns None (non-200), or returns the PATCH reply. */
  datatype Linked = Raised | NotLinked | LinkedReply(body: Object)

  /** The Photo column value an attachment is saved as: a string, the JSON text of
      the one-element list holding the attachment. */
  function PhotoColumn(meta: Value, lib: Foreign): (v: Value)
    requires MenuFunctions.AttachmentJson(meta).Some?
    ensures v.Str? && v.s == lib.jsonDumps(List([Dict(MenuFunctions.AttachmentJson(meta).value)]))
  {
    Str(lib.jsonDumps(List([Dict(MenuFunctions.AttachmentJson(meta).value)])))
  }

  /** The attachment PATCH without its Id holds only the Photo column. */
  lemma PhotoOnly(id: Value, photo: Value)
    ensures map["Id" := id, "Photo" := photo] - {"Id"} == map["Photo" := photo]
  {
  }

  /** `update_record_with_attachment`: on success the record's Photo column, and
      nothing else, now holds the one-element attachment list. The PATCH goes to
      `table`: neither `tableId` nor the request's `table` is read here, and
      `MenuFunctions.AttachmentTableIgnored` states that `tableId` does not
      change the request. */
  method Attach(table: Table, recordId: int, meta: Value, tableId: string, lib: Foreign, up: bool)
    returns (result: Linked)
    requires table.Valid()
    modifies table
    ensures table.Valid() && table.nextId == old(table.nextId)
    ensures MenuFunctions.AttachmentJson(meta).None? ==> result == Raised && table.rows == old(table.rows)
    ensures MenuFunctions.AttachmentJson(meta).Some? && up && recordId in old(table.rows) ==>
              result == LinkedReply(map["Id" := Int(recordId)])
              && table.rows == old(table.rows)[recordId := old(table.rows)[recordId]["Photo" := PhotoColumn(meta, lib)]]
    ensures MenuFunctions.AttachmentJson(meta).Some? && !(up && recordId in old(table.rows)) ==>
              result == NotLinked && table.rows == old(table.rows)
  {
    var request := MenuFunctions.AttachmentPatch(Int(recordId), meta, tableId, tableId, lib);
    if request.None? {
      return Raised;
    }
    var body := request.value.body;
    PhotoOnly(Int(recordId), PhotoColumn(meta, lib));
    assert body["Id"] == Int(recordId);
    var rows0 := table.rows;
    var reply := table.Patch(body, up);
    if reply.status == 200 {
      assert rows0[recordId] + map["Photo" := PhotoColumn(meta, lib)] == rows0[recordId]["Photo" := PhotoColumn(meta, lib)];
      result := LinkedReply(reply.body);
    } else {
      result := NotLinked;
    }
  }

  /** After a successful attach, fetching the record gives the record as before
      with its Photo column, and nothing else, replaced by the serialised
      one-element list of the attachment. */
  lemma AttachedPhotoReadsBack(row: Object, id: int, meta: Value, lib: Foreign)
    requires MenuFunctions.AttachmentJson(meta).Some?
    ensures var before := RecipeModel.FromApiData(row["Id" := Int(id)]);
            var after := GetRecipeById(Reply(200, row["Photo" := PhotoColumn(meta, lib)]["Id" := Int(id)]));
            after == Some(before.(Photo := PhotoColumn(meta, lib)))
  {
  }

  /** `save_photo`. The checks come in this order: no `photo` file (400), an
      empty file name (400), the upload (500), the link (500). Nothing is saved
      before the first two pass; on success the record's Photo column holds the
      attachment built from the upload's metadata, and the client is sent to the
      recipe page through HX-Redirect or a redirect. */
  method SavePhoto(table: Table, storage: Storage, recipeId: int, files: map<string, File>, hxRequest: bool,
                   blueprint: string, tableId: string, lib: Foreign, uploadUp: bool, metadata: Value, patchUp: bool)
    returns (resp: Response)
    requires table.Valid()
    modifies table, storage
    ensures table.Valid()
    ensures "photo" !in files ==>
              resp == Error("No file uploaded", 400)
              && table.rows == old(table.rows) && storage.disk == old(storage.disk) && storage.objects == old(storage.objects)
    ensures "photo" in files && files["photo"].filename == "" ==>
              resp == Error("No file selected", 400)
              && table.rows == old(table.rows) && storage.disk == old(storage.disk) && storage.objects == old(storage.objects)
    ensures "photo" in files && files["photo"].filename != "" && lib.secureFilename(files["photo"].filename) == "" ==>
              resp == Fault
              && table.rows == old(table.rows) && storage.disk == old(storage.disk) && storage.objects == old(storage.objects)
    ensures "photo" in files && files["photo"].filename != "" && lib.secureFilename(files["photo"].filename) != "" ==>
              var file := files["photo"];
              var path := LocalPath(file, lib);
              var f := MenuFunctions.Upload(path, tableId, file.size, lib);
              && storage.disk == old(storage.disk)[path := file.size]
              && storage.objects == (if uploadUp then old(storage.objects)[f.path := file.size] else old(storage.objects))
              && (!(uploadUp && Truthy(metadata)) ==> resp == Error("Failed to upload to NoCoDB", 500) && table.rows == old(table.rows))
              && (uploadUp && Truthy(metadata) && MenuFunctions.AttachmentJson(metadata).None? ==>
                    resp == Fault && table.rows == old(table.rows))
              && (uploadUp && Truthy(metadata) && MenuFunctions.AttachmentJson(metadata).Some? ==>
                    if patchUp && recipeId in old(table.rows) then
                      && table.rows == old(table.rows)[recipeId := old(table.rows)[recipeId]["Photo" := PhotoColumn(metadata, lib)]]
                      && resp == (if hxRequest then JsonSuccess(RecipePage(blueprint, Int(recipeId)))
                                  else Redirect(RecipePage(blueprint, Int(recipeId))))
                    else
                      resp == Error("Failed to update record in NoCoDB", 500) && table.rows == old(table.rows))
  {
    if "photo" !in files {
      return Error("No file uploaded", 400);
    }
    var file := files["photo"];
    if file.filename == "" {
      return Error("No file selected", 400);
    }
    var filename := lib.secureFilename(file.filename);
    if filename == "" {
      // `file.save` on the upload directory itself raises
      return Fault;
    }
    var filePath := LocalPath(file, lib);
    storage.SaveLocal(filePath, file.size);
    var meta := UploadFile(storage, filePath, tableId, lib, uploadUp, metadata);
    if meta.None? || !Truthy(meta.value) {
      return Error("Failed to upload to NoCoDB", 500);
    }
    var linked := Attach(table, recipeId, meta.value, tableId, lib, patchUp);
    if linked.Raised? {
      return Fault;
    }
    assert linked.LinkedReply? ==> "Id" in linked.body;
    if !linked.LinkedReply? || !Truthy(Dict(linked.body)) {
      return Error("Failed to update record in NoCoDB", 500);
    }
    if hxRequest {
      resp := JsonSuccess(RecipePage(blueprint, Int(recipeId)));
    } else {
      resp := Redirect(RecipePage(blueprint, Int(recipeId)));
    }
  }

  /** The create payload of `save_new_recipe`: exactly six keys from the form,
      None where a key was not submitted. */
  function NewRecipePayload(form: map<string, string>): (p: Object)
    ensures p.Keys == {"Title", "Meal", "Core", "Source", "Notes", "Ingredients"}
    ensures p["Title"] == FormGet(form, "title") && p["Meal"] == FormGet(form, "meal")
    ensures p["Core"] == FormGet(form, "core") && p["Source"] == FormGet(form, "source")
    ensures p["Notes"] == FormGet(form, "notes") && p["Ingredients"] == FormGet(form, "ingredients")
  {
    map["Title" := FormGet(form, "title"), "Meal" := FormGet(form, "meal"), "Core" := FormGet(form, "core"),
        "Source" := FormGet(form, "source"), "Notes" := FormGet(form, "notes"),
        "Ingredients" := FormGet(form, "ingredients")]
  }

  /** Reading back a created record gives the submitted Title, Meal, Source, Notes
      and Ingredients, its new Id, and no photo; an empty or missing Core reads back as `{}`. */
  lemma CreatedRecipeView(form: map<string, string>, id: int)
    ensures var r := RecipeModel.FromApiData((NewRecipePayload(form) - {"Id"})["Id" := Int(id)]);
            && r.Id == Int(id) && r.Title == FormGet(form, "title") && r.Meal == FormGet(form, "meal")
            && r.Source == FormGet(form, "source") && r.Notes == FormGet(form, "notes")
            && r.Ingredients == FormGet(form, "ingredients") && r.Photo == Null && r.Method == Null
            && r.Core == (if Truthy(FormGet(form, "core")) then FormGet(form, "core") else EmptyDict)
  {
    var p := NewRecipePayload(form);
    assert p - {"Id"} == p;
  }

  /** Whether the request carries a photo to attach after creation. */
  predicate HasPhoto(files: map<string, File>) {
    "photo" in files && files["photo"].filename != ""
  }

  /** Whether linking an uploaded photo raises: the upload answered truthy
      metadata that has no usable attachment. */
  predicate LinkRaises(uploadUp: bool, metadata: Value) {
    uploadUp && Truthy(metadata) && MenuFunctions.AttachmentJson(metadata).None?
  }

  /** Whether an uploaded photo ends up in the record's Photo column: the upload
      answered truthy attachment metadata and the link PATCH succeeded. */
  predicate PhotoLinks(uploadUp: bool, metadata: Value, patchUp: bool) {
    uploadUp && Truthy(metadata) && MenuFunctions.AttachmentJson(metadata).Some? && patchUp
  }

  /** `save_new_recipe`. A failed create answers 500 and touches nothing else.
      Once the create succeeds, a photo with a usable name is saved, uploaded and
      linked as in `save_photo`, except that a failed upload or link is ignored;
      the client is redirected to the new record unless saving or linking the
      photo raises. */
  method SaveNewRecipe(table: Table, storage: Storage, form: map<string, string>, files: map<string, File>,
                       blueprint: string, tableId: string, lib: Foreign,
                       createUp: bool, uploadUp: bool, metadata: Value, patchUp: bool)
    returns (resp: Response)
    requires table.Valid()
    modifies table, storage
    ensures table.Valid()
    ensures !createUp ==>
              resp == Error("Failed to create recipe", 500)
              && table.rows == old(table.rows) && storage.disk == old(storage.disk) && storage.objects == old(storage.objects)
    ensures createUp ==> old(table.nextId) !in old(table.rows)
    ensures createUp && (!HasPhoto(files) || lib.secureFilename(files["photo"].filename) == "") ==>
              table.rows == old(table.rows)[old(table.nextId) := NewRecipePayload(form)]
              && storage.disk == old(storage.disk) && storage.objects == old(storage.objects)
              && resp == (if HasPhoto(files) then Fault else Redirect(RecipePage(blueprint, Int(old(table.nextId)))))
    ensures createUp && HasPhoto(files) && lib.secureFilename(files["photo"].filename) != "" ==>
              var id := old(table.nextId);
              var payload := NewRecipePayload(form);
              var file := files["photo"];
              var path := LocalPath(file, lib);
              var f := MenuFunctions.Upload(path, tableId, file.size, lib);
              && storage.disk == old(storage.disk)[path := file.size]
              && storage.objects == (if uploadUp then old(storage.objects)[f.path := file.size] else old(storage.objects))
              && table.rows == old(table.rows)[id := if PhotoLinks(uploadUp, metadata, patchUp)
                                                     then payload["Photo" := PhotoColumn(metadata, lib)]
                                                     else payload]
              && resp == (if LinkRaises(uploadUp, metadata) then Fault else Redirect(RecipePage(blueprint, Int(id))))
  {
    var payload := NewRecipePayload(form);
    var reply := table.Create(payload, createUp);
    if reply.status != 200 {
      return Error("Failed to create recipe", 500);
    }
    WithoutAbsent(payload, "Id");
    var newId := reply.body["Id"];
    assert newId == Int(old(table.nextId));
    if HasPhoto(files) {
      var raised := AttachNewPhoto(table, storage, newId.i, files["photo"], tableId, lib, uploadUp, metadata, patchUp);
      if PhotoLinks(uploadUp, metadata, patchUp) {
        Overwrite(old(table.rows), newId.i, payload, payload["Photo" := PhotoColumn(metadata, lib)]);
      }
      if raised {
        return Fault;
      }
    }
    resp := Redirect(RecipePage(blueprint, newId));
  }

  /** A second update of the same row replaces the first. */
  lemma Overwrite(rows: map<int, Object>, k: int, a: Object, b: Object)
    ensures rows[k := a][k := b] == rows[k := b]
  {
  }

  /** The photo step of `save_new_recipe`: save, upload and link, where a failed
      upload or link is ignored and only a raised exception is reported. An empty
      secured name raises before anything is saved; otherwise the file is saved
      and uploaded as in `save_photo`, and the record's Photo column changes
      exactly when the link succeeds. */
  method AttachNewPhoto(table: Table, storage: Storage, id: int, file: File, tableId: string, lib: Foreign,
                        uploadUp: bool, metadata: Value, patchUp: bool)
    returns (raised: bool)
    requires table.Valid()
    modifies table, storage
    ensures table.Valid() && table.nextId == old(table.nextId)
    ensures lib.secureFilename(file.filename) == "" ==>
              raised && table.rows == old(table.rows)
              && storage.disk == old(storage.disk) && storage.objects == old(storage.objects)
    ensures lib.secureFilename(file.filename) != "" ==>
              var path := LocalPath(file, lib);
              var f := MenuFunctions.Upload(path, tableId, file.size, lib);
              && storage.disk == old(storage.disk)[path := file.size]
              && storage.objects == (if uploadUp then old(storage.objects)[f.path := file.size] else old(storage.objects))
              && (raised <==> LinkRaises(uploadUp, metadata))
              && table.rows == if PhotoLinks(uploadUp, metadata, patchUp) && id in old(table.rows)
                               then old(table.rows)[id := old(table.rows)[id]["Photo" := PhotoColumn(metadata, lib)]]
                               else old(table.rows)
  {
    var filename := lib.secureFilename(file.filename);
    if filename == "" {
      return true;
    }
    var photoPath := LocalPath(file, lib);
    storage.SaveLocal(photoPath, file.size);
    var meta := UploadFile(storage, photoPath, tableId, lib, uploadUp, metadata);
    raised := false;
    if meta.Some? && Truthy(meta.value) {
      var linked := Attach(table, id, meta.value, tableId, lib, patchUp);
      raised := linked.Raised?;
    }
  }
}

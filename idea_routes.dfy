/** The idea handlers of app/blueprints/ideas/routes.py, and the move of an idea
    into the recipes table. */
module IdeaRoutes {
  import opened Values
  import opened Text
  import opened Upstream
  import opened Http
  import IdeaModel
  import RecipeModel
  import Search

  type Idea = IdeaModel.Idea

  /** `get_idea_by_id` given the API's reply: the normalised idea on 200, None
      for any other status. */
  function GetIdeaById(reply: Reply): (r: Option<Idea>)
    ensures r.Some? <==> reply.status == 200
    ensures r.Some? ==> r.value == IdeaModel.FromApiData(reply.body) && IdeaModel.Normalized(r.value)
  {
    if reply.status == 200 then Some(IdeaModel.FromApiData(reply.body)) else None
  }

  /** Fetching an idea the table has gives that idea with its own Id. */
  lemma FetchedIdea(table: Table, id: int, up: bool)
    ensures GetIdeaById(table.Fetch(id, up)).Some? <==> up && id in table.rows
    ensures up && id in table.rows ==>
              var i := GetIdeaById(table.Fetch(id, up)).value;
              i.Id == Int(id) && i.Title == Get(table.rows[id], "Title", IdeaModel.Dash)
  {
  }

  /** The ideas of a list reply, each normalised, in the reply's order. */
  function Records(items: seq<Object>): (ideas: seq<Idea>)
    ensures |ideas| == |items| && forall i :: 0 <= i < |items| ==> ideas[i] == IdeaModel.FromApiData(items[i])
  {
    seq(|items|, i requires 0 <= i < |items| => IdeaModel.FromApiData(items[i]))
  }

  /** `index`: the list page; on any failure status the site's home page, not an error. */
  function Index(reply: Reply): (resp: Response)
    ensures reply.status != 200 ==> resp == Render(Home)
    ensures reply.status == 200 && ListItems(reply.body).Some? ==>
              resp == Render(IdeaList(Records(ListItems(reply.body).value)))
    ensures reply.status == 200 && ListItems(reply.body).None? ==> resp == Fault
  {
    if reply.status != 200 then Render(Home)
    else
      match ListItems(reply.body)
      case None => Fault
      case Some(items) => Render(IdeaList(Records(items)))
  }

  /** The four searched attributes of an idea. */
  function SearchFields(i: Idea): Search.Fields {
    Search.Fields(i.Title, i.Meal, i.Core, i.Source)
  }

  /** `search`: the recipe search's filter over ideas, driven by the
      `idea-search` argument. */
  function SearchIdeas(reply: Reply, args: map<string, string>): (resp: Response)
    ensures reply.status != 200 ==> resp == ErrorWithCode("Failed to retrieve ideas", reply.status)
    ensures resp.Render? ==>
              reply.status == 200 && ListItems(reply.body).Some? && resp.page.IdeaSearch?
              && resp.page.ideas == Search.Filter(Records(ListItems(reply.body).value), SearchFields, Search.Tokens(ArgGet(args, "idea-search")))
    ensures reply.status == 200 && ListItems(reply.body).Some? && AllSpace(ArgGet(args, "idea-search")) ==>
              resp == Render(IdeaSearch(Records(ListItems(reply.body).value)))
    ensures (reply.status == 200 && ListItems(reply.body).Some?
             && Search.AllSearchable(Records(ListItems(reply.body).value), SearchFields)) ==> resp.Render?
    ensures reply.status == 200 ==> resp.Render? || resp == Fault
  {
    var words := Search.Tokens(ArgGet(args, "idea-search"));
    Search.TokensEmptyIff(ArgGet(args, "idea-search"));
    if reply.status != 200 then ErrorWithCode("Failed to retrieve ideas", reply.status)
    else
      match ListItems(reply.body)
      case None => Fault
      case Some(items) =>
        var all := Records(items);
        Search.FilterNoTokens(all, SearchFields);
        Search.FilteredAgrees(all, SearchFields, words);
        if words == [] then Render(IdeaSearch(all))
        else
          match Search.Filtered(all, SearchFields, words)
          case None => Fault
          case Some(kept) => Render(IdeaSearch(kept))
  }

  /** The create payload of `save_new_idea`: exactly five keys from the form,
      None where a key was not submitted. */
  function NewIdeaPayload(form: map<string, string>): (p: Object)
    ensures p.Keys == {"Title", "Meal", "Core", "Source", "Notes"}
    ensures p["Title"] == FormGet(form, "title") && p["Meal"] == FormGet(form, "meal")
    ensures p["Core"] == FormGet(form, "core") && p["Source"] == FormGet(form, "source")
    ensures p["Notes"] == FormGet(form, "notes")
  {
    map["Title" := FormGet(form, "title"), "Meal" := FormGet(form, "meal"), "Core" := FormGet(form, "core"),
        "Source" := FormGet(form, "source"), "Notes" := FormGet(form, "notes")]
  }

  const SaveIdeaError := "Failed to save the idea. Please try again."

  /** `save_new_idea`: on success a new row holds the payload and the client goes
      to the ideas index; otherwise the add form is shown again with an error. */
  method SaveNewIdea(table: Table, form: map<string, string>, up: bool) returns (resp: Response)
    requires table.Valid()
    modifies table
    ensures table.Valid()
    ensures up ==> table.rows == old(table.rows)[old(table.nextId) := NewIdeaPayload(form)]
                   && old(table.nextId) !in old(table.rows) && resp == Redirect(IdeasIndex)
    ensures !up ==> table.rows == old(table.rows) && resp == Render(AddIdeaForm(Some(SaveIdeaError)))
  {
    var payload := NewIdeaPayload(form);
    assert payload - {"Id"} == payload;
    var reply := table.Create(payload, up);
    if reply.status == 200 {
      resp := Redirect(IdeasIndex);
    } else {
      resp := Render(AddIdeaForm(Some(SaveIdeaError)));
    }
  }

  /** The body of a delete: a list holding the one object `{"Id": id}`. */
  function DeleteBody(id: int): (b: seq<Object>)
    ensures |b| == 1 && b[0].Keys == {"Id"} && b[0]["Id"] == Int(id)
  {
    [map["Id" := Int(id)]]
  }

  /** Deleting with that body removes exactly the one row. */
  lemma DeleteBodyRemoves(rows: map<int, Object>, id: int)
    ensures (map k | k in rows && (forall i :: 0 <= i < |DeleteBody(id)| ==> DeleteBody(id)[i]["Id"] != Int(k)) :: rows[k])
            == rows - {id}
  {
    var b := DeleteBody(id);
    assert forall k :: (forall i :: 0 <= i < |b| ==> b[i]["Id"] != Int(k)) <==> b[0]["Id"] != Int(k);
  }

  /** The script `delete_idea` answers with, which reloads the page. */
  const ReloadScript := "\n            <script>\n                window.location.reload();\n            </script>\n        "

  /** `delete_idea`: on 200 the row is gone and the answer is the reload script with
      status 200; otherwise nothing changes and the answer is a 500. */
  method DeleteIdea(table: Table, ideaId: int, up: bool) returns (resp: Response)
    requires table.Valid()
    modifies table
    ensures table.Valid() && table.nextId == old(table.nextId)
    ensures up && ideaId in old(table.rows) ==>
              table.rows == old(table.rows) - {ideaId} && resp == Body(ReloadScript, 200, None)
    ensures !(up && ideaId in old(table.rows)) ==>
              table.rows == old(table.rows) && resp == Body("Failed to delete idea", 500, None)
  {
    DeleteBodyRemoves(table.rows, ideaId);
    var reply := table.Delete(DeleteBody(ideaId), up);
    if reply.status == 200 {
      resp := Body(ReloadScript, 200, None);
    } else {
      resp := Body("Failed to delete idea", 500, None);
    }
  }

  /** The id of the recipes table, written out in `move_to_recipes`. */
  const RecipesTableId := "mk4go4bhd91cihe"

  /** The create payload of a move: Title, Meal, Core, Source and Notes of the
      fetched JSON, None where absent. */
  function MovePayload(data: Object): (p: Object)
    ensures p.Keys == {"Title", "Meal", "Core", "Source", "Notes"}
    ensures forall k :: k in p.Keys ==> p[k] == if k in data then data[k] else Null
  {
    map["Title" := Get(data, "Title", Null), "Meal" := Get(data, "Meal", Null), "Core" := Get(data, "Core", Null),
        "Source" := Get(data, "Source", Null), "Notes" := Get(data, "Notes", Null)]
  }

  /** The recipe a move creates shows the idea's Title, Meal, Source, Notes and
      Core wherever the idea's row has them. An absent key shows '-' on the idea
      but None on the recipe (`{}` for Core), and the recipe has no photo. */
  lemma MovedRecipeView(row: Object, ideaId: int, newId: int)
    ensures var idea := IdeaModel.FromApiData(row["Id" := Int(ideaId)]);
            var recipe := RecipeModel.FromApiData((MovePayload(row["Id" := Int(ideaId)]) - {"Id"})["Id" := Int(newId)]);
            && recipe.Id == Int(newId) && recipe.Photo == Null && recipe.Ingredients == Null
            && ("Title" in row ==> recipe.Title == idea.Title)
            && ("Meal" in row ==> recipe.Meal == idea.Meal)
            && ("Source" in row ==> recipe.Source == idea.Source)
            && ("Notes" in row ==> recipe.Notes == idea.Notes)
            && ("Core" in row ==> recipe.Core == idea.Core)
            && ("Title" !in row ==> recipe.Title == Null && idea.Title == IdeaModel.Dash)
            && ("Core" !in row ==> recipe.Core == EmptyDict && idea.Core == IdeaModel.Dash)
  {
    var p := MovePayload(row["Id" := Int(ideaId)]);
    assert p - {"Id"} == p;
  }

  /** `move_to_recipes`: fetch the idea, create the recipe, delete the idea, with
      no undo. Each failure point leaves a definite state: nothing changed after a
      failed fetch or create, and the idea in both tables after a failed delete.
      `recipes` is the table whose id `move_to_recipes` writes out, kept as
      `RecipesTableId`. */
  method MoveToRecipes(ideas: Table, recipes: Table, ideaId: int, fetchUp: bool, createUp: bool, deleteUp: bool)
    returns (resp: Response)
    requires ideas != recipes
    requires ideas.Valid() && recipes.Valid()
    modifies ideas, recipes
    ensures ideas.Valid() && recipes.Valid()
    ensures !(fetchUp && ideaId in old(ideas.rows)) ==>
              resp == Error("Failed to fetch the idea", 500)
              && ideas.rows == old(ideas.rows) && recipes.rows == old(recipes.rows)
    ensures fetchUp && ideaId in old(ideas.rows) && !createUp ==>
              resp == Error("Failed to create new recipe", 500)
              && ideas.rows == old(ideas.rows) && recipes.rows == old(recipes.rows)
    ensures fetchUp && ideaId in old(ideas.rows) && createUp ==>
              var newId := old(recipes.nextId);
              && newId !in old(recipes.rows)
              && recipes.rows == old(recipes.rows)[newId := MovePayload(old(ideas.rows)[ideaId]["Id" := Int(ideaId)])]
              && (!deleteUp ==> resp == Error("Failed to delete the original idea", 500) && ideas.rows == old(ideas.rows))
              && (deleteUp ==> resp == Body("", 200, Some(RecipePage("core", Int(newId))))
                               && ideas.rows == old(ideas.rows) - {ideaId})
  {
    var fetched := ideas.Fetch(ideaId, fetchUp);
    if fetched.status != 200 {
      return Error("Failed to fetch the idea", 500);
    }
    var payload := MovePayload(fetched.body);
    assert payload - {"Id"} == payload;
    var created := recipes.Create(payload, createUp);
    if created.status != 200 {
      return Error("Failed to create new recipe", 500);
    }
    var newId := created.body["Id"];
    DeleteBodyRemoves(ideas.rows, ideaId);
    var deleted := ideas.Delete(DeleteBody(ideaId), deleteUp);
    if deleted.status != 200 {
      return Error("Failed to delete the original idea", 500);
    }
    resp := Body("", 200, Some(RecipePage("core", newId)));
  }

  /** After a move that failed at the delete, the idea is still in the ideas table
      and a copy of it is in the recipes table: the same Title, Meal, Source,
      Notes and Core wherever the idea's row has them. */
  lemma DuplicateAfterFailedDelete(ideasRows: map<int, Object>, recipesRows: map<int, Object>, ideaId: int, newId: int)
    requires ideaId in ideasRows && newId in recipesRows
    requires recipesRows[newId] == MovePayload(ideasRows[ideaId]["Id" := Int(ideaId)])
    ensures var idea := IdeaModel.FromApiData(ideasRows[ideaId]["Id" := Int(ideaId)]);
            var recipe := RecipeModel.FromApiData(recipesRows[newId]["Id" := Int(newId)]);
            && ("Title" in ideasRows[ideaId] ==> recipe.Title == idea.Title)
            && ("Meal" in ideasRows[ideaId] ==> recipe.Meal == idea.Meal)
            && ("Source" in ideasRows[ideaId] ==> recipe.Source == idea.Source)
            && ("Notes" in ideasRows[ideaId] ==> recipe.Notes == idea.Notes)
            && ("Core" in ideasRows[ideaId] ==> recipe.Core == idea.Core)
  {
    MovedRecipeView(ideasRows[ideaId], ideaId, newId);
    assert MovePayload(ideasRows[ideaId]["Id" := Int(ideaId)]) - {"Id"} == recipesRows[newId];
  }
}

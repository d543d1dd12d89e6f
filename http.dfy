/** What a handler hands back to Flask, with the templates reduced to the values
    they are rendered with. */
module Http {
  import opened Values
  import RecipeModel
  import IdeaModel

  /** A file of a multipart request: the name the client gave it and its size. */
  datatype File = File(filename: string, size: nat)

  /** A `url_for` target: a blueprint's recipe page for an id, or the ideas index. */
  datatype Target = RecipePage(blueprint: string, id: Value) | IdeasIndex

  /** A rendered template and the values it receives. */
  datatype Page =
    | RecipeList(recipes: seq<RecipeModel.Recipe>)
    | RecipeSearch(recipes: seq<RecipeModel.Recipe>)
    | RecipeView(recipe: RecipeModel.Recipe, ingredientsHtml: string, methodHtml: string)
    | EditableField(field: string, recipeId: int, current: Value, rich: bool)
    | DisplayedField(field: string, recipeId: int, value: Value)
    | DisplayedRichField(field: string, recipeId: int, html: string)
    | IdeaList(ideas: seq<IdeaModel.Idea>)
    | IdeaSearch(ideas: seq<IdeaModel.Idea>)
    | AddIdeaForm(error: Option<string>)
    | Home

  datatype Response =
    | Render(page: Page)                                         // render_template(...), 200
    | Json(body: Object, code: int)                              // jsonify(body), code
    | JsonSuccess(hxRedirect: Target)                            // jsonify({"success": True}) with HX-Redirect
    | Redirect(to: Target)                                       // redirect(url_for(...))
    | Body(text: string, code: int, hxLocation: Option<Target>)  // a plain (body, status[, headers]) tuple
    | BadRequest                                                 // `request.form[key]` with the key missing
    | Fault                                                      // an exception escapes the handler

  /** The HTTP status the client sees. */
  function Status(r: Response): (s: int)
    ensures r.Render? || r.JsonSuccess? ==> s == 200
    ensures r.Fault? ==> s == 500
  {
    match r
    case Render(_) => 200
    case Json(_, c) => c
    case JsonSuccess(_) => 200
    case Redirect(_) => 302
    case Body(_, c, _) => c
    case BadRequest => 400
    case Fault => 500
  }

  /** `jsonify({"error": message}), code`. */
  function Error(message: string, code: int): (r: Response)
    ensures r.Json? && r.body == map["error" := Str(message)] && Status(r) == code
  {
    Json(map["error" := Str(message)], code)
  }

  /** `jsonify({"error": message, "status_code": code}), code`: the upstream status
      is both in the body and the status of the reply. */
  function ErrorWithCode(message: string, code: int): (r: Response)
    ensures r.Json? && r.body == map["error" := Str(message), "status_code" := Int(code)]
    ensures Status(r) == code
  {
    Json(map["error" := Str(message), "status_code" := Int(code)], code)
  }
}

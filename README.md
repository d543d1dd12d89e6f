# TheMenus in Dafny

TheMenus is a small Flask site for a household's recipes and recipe ideas. The
records live in two tables of a NocoDB instance, and photos live in NocoDB's
file storage. The handlers fetch records and normalise them into `NoCoRecipes`
or `Ideas` objects. They filter them by keyword and edit one field at a time
(fetch, `setattr`, PATCH of the whole record). They attach an uploaded photo in
two steps (upload, then PATCH), and move an idea into the recipes table in three
steps (fetch, create, delete).

This project models that logic and proves what it promises.

- `values.dfy` (`Values`): decoded JSON values, plus an opaque value for the
  Python objects `getattr` can return (methods, classes), with Python's truth value,
  `dict.get`, `request.form.get` and `request.args.get`. The library functions
  the handlers call (`secure_filename`, `markdown2.markdown`, `cleanify`,
  `json.dumps`) are the fields of a `Foreign` value passed in.
- `text.dfy` (`Text`): `str.lower` (ASCII), `strip`, `split()`, substring `in`,
  `str(n)`, `os.path.join` and the last path segment.
- `recipe_model.dfy`, `idea_model.dfy` (`RecipeModel`, `IdeaModel`): the two
  record classes as datatypes: constructor, `to_dict`, `from_api_data`,
  `get_id`, and `getattr`/`setattr` by name.
- `search.dfy` (`Search`): the keyword filter in two forms. `Filtered`
  mirrors Python's evaluation, including short-circuiting and the
  `AttributeError` of `.lower()` on a truthy non-string. `Filter` is the
  specification. Lemmas relate the two and prove the filter's properties.
- `upstream.dfy` (`Upstream`): each NocoDB table is a `Table` object whose rows
  the API calls read and change. `Storage` holds the upload directory and the
  file storage. Whether a call reaches a working service is an input.
- `http.dfy` (`Http`): responses, with templates reduced to the values they
  receive.
- `menu_functions.dfy` (`MenuFunctions`): the request builders of
  app/blueprints/menu/functions.py: the attachment PATCH, the upload form and the
  save body.
- `recipe_routes.dfy` (`RecipeRoutes`): the recipe handlers of both the core and
  the menu blueprint. The two copies share their code apart from the
  differences listed under Left out, so they are modelled once, with the
  blueprint name and table id as inputs. Read-only
  handlers are functions of the API's reply. Handlers that change state are
  methods over `Table` and `Storage`.
- `idea_routes.dfy` (`IdeaRoutes`): the idea handlers and the move to recipes.

Three behaviours of the code are worth noting:

- `update_rich_field` stores the raw form value. Only the displayed HTML is
  built from the cleaned value (app/blueprints/core/routes.py:247-254).
- A move copies five fields, Notes included
  (app/blueprints/ideas/routes.py:155-161).
- The field name in an edit URL is not checked against the ten attributes, and
  Python's attribute rules decide what happens (app/blueprints/core/routes.py:213,
  238, 266 and 277):
  - `getattr` finds the class's own names. A method or `__class__` gives an object
    that is not a string; `__dict__` gives the attribute dictionary; `__doc__`
    and `__weakref__` give None. The edit and display pages show that object, and
    `display_rich_field` faults, because markdown refuses a non-string. Only a name
    the object lacks falls back to `""`. After a failed fetch the same holds for
    the names of `None`.
  - `setattr` with a string raises for `__class__`, `__dict__` and `__weakref__`.
    Setting `to_dict` hides the method, so `save_recipe`'s `recipe.to_dict()`
    raises. Both answer 500 before any PATCH.
  - Any other name outside the ten adds an attribute that `to_dict` never reads,
    so the save sends the record unchanged. No "invalid field" error is raised.

## Model

| member | source | states |
|---|---|---|
| Values.Truthy | app/blueprints/core/routes.py:194 | Python's `bool(v)`: false exactly for None, False, 0, `""`, `[]` and `{}` |
| Values.Or | app/blueprints/core/routes.py:170 | `v or default` is one of the two, is `v` when `v` is truthy, and is truthy iff either is |
| Values.Get | app/blueprints/menu/models.py:57-66 | `d.get(key, default)`: the stored value, even None, when the key is present; the default otherwise |
| Values.FormGet | app/blueprints/core/routes.py:335-340 | `request.form.get(key)`: a string exactly when the key was submitted, that string, None otherwise |
| Values.ArgGet | app/blueprints/core/routes.py:155 | `request.args.get(key, '')`: the argument, or `""` when absent |
| RecipeModel.Construct | app/blueprints/menu/models.py:2-31 | A falsy Core or LeftOvers becomes `{}`; every other argument is stored as given; the result is normalised |
| RecipeModel.GetId | app/blueprints/menu/models.py:36-37 | `get_id` gives the value `to_dict` serialises under "Id" |
| RecipeModel.ToDict | app/blueprints/menu/models.py:39-51 | Exactly the ten keys, each mapped to its attribute |
| RecipeModel.FromApiData | app/blueprints/menu/models.py:53-67 | Absent Id/Meal/Source give 'Unknown', Title 'Untitled', Core/LeftOvers `{}`, Photo/Notes/Ingredients/Method None; a present key keeps its value even when None, except that a falsy Core/LeftOvers becomes `{}` |
| RecipeModel.RoundTrip | app/blueprints/menu/models.py:39-67 | `from_api_data(to_dict(r)) == r` for every normalised record |
| RecipeModel.ConstructedRoundTrip | app/blueprints/menu/models.py:2-67 | Every record the constructor builds survives the round trip |
| RecipeModel.IgnoresOtherKeys | app/blueprints/menu/models.py:53-67 | Keys outside the ten do not affect `from_api_data` |
| RecipeModel.FromApiDataOnKeys | app/blueprints/menu/models.py:56-67 | Two objects that agree on the ten keys give the same record |
| RecipeModel.GetIdOfApiData | app/blueprints/menu/models.py:36-37 | `get_id` of a record read from API data is its Id, or 'Unknown' |
| RecipeModel.GetAttr | app/blueprints/core/routes.py:213 | `getattr(recipe, field, "")`: on a record, the attribute for one of the ten names, the ten-entry attribute dictionary for `__dict__`, None for `__doc__` and `__weakref__`, a non-string object for the class's methods and `__class__`, and `""` for any other name; on None, a non-string object for None's own names and `""` otherwise |
| RecipeModel.SetAttr | app/blueprints/core/routes.py:238 | Raises exactly for `__class__`, `__dict__` and `__weakref__`; otherwise exactly the named attribute changes (Id included) and every other attribute keeps its value |
| RecipeModel.SetAttrToDict | app/blueprints/core/routes.py:238 | In `to_dict` form, an accepted `setattr` changes only the named entry; an assignable name outside the ten leaves the record as it is |
| RecipeModel.GetAfterSet | app/blueprints/core/routes.py:238 | Reading one of the ten attributes back after setting it gives the string set |
| IdeaModel.Construct | app/blueprints/ideas/models.py:2-20 | A falsy Core becomes `{}`; every other argument is stored as given |
| IdeaModel.GetId | app/blueprints/ideas/models.py:28-29 | `get_id` gives the value `to_dict` serialises under "Id" |
| IdeaModel.ToDict | app/blueprints/ideas/models.py:31-39 | Exactly the six keys, each mapped to its attribute; an idea has no LeftOvers, Photo, Ingredients or Method |
| IdeaModel.FromApiData | app/blueprints/ideas/models.py:41-51 | Every absent key gives '-'; an absent Core stays '-' (truthy) while a present falsy Core becomes `{}` |
| IdeaModel.RoundTrip | app/blueprints/ideas/models.py:31-51 | `from_api_data(to_dict(i)) == i` for every normalised idea |
| IdeaModel.IgnoresOtherKeys | app/blueprints/ideas/models.py:41-51 | Keys outside the six do not affect `from_api_data` |
| IdeaModel.GetIdOfApiData | app/blueprints/ideas/models.py:28-29 | `get_id` of an idea read from API data is its Id, or '-' |
| Text.Split | app/blueprints/core/routes.py:156 | Every token of `split()` is non-empty and free of whitespace |
| Text.SplitKeepsLower | app/blueprints/core/routes.py:156 | The tokens of a string without upper-case letters have none either |
| Text.WordLength | app/blueprints/core/routes.py:156 | The length of the maximal whitespace-free prefix |
| Text.SplitEmptyIff | app/blueprints/core/routes.py:155-156 | `split()` gives no token exactly when the string is empty or all whitespace |
| Text.SplitIgnoresStrip | app/blueprints/core/routes.py:155-156 | `strip()` before `split()` does not change the tokens |
| Text.SplitJoinWords | app/blueprints/core/routes.py:156 | `split()` gives back words joined by spaces |
| Text.LowerIsLower | app/blueprints/core/routes.py:156 | Lower-casing is idempotent |
| Text.Lower | app/blueprints/core/routes.py:156 | `str.lower` keeps the length, leaves no upper-case letter and keeps every other character in place |
| Text.LStripShape | app/blueprints/core/routes.py:155 | `lstrip()` removes only a whitespace prefix, and the result does not start with whitespace |
| Text.RStripShape | app/blueprints/core/routes.py:155 | `rstrip()` removes only a whitespace suffix, and the result does not end with whitespace |
| Text.Strip | app/blueprints/core/routes.py:155 | `strip()` leaves no whitespace at either end, and is a slice of the input with only whitespace before and after it |
| Text.Contains | app/blueprints/core/routes.py:170 | `w in t`: the empty string is in every string, and a contained string is no longer than the text |
| Text.ContainsIff | app/blueprints/core/routes.py:170-173 | `w in t` holds exactly when `w` occurs at some index of `t` |
| Text.MissingFirstChar | app/blueprints/core/routes.py:170-173 | A string lacking the first character of `w` does not contain `w` |
| Text.Decimal | app/blueprints/menu/functions.py:68 | `str(n)`: non-empty decimal digits with no leading zero |
| Text.DecimalRoundTrip | app/blueprints/menu/functions.py:68 | Reading `str(n)` back gives `n` |
| Text.LastSegment | app/blueprints/menu/functions.py:56-58 | `basename`/`split("/")[-1]`: a suffix without '/' that follows a '/' or starts the path |
| Text.LastSegmentAfterSlash | app/blueprints/menu/functions.py:56-58 | The last segment of `dir + "/" + name` is `name` when `name` has no '/' |
| Text.BasenameOfJoin | app/blueprints/core/routes.py:305-306 | The basename of `os.path.join(dir, name)` is `name` |
| Text.JoinPath | app/blueprints/core/routes.py:306 | `os.path.join(dir, name)` ends with `name`; a relative name follows `dir`, an absolute one replaces it |
| Search.TokensEmptyIff | app/blueprints/core/routes.py:155-156 | A query has no tokens exactly when it is empty or whitespace |
| Search.Tokens | app/blueprints/core/routes.py:155-156 | Every token of the query is a non-empty, whitespace-free word with no upper-case letter |
| Search.FieldText | app/blueprints/core/routes.py:170 | `(field or '').lower()` raises exactly for a truthy non-string and otherwise gives the field's searched text |
| Search.FieldHit | app/blueprints/core/routes.py:170 | `word in (field or '').lower()` raises exactly for a truthy non-string field |
| Search.TokenHit | app/blueprints/core/routes.py:170-173 | A hit on Title, or a miss on Title with a hit on Meal, decides true; a raise comes only from the first field that is truthy and not a string after every earlier field missed |
| Search.AllHit | app/blueprints/core/routes.py:169-175 | `all` of no tokens is true; when true, every token's four-way `or` was true |
| Search.Filtered | app/blueprints/core/routes.py:168-176 | When the comprehension finishes it keeps only input records and no more of them; with no tokens it keeps every record |
| Search.FieldHitAgrees | app/blueprints/core/routes.py:170 | `word in (field or '').lower()` agrees with the specification when it does not raise, and does not raise for a falsy or string field |
| Search.TokenHitAgrees | app/blueprints/core/routes.py:170-173 | The four-way `or` agrees with "some field contains the token" |
| Search.AllHitAgrees | app/blueprints/core/routes.py:169-175 | `all(...)` agrees with "every token hits some field" |
| Search.FilteredAgrees | app/blueprints/core/routes.py:168-176 | When the comprehension finishes it keeps exactly the records the specification keeps; it always finishes when every searched field is a string or falsy |
| Search.FilterNoTokens | app/blueprints/core/routes.py:177-178 | With no tokens every record is kept, in order |
| Search.FilterMembership | app/blueprints/core/routes.py:168-176 | A record is in the result iff it is an input and every token is in one of its Title/Meal/Core/Source; Notes and Ingredients are never read |
| Search.FilterIsSubsequence | app/blueprints/core/routes.py:168-176 | The result is an order-preserving subsequence of the input |
| Search.FilterAddToken | app/blueprints/core/routes.py:168-176 | Filtering with one more token equals filtering the previous result with that token |
| Search.FilterNarrows | app/blueprints/core/routes.py:168-176 | Adding a token never enlarges the result |
| Search.FilterDependsOnTokenSet | app/blueprints/core/routes.py:169-175 | Only the set of tokens matters: order and repetition do not |
| Search.SoupExample | app/blueprints/core/routes.py:168-176 | "soup" finds both the chicken soup and the soup-night stew; "Chicken soup" finds only the first |
| Upstream.ListItems | app/blueprints/core/routes.py:144-145 | `response.json().get("list", [])` yields the list's objects in order, nothing when "list" is absent, and raises for a non-list truthy value |
| Upstream.Table.Fetch | app/blueprints/core/routes.py:33-34 | 200 with the row and its Id exactly when the service is up and the row exists |
| Upstream.Table.Create | app/blueprints/core/routes.py:353-355 | When up, a new row with a fresh id holds the payload and the reply carries the id; otherwise nothing changes |
| Upstream.Table.Patch | app/blueprints/core/routes.py:54-65 | When up and the body's Id names a row, that row's columns are overwritten by the body; otherwise nothing changes |
| Upstream.Table.Delete | app/blueprints/ideas/routes.py:124-127 | When up and every id names a row, exactly those rows go; otherwise nothing changes |
| Upstream.Storage.SaveLocal | app/blueprints/core/routes.py:305-307 | The file lands on disk under its path; storage is untouched |
| Upstream.Storage.Store | app/blueprints/core/routes.py:90-97 | When up, the file is stored under the requested path and the metadata is returned; otherwise None and nothing changes |
| Http.Status | app/blueprints/core/routes.py:322-325 | A rendered page and an HX success answer 200, a fault 500 |
| Http.Error | app/blueprints/core/routes.py:297 | `jsonify({"error": message}), code` |
| Http.ErrorWithCode | app/blueprints/core/routes.py:149 | The upstream status is both the body's `status_code` and the reply's status |
| MenuFunctions.FirstAttachment | app/blueprints/menu/functions.py:21-22 | List metadata is reduced to its first element; an empty list raises |
| MenuFunctions.TruthyHasFirst | app/blueprints/menu/routes.py:224-228 | Metadata that passed the truthiness check never is an empty list |
| MenuFunctions.AttachmentJson | app/blueprints/menu/functions.py:25-33 | path/title/mimetype/size copied or None, signedPath copied or `""`, `id` present iff present in the metadata; raises for a non-dict |
| MenuFunctions.AttachmentPatch | app/blueprints/menu/functions.py:36-42 | Body of exactly Id and Photo, Photo holding the serialised one-element attachment list; the table is the configured one |
| MenuFunctions.AttachmentTableIgnored | app/blueprints/menu/functions.py:36 | The `table_id` argument does not affect the PATCH |
| MenuFunctions.Upload | app/blueprints/menu/functions.py:55-71 | Query path and `path` field are `download/noco/{table}/{secure(basename)}`; mimetype `image/jpeg`; size the decimal string of the file size; title the secured last segment |
| MenuFunctions.UploadOfSavedFile | app/blueprints/menu/functions.py:56-58 | For a file saved under `static/uploads`, the title and stored path end in its secured name |
| MenuFunctions.SaveBody | app/blueprints/menu/functions.py:99-100 | `to_dict()` with Id set to the record's Id is `to_dict()` itself |
| MenuFunctions.SaveBodyRoundTrip | app/blueprints/menu/functions.py:99-100 | The save body of a normalised record reads back as that record |
| RecipeRoutes.GetRecipeById | app/blueprints/core/routes.py:30-41 | The normalised record on 200, None for any other status; the menu copy at app/blueprints/menu/routes.py:31-42 is modelled by the same member, and its differences are listed under Left out |
| RecipeRoutes.FetchedRecipe | app/blueprints/core/routes.py:33-38 | A fetch gives a record iff the service is up and the row exists, and then it is the record read from the row's columns with its own Id |
| RecipeRoutes.Records | app/blueprints/core/routes.py:144-145 | One normalised record per list item, in order |
| RecipeRoutes.Index | app/blueprints/core/routes.py:136-149 | On failure the JSON error carries the upstream status; otherwise the page lists one normalised record per list item; the menu copy at app/blueprints/menu/routes.py:49-62 is modelled by the same member, and its differences are listed under Left out |
| RecipeRoutes.SearchRecipes | app/blueprints/core/routes.py:152-182 | The page lists exactly the specification filter's result for the `search` argument, all records for a blank query, and is produced whenever the searched fields are strings or falsy; a 200 reply gives that page or a fault, a failed fetch the error with its status; the menu copy at app/blueprints/menu/routes.py:65-95 is modelled by the same member, and its differences are listed under Left out |
| RecipeRoutes.Html | app/blueprints/menu/routes.py:107-114 | `""` for a falsy field, markdown of a string, a fault for another truthy value |
| RecipeRoutes.FalsyHtmlSkipsMarkdown | app/blueprints/core/routes.py:194-201 | A falsy field's HTML does not depend on the markdown library |
| RecipeRoutes.ViewRecipe | app/blueprints/core/routes.py:184-204 | The normalised record with the HTML of Ingredients and Method, or the upstream status in a JSON error; the menu copy at app/blueprints/menu/routes.py:97-117 is modelled by the same member, and its differences are listed under Left out |
| RecipeRoutes.EditField | app/blueprints/core/routes.py:207-228 | One of the ten attributes as fetched; a non-string object for the class's names; `""` for a name the record lacks; after a failed fetch, a non-string object for None's names and `""` otherwise; the menu copy at app/blueprints/menu/routes.py:120-141 is modelled by the same member, and its differences are listed under Left out |
| RecipeRoutes.DisplayField | app/blueprints/core/routes.py:260-269 | As edit, in display form; the menu copy at app/blueprints/menu/routes.py:173-182 is modelled by the same member, and its differences are listed under Left out |
| RecipeRoutes.DisplayRichField | app/blueprints/core/routes.py:271-282 | Markdown of a string attribute; a fault for every non-string the lookup gives (the class's names, `__dict__`, `__doc__`, `__weakref__`, None's names after a failed fetch); markdown of `""` for a name the object lacks; the menu copy at app/blueprints/menu/routes.py:184-195 is modelled by the same member, and its differences are listed under Left out |
| RecipeRoutes.EditBody | app/blueprints/core/routes.py:237-239 | The PATCH body of an edit is missing exactly when `setattr` raises or `to_dict` has been hidden; otherwise it has exactly the ten keys |
| RecipeRoutes.EditBodyChangesOneField | app/blueprints/core/routes.py:237-239 | When the save does not raise, the PATCH body is the fetched record's `to_dict()` with only the named attribute replaced and Id the record's; an assignable name outside the ten sends the record unchanged |
| RecipeRoutes.SetAndSave | app/blueprints/core/routes.py:237-239 | The handler gets past the save exactly when the fetch succeeded and neither `setattr` nor `to_dict` raised; only then is the PATCH sent, and the table changes exactly as the PATCH of the edit body says |
| RecipeRoutes.UpdateField | app/blueprints/core/routes.py:231-242 | Missing value gives 400; a failed fetch, an unassignable name or `to_dict` faults with nothing changed; otherwise the new value is shown whether or not the PATCH succeeded; the menu copy at app/blueprints/menu/routes.py:144-155 is modelled by the same member, and its differences are listed under Left out |
| RecipeRoutes.UpdateRichField | app/blueprints/core/routes.py:244-257 | The raw form value is stored; the page shows markdown of the cleaned value; it faults with nothing changed where `update_field` does; the menu copy at app/blueprints/menu/routes.py:157-170 is modelled by the same member, and its differences are listed under Left out |
| RecipeRoutes.IdEditNamesNoRecord | app/blueprints/core/routes.py:238 | Setting Id to a form string gives a body whose Id is that string; under the model's rule that a string Id names no row, that PATCH matches no record |
| RecipeRoutes.ReadAfterEdit | app/blueprints/core/routes.py:237-239 | After a saved edit of a field other than Id, reading the record back gives the old record with that one field set, provided an edit of Core or LeftOvers is not the empty string (which reads back as `{}`) |
| RecipeRoutes.MergedOnKeys | app/blueprints/core/routes.py:54-65 | A saved body merged into the stored row, with the row's Id restored, reads back as the body |
| RecipeRoutes.UploadFile | app/blueprints/core/routes.py:75-97 | The saved file is stored under the form's path with the size on disk; the metadata on 200, None otherwise |
| RecipeRoutes.LocalPath | app/blueprints/core/routes.py:305-306 | The save path's basename is the secured file name whenever that name has no '/' |
| RecipeRoutes.PhotoColumn | app/blueprints/menu/functions.py:39-42 | The Photo column value is a string, the JSON text of the one-element attachment list |
| RecipeRoutes.Attach | app/blueprints/core/routes.py:100-134 | Raises for metadata without `.get`; on 200 exactly the Photo column of the record changes; otherwise None and nothing changes |
| RecipeRoutes.AttachedPhotoReadsBack | app/blueprints/core/routes.py:120-127 | After an attach the record reads back with only Photo replaced by the one-element attachment list |
| RecipeRoutes.SavePhoto | app/blueprints/core/routes.py:290-325 | 400 no file, 400 empty file name, a fault for an empty secured name (nothing saved in all three), 500 upload, 500 link, then HX-Redirect success or redirect to the recipe; the menu copy at app/blueprints/menu/routes.py:203-238 is modelled by the same member, and its differences are listed under Left out |
| RecipeRoutes.NewRecipePayload | app/blueprints/core/routes.py:335-350 | Exactly Title/Meal/Core/Source/Notes/Ingredients from the form, None where absent |
| RecipeRoutes.CreatedRecipeView | app/blueprints/core/routes.py:343-355 | A created record reads back with the submitted fields and its new Id |
| RecipeRoutes.AttachNewPhoto | app/blueprints/core/routes.py:362-372 | An empty secured name raises with nothing saved; otherwise the file lands on disk and, when the upload is up, in storage; it raises exactly when the metadata is truthy without an attachment; the new record's Photo column is set exactly when the upload gave attachment metadata and the link PATCH succeeded |
| RecipeRoutes.SaveNewRecipe | app/blueprints/core/routes.py:332-380 | Create failure gives 500 and changes nothing; otherwise the new row holds the payload, with the attachment exactly when the photo was uploaded and linked; disk and storage change as in `save_photo`; the answer redirects to the new id unless the secured name is empty or linking raises; the menu copy at app/blueprints/menu/routes.py:245-293 is modelled by the same member, and its differences are listed under Left out |
| IdeaRoutes.GetIdeaById | app/blueprints/ideas/routes.py:23-34 | The normalised idea on 200, None otherwise |
| IdeaRoutes.FetchedIdea | app/blueprints/ideas/routes.py:26-31 | A fetch gives an idea iff the service is up and the row exists, with its own Id |
| IdeaRoutes.Records | app/blueprints/ideas/routes.py:44-45 | One normalised idea per list item, in order |
| IdeaRoutes.Index | app/blueprints/ideas/routes.py:36-49 | The list page, or the home page on any failure status |
| IdeaRoutes.SearchIdeas | app/blueprints/ideas/routes.py:87-117 | The recipe filter over ideas from the `idea-search` argument; all ideas for a blank query; a 200 reply gives that page or a fault, a failed fetch the error with its status |
| IdeaRoutes.NewIdeaPayload | app/blueprints/ideas/routes.py:58-71 | Exactly five keys from the form, None where absent |
| IdeaRoutes.SaveNewIdea | app/blueprints/ideas/routes.py:55-85 | Success stores the payload in a new row and redirects to the index; failure shows the form with its error |
| IdeaRoutes.DeleteBody | app/blueprints/ideas/routes.py:122 | The body is exactly `[{"Id": idea_id}]` |
| IdeaRoutes.DeleteBodyRemoves | app/blueprints/ideas/routes.py:122-127 | Deleting with that body removes exactly the one row |
| IdeaRoutes.DeleteIdea | app/blueprints/ideas/routes.py:119-140 | On 200 the row is gone and the reload script answers 200; otherwise 500 "Failed to delete idea" and nothing changes |
| IdeaRoutes.MovePayload | app/blueprints/ideas/routes.py:155-161 | Exactly Title/Meal/Core/Source/Notes of the fetched JSON, None where absent |
| IdeaRoutes.MovedRecipeView | app/blueprints/ideas/routes.py:152-167 | The created recipe has the new Id, no photo and no ingredients, and shows the idea's Title, Meal, Source, Notes and Core wherever the row has them; an absent Title is None on the recipe and '-' on the idea, an absent Core is `{}` on the recipe and '-' on the idea |
| IdeaRoutes.MoveToRecipes | app/blueprints/ideas/routes.py:142-189 | Failed fetch or create: 500 and both tables unchanged; failed delete: 500 with the idea in both tables; success: the idea gone, the recipe added, 200 with HX-Location to the new id |
| IdeaRoutes.DuplicateAfterFailedDelete | app/blueprints/ideas/routes.py:173-182 | After a failed delete the recipe copy shows the idea's Title, Meal, Source, Notes and Core wherever the idea's row has them |

## Left out

- HTTP itself is not modelled: base URL, tokens and headers are absent. Each API call is a `Table` or `Storage` call, or a reply passed in. A call either reaches a working service or gets a non-200 status (503 here). The API's own error codes beyond 404 for an unknown record are not modelled.
- Replies are JSON objects. A 200 reply whose body is not an object, and a create reply without "Id", are not modelled.
- The API's coercion of values is not modelled. A string Id in a PATCH body names no record here. Columns the table does not have are stored like any other.
- What the storage service answers for an upload is an input (`metadata`). Its format is the service's business.
- Templates, `url_for`, `redirect` and `jsonify` are reduced to `Page`, `Target` and `Response` values. The HX-Request header is a boolean.
- `upload_photo_field`, `create_recipe` and `add_idea` only render a template, so they are not modelled.
- `secure_filename`, `markdown2.markdown`, `cleanify` and `json.dumps` are uninterpreted. markdown is taken to raise for a non-string argument.
- `str.lower` maps ASCII letters only. Floating-point JSON numbers are not part of `Value`.
- File contents and `os.path.getsize` are reduced to a size in bytes.
- Logging (`print`, `ic`), `load_dotenv` and configuration loading are not modelled. app/app.py is not part of this model.
- Requests are handled one at a time. The lost update of two concurrent read-modify-write edits is not modelled.
- The menu blueprint's errors are not modelled as the faults they raise:
  - app/blueprints/menu/routes.py:152, 165, 223, 282 and 286 call the helpers without their `table_id` argument;
  - app/blueprints/menu/functions.py:10, 36, 57 and 92 index `current_app` instead of its config;
  - app/app.py:22 sets the table id to the API token.
  
  The menu handlers are modelled with the behaviour they share with the core blueprint: the blueprint's own table id is used throughout.
- `move_to_recipes` answers with `url_for('core.recipe', ...)`. That resolves only if the core blueprint is registered, and app/app.py:36-40 registers only menu and ideas. Registration is not modelled.
- `from app.blueprints.core.models import NoCoRecipes` (app/blueprints/core/routes.py:11) names a file that is not part of this model. It is taken to be app/blueprints/menu/models.py.
- The recipes table id written in `move_to_recipes` is kept as `IdeaRoutes.RecipesTableId`. `MoveToRecipes` takes the recipes table as an object and does not compare that object's id with the constant.
- RecipeModel.GetAttr: the names found on the class are those of CPython 3.11. `__module__`, a string naming the models module, and `None.__doc__`, which differs between Python versions, read as `""` in the model.
- RecipeModel.SetAttr: an assigned name outside the ten and other than `to_dict` is not kept on the record, because the handlers only save the object and then discard it.
- RecipeRoutes.IdEditNamesNoRecord: that the PATCH matches no record rests on the model's rule that a string Id names no row. The real API might coerce a numeric string such as "7" to record 7 and overwrite it; that coercion is not modelled.
- Search.FilteredAgrees: this states when the source's filter cannot raise. It does not characterise every input that makes it raise, because that depends on which field Python reaches first.

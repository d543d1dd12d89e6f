/** The recipe record (class NoCoRecipes): construction with defaults, the fixed
    ten-key dictionary it serialises to, and attribute access by name. */
module RecipeModel {
  import opened Values

  /** A NoCoRecipes instance. Field names are the class's attribute names, which
      are also the column names of the recipes table. */
  datatype Recipe = Recipe(
    Id: Value, Meal: Value, Core: Value, Title: Value, LeftOvers: Value,
    Source: Value, Photo: Value, Notes: Value, Ingredients: Value, Method: Value)

  /** The keys of `to_dict`, which are also the instance's attribute names. */
  const Keys: set<string> :=
    {"Id", "Meal", "Core", "Title", "LeftOvers", "Source", "Photo", "Notes", "Ingredients", "Method"}

  /** What the constructor guarantees: Core and LeftOvers are truthy or `{}`. */
  predicate Normalized(r: Recipe) {
    (Truthy(r.Core) || r.Core == EmptyDict) && (Truthy(r.LeftOvers) || r.LeftOvers == EmptyDict)
  }

  /** `NoCoRecipes.__init__`: a falsy Core or LeftOvers becomes `{}`; every other
      argument is stored as given. */
  function Construct(
    Id: Value, Meal: Value, Core: Value, Title: Value, LeftOvers: Value := Null,
    Source: Value := Null, Photo: Value := Null, Notes: Value := Null,
    Ingredients: Value := Null, Method: Value := Null): (r: Recipe)
    ensures Normalized(r)
    ensures Truthy(Core) ==> r.Core == Core
    ensures !Truthy(Core) ==> r.Core == EmptyDict
    ensures Truthy(LeftOvers) ==> r.LeftOvers == LeftOvers
    ensures !Truthy(LeftOvers) ==> r.LeftOvers == EmptyDict
    ensures r.Id == Id && r.Meal == Meal && r.Title == Title && r.Source == Source
    ensures r.Photo == Photo && r.Notes == Notes && r.Ingredients == Ingredients && r.Method == Method
  {
    Recipe(Id, Meal, Or(Core, EmptyDict), Title, Or(LeftOvers, EmptyDict),
           Source, Photo, Notes, Ingredients, Method)
  }

  /** `get_id`: the record's Id, the same value `to_dict` serialises under "Id". */
  function GetId(r: Recipe): (v: Value)
    ensures v == ToDict(r)["Id"]
  {
    r.Id
  }

  /** `to_dict`: exactly the ten keys, each mapped to its attribute. */
  function ToDict(r: Recipe): (d: Object)
    ensures d.Keys == Keys
    ensures d["Id"] == r.Id && d["Meal"] == r.Meal && d["Core"] == r.Core && d["Title"] == r.Title
    ensures d["LeftOvers"] == r.LeftOvers && d["Source"] == r.Source && d["Photo"] == r.Photo
    ensures d["Notes"] == r.Notes && d["Ingredients"] == r.Ingredients && d["Method"] == r.Method
  {
    map["Id" := r.Id, "Meal" := r.Meal, "Core" := r.Core, "Title" := r.Title,
        "LeftOvers" := r.LeftOvers, "Source" := r.Source, "Photo" := r.Photo,
        "Notes" := r.Notes, "Ingredients" := r.Ingredients, "Method" := r.Method]
  }

  /** `from_api_data`: an absent Id, Meal or Source becomes 'Unknown', an absent
      Title 'Untitled', an absent Core or LeftOvers `{}`, and an absent Photo, Notes,
      Ingredients or Method None. A key that is present keeps its value, even None,
      except that a falsy Core or LeftOvers still becomes `{}`. */
  function FromApiData(data: Object): (r: Recipe)
    ensures Normalized(r)
    ensures r.Id == (if "Id" in data then data["Id"] else Str("Unknown"))
    ensures r.Meal == (if "Meal" in data then data["Meal"] else Str("Unknown"))
    ensures r.Title == (if "Title" in data then data["Title"] else Str("Untitled"))
    ensures r.Source == (if "Source" in data then data["Source"] else Str("Unknown"))
    ensures r.Core == (if "Core" in data && Truthy(data["Core"]) then data["Core"] else EmptyDict)
    ensures r.LeftOvers == (if "LeftOvers" in data && Truthy(data["LeftOvers"]) then data["LeftOvers"] else EmptyDict)
    ensures r.Photo == (if "Photo" in data then data["Photo"] else Null)
    ensures r.Notes == (if "Notes" in data then data["Notes"] else Null)
    ensures r.Ingredients == (if "Ingredients" in data then data["Ingredients"] else Null)
    ensures r.Method == (if "Method" in data then data["Method"] else Null)
  {
    Construct(
      Id := Get(data, "Id", Str("Unknown")),
      Meal := Get(data, "Meal", Str("Unknown")),
      Core := Get(data, "Core", EmptyDict),
      Title := Get(data, "Title", Str("Untitled")),
      LeftOvers := Get(data, "LeftOvers", EmptyDict),
      Source := Get(data, "Source", Str("Unknown")),
      Photo := Get(data, "Photo", Null),
      Notes := Get(data, "Notes", Null),
      Ingredients := Get(data, "Ingredients", Null),
      Method := Get(data, "Method", Null))
  }

  /** Serialising a constructed recipe and reading it back gives the same recipe. */
  lemma RoundTrip(r: Recipe)
    requires Normalized(r)
    ensures FromApiData(ToDict(r)) == r
  {
  }

  /** Every recipe the constructor builds survives the round trip. */
  lemma ConstructedRoundTrip(
    Id: Value, Meal: Value, Core: Value, Title: Value, LeftOvers: Value,
    Source: Value, Photo: Value, Notes: Value, Ingredients: Value, Method: Value)
    ensures var r := Construct(Id, Meal, Core, Title, LeftOvers, Source, Photo, Notes, Ingredients, Method);
            FromApiData(ToDict(r)) == r
  {
  }

  /** Keys outside the ten are ignored by `from_api_data`. */
  lemma IgnoresOtherKeys(data: Object, extra: Object)
    requires extra.Keys !! Keys
    ensures FromApiData(data + extra) == FromApiData(data)
  {
    var d := data + extra;
    assert forall k :: k in Keys ==> (k in d <==> k in data);
    assert forall k :: k in Keys && k in data ==> d[k] == data[k];
    FromApiDataOnKeys(d, data);
  }

  /** `from_api_data` looks at the ten keys only: two objects that agree on them
      give the same record. */
  lemma FromApiDataOnKeys(d1: Object, d2: Object)
    requires forall k :: k in Keys ==> (k in d1 <==> k in d2)
    requires forall k :: k in Keys && k in d1 ==> d1[k] == d2[k]
    ensures FromApiData(d1) == FromApiData(d2)
  {
  }

  /** `get_id` of a record read from API data is its Id, or 'Unknown'. */
  lemma GetIdOfApiData(data: Object)
    ensures GetId(FromApiData(data)) == Get(data, "Id", Str("Unknown"))
  {
  }

  /** The methods every instance inherits from `object` in Python 3.11. */
  const ObjectMethods: set<string> :=
    {"__delattr__", "__dir__", "__eq__", "__format__", "__ge__", "__getattribute__",
     "__getstate__", "__gt__", "__hash__", "__init__", "__init_subclass__", "__le__",
     "__lt__", "__ne__", "__new__", "__reduce__", "__reduce_ex__", "__repr__",
     "__setattr__", "__sizeof__", "__str__", "__subclasshook__"}

  /** The names `getattr` resolves on the class of a NoCoRecipes instance to an
      object that is not JSON data: the inherited methods, the class's own
      `get_id`, `to_dict` and `from_api_data`, and `__class__`. */
  const ClassAttrs: set<string> := ObjectMethods + {"get_id", "to_dict", "from_api_data", "__class__"}

  /** The same names on `None`: the inherited methods, `__bool__` and `__class__`. */
  const NoneAttrs: set<string> := ObjectMethods + {"__bool__", "__class__"}

  /** The names under which a NoCoRecipes instance has an attribute that is not
      one of the ten: the class's names, the attribute dictionary, the docstring
      and `__weakref__`. */
  const OtherAttrs: set<string> := ClassAttrs + {"__dict__", "__doc__", "__weakref__"}

  /** Every name a NoCoRecipes instance has an attribute under. */
  const InstanceNames: set<string> := Keys + OtherAttrs

  /** The names `setattr` refuses when the value is a string: `__class__` and
      `__dict__` raise TypeError, the read-only `__weakref__` AttributeError. */
  const Unassignable: set<string> := {"__class__", "__dict__", "__weakref__"}

  /** The ten attribute names start with a capital letter. */
  lemma KeysCapitalised()
    ensures forall n :: n in Keys ==> 'A' <= n[0] <= 'Z'
  {
  }

  /** None of the class's own names does. */
  lemma ClassAttrsNotCapitalised()
    ensures forall n :: n in ClassAttrs ==> n != [] && !('A' <= n[0] <= 'Z')
  {
  }

  /** The attribute dictionary, the docstring and `__weakref__` are not among the
      class's methods. */
  lemma DictNotClassAttr() ensures "__dict__" !in ClassAttrs {}
  lemma DocNotClassAttr() ensures "__doc__" !in ClassAttrs {}
  lemma WeakrefNotClassAttr() ensures "__weakref__" !in ClassAttrs {}

  /** None of the ten attribute names is one of the instance's other names. */
  lemma KeyNotOther(name: string)
    requires name in Keys
    ensures name !in OtherAttrs
  {
    KeysCapitalised();
    CapitalisedNotOther(name);
  }

  /** A capitalised name is none of the instance's other names. */
  lemma CapitalisedNotOther(name: string)
    requires name != [] && 'A' <= name[0] <= 'Z'
    ensures name !in OtherAttrs
  {
    assert name !in ClassAttrs by {
      ClassAttrsNotCapitalised();
    }
    assert name != "__dict__" && name != "__doc__" && name != "__weakref__" by {
      assert "__dict__"[0] == '_' && "__doc__"[0] == '_' && "__weakref__"[0] == '_';
    }
  }

  /** `getattr(recipe, name, "")`, where `recipe` may be None because the fetch
      failed. On a record: the attribute's value for one of the ten names, the
      attribute dictionary for `__dict__` (the same ten entries), None for the
      class's absent docstring and for `__weakref__`, a method or class object for
      the class's names, and "" for any other name. On None: a method or class
      object for None's own names, "" otherwise. */
  function GetAttr(recipe: Option<Recipe>, name: string): (v: Value)
    ensures recipe.Some? && name in Keys ==> v == ToDict(recipe.value)[name]
    ensures recipe.Some? && name == "__dict__" ==> v == Dict(ToDict(recipe.value))
    ensures recipe.Some? && name in {"__doc__", "__weakref__"} ==> v == Null
    ensures recipe.Some? && name in ClassAttrs ==> v == Opaque(name)
    ensures recipe.Some? && name !in InstanceNames ==> v == Str("")
    ensures recipe.Some? && name in OtherAttrs ==> !v.Str?
    ensures recipe.None? && name in NoneAttrs ==> v == Opaque(name)
    ensures recipe.None? && name !in NoneAttrs ==> v == Str("")
    ensures recipe.None? && name in NoneAttrs ==> !v.Str?
  {
    match recipe
    case None => if name in NoneAttrs then Opaque(name) else Str("")
    case Some(r) =>
      if name in Keys then
        KeyNotOther(name);
        ToDict(r)[name]
      else if name == "__dict__" then
        DictNotClassAttr();
        Dict(ToDict(r))
      else if name == "__doc__" || name == "__weakref__" then
        DocNotClassAttr();
        WeakrefNotClassAttr();
        Null
      else if name in ClassAttrs then Opaque(name)
      else Str("")
  }

  /** `setattr(recipe, name, v)` with a string `v`: None where Python raises. For
      one of the ten names exactly that attribute changes (Id included). Any other
      assignable name adds an instance attribute that `to_dict` never reads, so the
      serialised record stays the same (the handlers discard the object once it is
      saved, and the model does not keep that attribute). The constructor's coercion
      of Core and LeftOvers is not re-applied. */
  function SetAttr(r: Recipe, name: string, v: string): (r': Option<Recipe>)
    ensures r'.None? <==> name in Unassignable
    ensures r'.Some? ==> r'.value.Id == (if name == "Id" then Str(v) else r.Id)
    ensures r'.Some? ==> r'.value.Meal == (if name == "Meal" then Str(v) else r.Meal)
    ensures r'.Some? ==> r'.value.Core == (if name == "Core" then Str(v) else r.Core)
    ensures r'.Some? ==> r'.value.Title == (if name == "Title" then Str(v) else r.Title)
    ensures r'.Some? ==> r'.value.LeftOvers == (if name == "LeftOvers" then Str(v) else r.LeftOvers)
    ensures r'.Some? ==> r'.value.Source == (if name == "Source" then Str(v) else r.Source)
    ensures r'.Some? ==> r'.value.Photo == (if name == "Photo" then Str(v) else r.Photo)
    ensures r'.Some? ==> r'.value.Notes == (if name == "Notes" then Str(v) else r.Notes)
    ensures r'.Some? ==> r'.value.Ingredients == (if name == "Ingredients" then Str(v) else r.Ingredients)
    ensures r'.Some? ==> r'.value.Method == (if name == "Method" then Str(v) else r.Method)
  {
    if name in Unassignable then None
    else
      var x := Str(v);
      Some(match name
        case "Id" => r.(Id := x)
        case "Meal" => r.(Meal := x)
        case "Core" => r.(Core := x)
        case "Title" => r.(Title := x)
        case "LeftOvers" => r.(LeftOvers := x)
        case "Source" => r.(Source := x)
        case "Photo" => r.(Photo := x)
        case "Notes" => r.(Notes := x)
        case "Ingredients" => r.(Ingredients := x)
        case "Method" => r.(Method := x)
        case _ => r)
  }

  /** In serialised form, an accepted `setattr` replaces exactly the named entry of
      `to_dict`; an assignable name outside the ten leaves the record as it is. */
  lemma SetAttrToDict(r: Recipe, name: string, v: string)
    ensures SetAttr(r, name, v).Some? ==>
              forall k :: k in Keys ==> ToDict(SetAttr(r, name, v).value)[k] == if k == name then Str(v) else ToDict(r)[k]
    ensures name !in Keys && name !in Unassignable ==> SetAttr(r, name, v) == Some(r)
  {
    if name !in Unassignable {
      var r' := SetAttr(r, name, v).value;
      forall k | k in Keys
        ensures ToDict(r')[k] == if k == name then Str(v) else ToDict(r)[k]
      {
        if k == "Id" {
        } else if k == "Meal" {
        } else if k == "Core" {
        } else if k == "Title" {
        } else if k == "LeftOvers" {
        } else if k == "Source" {
        } else if k == "Photo" {
        } else if k == "Notes" {
        } else if k == "Ingredients" {
        } else {
          assert k == "Method";
        }
      }
    }
  }

  /** Reading one of the ten attributes back after setting it gives the value set. */
  lemma GetAfterSet(r: Recipe, name: string, v: string)
    requires name in Keys
    ensures GetAttr(SetAttr(r, name, v), name) == Str(v)
  {
    KeysCapitalised();
    assert name[0] != '_';
    SetAttrToDict(r, name, v);
  }
}

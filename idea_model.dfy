/** The idea record (class Ideas): six attributes, '-' defaults, and the fixed
    six-key dictionary it serialises to. An idea has no LeftOvers, Photo,
    Ingredients or Method. */
module IdeaModel {
  import opened Values

  /** An Ideas instance. */
  datatype Idea = Idea(Id: Value, Title: Value, Meal: Value, Core: Value, Source: Value, Notes: Value)

  /** The keys of `to_dict`. */
  const Keys: set<string> := {"Id", "Title", "Meal", "Core", "Source", "Notes"}

  /** What the constructor guarantees: Core is truthy or `{}`. */
  predicate Normalized(i: Idea) {
    Truthy(i.Core) || i.Core == EmptyDict
  }

  /** `Ideas.__init__`: a falsy Core becomes `{}`; every other argument is stored as given. */
  function Construct(Id: Value, Title: Value, Meal: Value, Core: Value, Source: Value, Notes: Value): (i: Idea)
    ensures Normalized(i)
    ensures Truthy(Core) ==> i.Core == Core
    ensures !Truthy(Core) ==> i.Core == EmptyDict
    ensures i.Id == Id && i.Title == Title && i.Meal == Meal && i.Source == Source && i.Notes == Notes
  {
    Idea(Id, Title, Meal, Or(Core, EmptyDict), Source, Notes)
  }

  /** `get_id`: the idea's Id, the same value `to_dict` serialises under "Id". */
  function GetId(i: Idea): (v: Value)
    ensures v == ToDict(i)["Id"]
  {
    i.Id
  }

  /** `to_dict`: exactly the six keys, each mapped to its attribute. */
  function ToDict(i: Idea): (d: Object)
    ensures d.Keys == Keys
    ensures d["Id"] == i.Id && d["Title"] == i.Title && d["Meal"] == i.Meal
    ensures d["Core"] == i.Core && d["Source"] == i.Source && d["Notes"] == i.Notes
  {
    map["Id" := i.Id, "Title" := i.Title, "Meal" := i.Meal, "Core" := i.Core,
        "Source" := i.Source, "Notes" := i.Notes]
  }

  /** The sentinel every absent key takes. */
  const Dash: Value := Str("-")

  /** `from_api_data`: every absent key becomes '-'. An absent Core therefore stays
      '-' (it is truthy), while a present but falsy Core becomes `{}`. */
  function FromApiData(data: Object): (i: Idea)
    ensures Normalized(i)
    ensures i.Id == (if "Id" in data then data["Id"] else Dash)
    ensures i.Title == (if "Title" in data then data["Title"] else Dash)
    ensures i.Meal == (if "Meal" in data then data["Meal"] else Dash)
    ensures i.Source == (if "Source" in data then data["Source"] else Dash)
    ensures i.Notes == (if "Notes" in data then data["Notes"] else Dash)
    ensures "Core" !in data ==> i.Core == Dash
    ensures "Core" in data ==> i.Core == (if Truthy(data["Core"]) then data["Core"] else EmptyDict)
  {
    Construct(
      Id := Get(data, "Id", Dash),
      Title := Get(data, "Title", Dash),
      Meal := Get(data, "Meal", Dash),
      Core := Get(data, "Core", Dash),
      Source := Get(data, "Source", Dash),
      Notes := Get(data, "Notes", Dash))
  }

  /** Serialising a constructed idea and reading it back gives the same idea. */
  lemma RoundTrip(i: Idea)
    requires Normalized(i)
    ensures FromApiData(ToDict(i)) == i
  {
  }

  /** Keys outside the six are ignored by `from_api_data`. */
  lemma IgnoresOtherKeys(data: Object, extra: Object)
    requires extra.Keys !! Keys
    ensures FromApiData(data + extra) == FromApiData(data)
  {
    var d := data + extra;
    assert forall k :: k in Keys ==> (k in d <==> k in data);
    assert forall k :: k in Keys && k in data ==> d[k] == data[k];
  }

  /** `get_id` of an idea read from API data is its Id, or '-'. */
  lemma GetIdOfApiData(data: Object)
    ensures GetId(FromApiData(data)) == Get(data, "Id", Dash)
  {
  }
}

/** The tabular API's record endpoints and the file storage the handlers talk to,
    as state that the API's replies are computed from. Whether the service answers
    normally is an input to every call (`up`); when it does not, the reply is a
    non-200 status and nothing changes. */
module Upstream {
  import opened Values

  /** An HTTP reply as the handlers use it: the status and the decoded JSON object. */
  datatype Reply = Reply(status: int, body: Object)

  /** The status a call gets when the service does not answer normally. */
  const Unavailable := 503
  /** The status the API gives for a record it does not have. */
  const NotFound := 404

  /** `response.json().get("list", [])` iterated as `from_api_data(item) for item in
      data`: the rows of a list reply, or None where the iteration raises (an item
      that is not an object, or a "list" value that cannot be iterated into objects). */
  function ListItems(body: Object): (items: Option<seq<Object>>)
    ensures "list" !in body ==> items == Some([])
    ensures "list" in body && body["list"].List? && (forall i :: 0 <= i < |body["list"].items| ==> body["list"].items[i].Dict?)
            ==> items.Some? && |items.value| == |body["list"].items|
                && forall i :: 0 <= i < |items.value| ==> Dict(items.value[i]) == body["list"].items[i]
    ensures "list" in body && !body["list"].List? && Truthy(body["list"]) ==> items == None
  {
    if "list" !in body then Some([])
    else match body["list"]
    case List(xs) =>
      if forall i :: 0 <= i < |xs| ==> xs[i].Dict? then Some(seq(|xs|, i requires 0 <= i < |xs| => xs[i].entries)) else None
    case Dict(m) => if m == map[] then Some([]) else None
    case Str(s) => if s == "" then Some([]) else None
    case _ => None
  }

  /** One table. A row is stored without its Id column; the API adds it when it
      answers. New rows get increasing ids. */
  class Table {
    var rows: map<int, Object>
    var nextId: int

    predicate Valid()
      reads this
    {
      forall k :: k in rows ==> k < nextId && "Id" !in rows[k]
    }

    constructor (rows0: map<int, Object>, nextId0: int)
      requires forall k :: k in rows0 ==> k < nextId0 && "Id" !in rows0[k]
      ensures Valid() && rows == rows0 && nextId == nextId0
    {
      rows := rows0;
      nextId := nextId0;
    }

    /** GET `records/{id}`: the row with its Id, 404 for an unknown id. */
    function Fetch(id: int, up: bool): (r: Reply)
      reads this
      ensures r.status == 200 <==> up && id in rows
      ensures r.status == 200 ==> r.body == rows[id]["Id" := Int(id)]
      ensures r.status != 200 ==> r.body == map[]
    {
      if !up then Reply(Unavailable, map[])
      else if id !in rows then Reply(NotFound, map[])
      else Reply(200, rows[id]["Id" := Int(id)])
    }

    /** POST `records`: a new row holding the given columns (an Id in the body is
        ignored); the reply carries the new Id. */
    method Create(fields: Object, up: bool) returns (r: Reply)
      requires Valid()
      modifies this
      ensures Valid()
      ensures r.status == 200 <==> up
      ensures up ==> old(nextId) !in old(rows) && r.body == map["Id" := Int(old(nextId))]
                     && rows == old(rows)[old(nextId) := fields - {"Id"}] && nextId == old(nextId) + 1
      ensures !up ==> rows == old(rows) && nextId == old(nextId) && r.body == map[]
    {
      if !up {
        return Reply(Unavailable, map[]);
      }
      var id := nextId;
      rows := rows[id := fields - {"Id"}];
      nextId := nextId + 1;
      r := Reply(200, map["Id" := Int(id)]);
    }

    /** The row a PATCH body names: its "Id" is an integer the table has. */
    predicate PatchTarget(body: Object)
      reads this
    {
      "Id" in body && body["Id"].Int? && body["Id"].i in rows
    }

    /** PATCH `records` with the Id in the body: the named row's columns are
        overwritten by the body's other keys; the reply carries the Id. */
    method Patch(body: Object, up: bool) returns (r: Reply)
      requires Valid()
      modifies this
      ensures Valid() && nextId == old(nextId)
      ensures r.status == 200 <==> up && old(PatchTarget(body))
      ensures r.status == 200 ==> var k := body["Id"].i;
                rows == old(rows)[k := old(rows)[k] + (body - {"Id"})] && r.body == map["Id" := Int(k)]
      ensures r.status != 200 ==> rows == old(rows) && r.body == map[]
    {
      if !up {
        return Reply(Unavailable, map[]);
      }
      if !PatchTarget(body) {
        return Reply(NotFound, map[]);
      }
      var k := body["Id"].i;
      rows := rows[k := rows[k] + (body - {"Id"})];
      r := Reply(200, map["Id" := Int(k)]);
    }

    /** The ids a DELETE body names, when every element is `{"Id": k}` with a row k. */
    predicate DeleteTargets(body: seq<Object>)
      reads this
    {
      forall i :: 0 <= i < |body| ==> "Id" in body[i] && body[i]["Id"].Int? && body[i]["Id"].i in rows
    }

    /** DELETE `records` with a list of `{"Id": k}`: all named rows go, or none. */
    method Delete(body: seq<Object>, up: bool) returns (r: Reply)
      requires Valid()
      modifies this
      ensures Valid() && nextId == old(nextId)
      ensures r.status == 200 <==> up && old(DeleteTargets(body))
      ensures r.status == 200 ==> rows == map k | k in old(rows) && (forall i :: 0 <= i < |body| ==> body[i]["Id"] != Int(k)) :: old(rows)[k]
      ensures r.status != 200 ==> rows == old(rows)
    {
      if !up {
        return Reply(Unavailable, map[]);
      }
      if !DeleteTargets(body) {
        return Reply(NotFound, map[]);
      }
      rows := map k | k in rows && (forall i :: 0 <= i < |body| ==> body[i]["Id"] != Int(k)) :: rows[k];
      r := Reply(200, map[]);
    }
  }

  /** The web server's upload directory (`static/uploads`) and the API's file
      storage, each a map from path to file size. */
  class Storage {
    var disk: map<string, nat>
    var objects: map<string, nat>

    constructor (disk0: map<string, nat>, objects0: map<string, nat>)
      ensures disk == disk0 && objects == objects0
    {
      disk := disk0;
      objects := objects0;
    }

    /** `file.save(path)`: the upload lands on disk, replacing any file there. */
    method SaveLocal(path: string, size: nat)
      modifies this
      ensures disk == old(disk)[path := size] && objects == old(objects)
    {
      disk := disk[path := size];
    }

    /** POST `storage/upload?path=...`: the file is stored under the requested path
        and the reply is the storage's metadata for it (an input: what the service
        says about a file is not modelled). */
    method Store(path: string, size: nat, up: bool, metadata: Value) returns (r: Option<Value>)
      modifies this
      ensures disk == old(disk)
      ensures up ==> objects == old(objects)[path := size] && r == Some(metadata)
      ensures !up ==> objects == old(objects) && r == None
    {
      if up {
        objects := objects[path := size];
        r := Some(metadata);
      } else {
        r := None;
      }
    }
  }
}

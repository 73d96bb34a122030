/** Fixture content as JSON documents. Decoding and encoding belong to Go's
    `encoding/json`, which is not part of this model: a `Codec` stands for
    it, and only the shape logic of `splitJSONIntoJSONCollection` is modelled. */
module Json {
  import opened Types

  /** A decoded JSON value, as `encoding/json` produces it for `interface{}`. */
  datatype Value =
    | Null
    | Bool(b: bool)
    | Number(n: real)
    | Str(s: string)
    | Array(items: seq<Value>)
    | Object(members: map<string, Value>)

  /** A decoded JSON object, Go's `map[string]interface{}`. */
  type JsonObject = map<string, Value>

  /** The library calls the loader makes:
      `UnmarshalObjects`: `json.Unmarshal` into `[]map[string]interface{}`,
      `UnmarshalObject`: `json.Unmarshal` into `map[string]interface{}`
      (each `Err` with the decoding error's text when Unmarshal fails),
      `Marshal`: `json.Marshal` of one decoded object. */
  datatype Codec = Codec(
    UnmarshalObjects: bytes -> Result<seq<JsonObject>, string>,
    UnmarshalObject: bytes -> Result<JsonObject, string>,
    Marshal: JsonObject -> bytes)

  /** The documents of fixture content: every object of an array, each
      re-encoded, in order; else the one object, re-encoded; else an error
      wrapping the content and the second decoding error (the first one is
      overwritten, as `err` is in the source). */
  function Collection(json: Codec, content: bytes): Result<seq<bytes>, Error>
  {
    match json.UnmarshalObjects(content)
    case Ok(objects) =>
      Ok(seq(|objects|, i requires 0 <= i < |objects| => json.Marshal(objects[i])))
    case Err(_) =>
      match json.UnmarshalObject(content)
      case Ok(obj) => Ok([json.Marshal(obj)])
      case Err(cause) => Err(InvalidJson(content, cause))
  }

  /** splitJSONIntoJSONCollection: n encodings in order for an array of n
      objects, exactly one for a single object, an error otherwise. */
  method SplitJSONIntoJSONCollection(json: Codec, jc: bytes) returns (r: Result<seq<bytes>, Error>)
    ensures json.UnmarshalObjects(jc).Ok? ==>
      var objects := json.UnmarshalObjects(jc).value;
      r.Ok? && |r.value| == |objects| &&
      forall i :: 0 <= i < |objects| ==> r.value[i] == json.Marshal(objects[i])
    ensures json.UnmarshalObjects(jc).Err? && json.UnmarshalObject(jc).Ok? ==>
      r == Ok([json.Marshal(json.UnmarshalObject(jc).value)])
    ensures json.UnmarshalObjects(jc).Err? && json.UnmarshalObject(jc).Err? ==>
      r == Err(InvalidJson(jc, json.UnmarshalObject(jc).error))
    ensures r == Collection(json, jc)
  {
    var extractedCollection := json.UnmarshalObjects(jc);
    if extractedCollection.Err? {
      var extractedObject := json.UnmarshalObject(jc);
      if extractedObject.Err? {
        return Err(InvalidJson(jc, extractedObject.error));
      }
      var obj := json.Marshal(extractedObject.value);
      return Ok([obj]);
    }
    var objects := extractedCollection.value;
    var jsonCollection: seq<bytes> := [];
    for i := 0 to |objects|
      invariant |jsonCollection| == i
      invariant forall k :: 0 <= k < i ==> jsonCollection[k] == json.Marshal(objects[k])
    {
      var obj := json.Marshal(objects[i]);
      jsonCollection := jsonCollection + [obj];
    }
    assert jsonCollection == seq(|objects|, i requires 0 <= i < |objects| => json.Marshal(objects[i]));
    r := Ok(jsonCollection);
  }
}

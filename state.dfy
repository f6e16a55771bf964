/** The session state of the application: encoding its values for JSON, decoding stored
    feature dictionaries through the feature registry, and the operations that write
    the session map (put-if-absent, clear to None, reload from a saved file). */
module State {
  import opened Wrappers
  import opened Features

  /** The names `FEATURE_REGISTRY` maps to feature classes. */
  const FeatureRegistry: set<string> := {"Graph", "Clustering", "Modelling", "PredictingMSEMin", "OptimizingParameters"}

  /** A value that is neither an object with attributes nor a datetime: what the
      encoder hands back unchanged. */
  predicate Plain(v: Value) {
    !v.Object? && !v.DateTime?
  }

  /** `serialize_feature_obj(obj)`: an object becomes the dictionary of its recursively
      encoded attributes plus `"__class__"` naming its class (which replaces an
      attribute of that name); a datetime becomes its ISO text; anything else, lists
      and dictionaries included, is returned as it is. */
  function Serialize(v: Value): (r: Value)
    ensures Plain(r)
    ensures Plain(v) ==> r == v
    ensures v.DateTime? ==> r == Str(v.iso)
    ensures v.Object? ==>
      r.Dict? && r.entries.Keys == v.attrs.Keys + {"__class__"} && r.entries["__class__"] == Str(v.cls)
    decreases v
  {
    match v
    case Object(c, attrs) => Dict((map k | k in attrs :: Serialize(attrs[k]))["__class__" := Str(c)])
    case DateTime(iso) => Str(iso)
    case _ => v
  }

  /** Every attribute other than `__class__` of an encoded object holds the encoding of
      the attribute's value. */
  lemma SerializeAttribute(c: string, attrs: map<string, Value>, k: string)
    requires k in attrs && k != "__class__"
    ensures Serialize(Object(c, attrs)).entries[k] == Serialize(attrs[k])
  {
    var inner := map k | k in attrs :: Serialize(attrs[k]);
    assert Serialize(Object(c, attrs)) == Dict(inner["__class__" := Str(c)]);
  }

  /** Encoding an encoded value changes nothing. */
  lemma SerializeIdempotent(v: Value)
    ensures Serialize(Serialize(v)) == Serialize(v)
  {
    var r := Serialize(v);
    assert Plain(r);
  }

  /** A feature whose fields are plain values is encoded as its instance dictionary with
      the class name added. */
  lemma SerializeFeature(f: Feature)
    requires Plain(f.name) && Plain(f.kind) && Plain(f.description) && Plain(f.parameters) && Plain(f.activated)
    ensures Serialize(AsObject(f)) == Dict(Attributes(f)["__class__" := Str("Feature")])
  {
    var a := Attributes(f);
    var inner := map k | k in a :: Serialize(a[k]);
    forall k | k in a ensures inner[k] == a[k] {
      assert k in DictKeys || k == "created_at" || k == "activated";
    }
    assert inner == a;
  }

  /** The base `from_dict` rebuilds a feature from its encoded form: the extra keys
      (`created_at`, `activated`, `__class__`) are ignored, so activation and creation
      time are reset. */
  lemma SerializedFeatureRebuilds(f: Feature, now: string)
    requires Plain(f.name) && Plain(f.kind) && Plain(f.description) && Plain(f.parameters) && Plain(f.activated)
    ensures Serialize(AsObject(f)).Dict?
    ensures FromDict(Serialize(AsObject(f)).entries, now) == Ok(f.(createdAt := now, activated := Bool(false)))
  {
    SerializeFeature(f);
    var e := Attributes(f)["__class__" := Str("Feature")];
    assert e["name"] == f.name && e["type"] == f.kind;
    assert e["description"] == f.description && e["parameters"] == f.parameters;
  }

  /** `deserialize_feature_obj(d)`, the hook applied to every decoded JSON object: when
      `d['type']` names a registry class, that class's `from_dict` (`fromDict`) builds
      the result; a list or dictionary under 'type' cannot be looked up in the
      registry and raises TypeError; otherwise the dictionary is returned unchanged. */
  function Deserialize(d: map<string, Value>, fromDict: (string, map<string, Value>) -> Result<Value>)
    : (r: Result<Value>)
    ensures "type" in d && d["type"].Str? && d["type"].s in FeatureRegistry ==> r == fromDict(d["type"].s, d)
    ensures "type" in d && (d["type"].List? || d["type"].Dict?) ==> r == Err("TypeError")
    ensures ("type" !in d || (d["type"].Str? && d["type"].s !in FeatureRegistry) ||
             !(d["type"].Str? || d["type"].List? || d["type"].Dict?)) ==> r == Ok(Dict(d))
  {
    if "type" !in d then Ok(Dict(d))
    else
      match d["type"]
      case List(_) => Err("TypeError")
      case Dict(_) => Err("TypeError")
      case Str(s) => if s in FeatureRegistry then fromDict(s, d) else Ok(Dict(d))
      case _ => Ok(Dict(d))
  }

  /** Decoding an encoded feature goes through the registry exactly when the feature's
      type is a registry name; otherwise the encoded dictionary comes back as it is. */
  lemma DeserializeSerializedFeature(f: Feature, fromDict: (string, map<string, Value>) -> Result<Value>)
    requires Plain(f.name) && Plain(f.kind) && Plain(f.description) && Plain(f.parameters) && Plain(f.activated)
    ensures Serialize(AsObject(f)).Dict?
    ensures f.kind.Str? && f.kind.s in FeatureRegistry ==>
      Deserialize(Serialize(AsObject(f)).entries, fromDict) == fromDict(f.kind.s, Serialize(AsObject(f)).entries)
    ensures !(f.kind.Str? && f.kind.s in FeatureRegistry) && !f.kind.List? && !f.kind.Dict? ==>
      Deserialize(Serialize(AsObject(f)).entries, fromDict) == Ok(Serialize(AsObject(f)))
    ensures f.kind.List? || f.kind.Dict? ==>
      Deserialize(Serialize(AsObject(f)).entries, fromDict) == Err("TypeError")
  {
    SerializeFeature(f);
    var e := Attributes(f)["__class__" := Str("Feature")];
    assert "type" in e && e["type"] == f.kind;
  }

  /** `ensure_key_in_session_state` on a map: the default is stored under an absent key,
      a present key keeps its value, and no other key is touched. */
  function PutIfAbsent(m: map<string, Value>, key: string, default: Value): (r: map<string, Value>)
    ensures key in r && r[key] == (if key in m then m[key] else default)
    ensures r.Keys == m.Keys + {key}
    ensures forall k :: k in m && k != key ==> r[k] == m[k]
  {
    if key in m then m else m[key := default]
  }

  /** A second put-if-absent on the same key, with any default, changes nothing. */
  lemma PutIfAbsentIdempotent(m: map<string, Value>, key: string, d: Value, e: Value)
    ensures PutIfAbsent(PutIfAbsent(m, key, d), key, e) == PutIfAbsent(m, key, d)
  {
    assert key in PutIfAbsent(m, key, d);
  }

  /** Every key of the map, each holding None. */
  function Cleared(m: map<string, Value>): (r: map<string, Value>)
    ensures r.Keys == m.Keys
    ensures forall k :: k in r ==> r[k] == Null
  {
    map k | k in m :: Null
  }

  /** The session after the items of a state file are assigned in order, each only when
      its key is already in the session: later items win, other keys are dropped. */
  function Reloaded(m: map<string, Value>, items: seq<(string, Value)>): (r: map<string, Value>)
    ensures r.Keys == m.Keys
    decreases |items|
  {
    if |items| == 0 then m
    else
      var n := |items| - 1;
      var p := Reloaded(m, items[..n]);
      if items[n].0 in p then p[items[n].0 := items[n].1] else p
  }

  /** The last value a sequence of items gives a key, if any. */
  function LastFor(items: seq<(string, Value)>, key: string): (r: Option<Value>)
    ensures r.Some? ==> (key, r.value) in items
    ensures r.None? ==> forall i :: 0 <= i < |items| ==> items[i].0 != key
    decreases |items|
  {
    if |items| == 0 then None
    else
      var n := |items| - 1;
      if items[n].0 == key then Some(items[n].1) else LastFor(items[..n], key)
  }

  /** After a reload, a session key holds the last value the file gives it, or its
      earlier value when the file does not name it. */
  lemma {:induction false} ReloadedValue(m: map<string, Value>, items: seq<(string, Value)>, key: string)
    requires key in m
    ensures Reloaded(m, items)[key] == LastFor(items, key).GetOr(m[key])
    decreases |items|
  {
    if |items| > 0 {
      var n := |items| - 1;
      ReloadedValue(m, items[..n], key);
    }
  }

  /** The session state: a map from keys to values that the operations below write in
      place. */
  class SessionState {
    var values: map<string, Value>

    constructor(initial: map<string, Value>)
      ensures values == initial
    {
      values := initial;
    }

    /** `ensure_key_in_session_state(key, default_value)`: the value under the key,
        stored first when the key is absent. */
    method EnsureKey(key: string, default: Value) returns (v: Value)
      modifies this
      ensures values == PutIfAbsent(old(values), key, default)
      ensures v == values[key]
    {
      if key !in values {
        values := values[key := default];
        return default;
      }
      v := values[key];
    }

    /** `clear_session_state_values()`: the keys are listed, the state is emptied, and
        each listed key is set back to None. */
    method ClearValues()
      modifies this
      ensures values == Cleared(old(values))
    {
      var keys := values.Keys;
      values := map[];
      var rest := keys;
      while rest != {}
        invariant rest <= keys
        invariant values == map k | k in keys - rest :: Null
        decreases |rest|
      {
        var k :| k in rest;
        values := values[k := Null];
        rest := rest - {k};
      }
    }

    /** `load_state_file_from_json(state_file, state_folder)`. A missing file is
        reported and leaves the state as it was. Otherwise the state is cleared first;
        `parsed` is the file decoded with the feature hook, whose failure ends the load
        with the state cleared; the decoded items are then assigned in order, each only
        under a key the session already has. */
    method LoadState(stateFile: string, stateFolder: string, fileExists: bool,
                     parsed: Result<seq<(string, Value)>>) returns (error: Option<string>)
      modifies this
      ensures !fileExists ==>
        values == old(values) &&
        error == Some("State file " + stateFile + " does not exist in the directory " + stateFolder)
      ensures fileExists && parsed.Err? ==> values == Cleared(old(values)) && error == Some(parsed.error)
      ensures fileExists && parsed.Ok? ==> values == Reloaded(Cleared(old(values)), parsed.value) && error == None
    {
      if !fileExists {
        return Some("State file " + stateFile + " does not exist in the directory " + stateFolder);
      }
      ClearValues();
      if parsed.Err? {
        return Some(parsed.error);
      }
      var items := parsed.value;
      ghost var cleared := values;
      for i := 0 to |items|
        invariant values == Reloaded(cleared, items[..i])
      {
        assert items[..i + 1][..i] == items[..i];
        if items[i].0 in values {
          values := values[items[i].0 := items[i].1];
        }
      }
      assert items[..|items|] == items;
      error := None;
    }
  }
}

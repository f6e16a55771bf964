/** The feature record of the feature registry: its dictionary form, its rebuilding from
    a dictionary, and the list of features kept in the session state. */
module Features {
  import opened Wrappers

  /** A Python value as the session state and JSON hold it. `Object` is an instance of a
      user class with its attribute dictionary (`__dict__`); `DateTime` is a
      `datetime` given by its ISO text. */
  datatype Value =
    | Null
    | Bool(b: bool)
    | Int(i: int)
    | Float(x: real)
    | Str(s: string)
    | List(items: seq<Value>)
    | Dict(entries: map<string, Value>)
    | Object(cls: string, attrs: map<string, Value>)
    | DateTime(iso: string)

  /** A `Feature` instance. Python does not check the annotations of `__init__`, so the
      fields hold whatever values they were given; `created_at` is the clock's ISO text. */
  datatype Feature = Feature(
    name: Value,
    kind: Value,
    description: Value,
    parameters: Value,
    createdAt: string,
    activated: Value)

  /** `Feature(name, type, description, parameters, activated)`, with `now` the ISO
      text of `datetime.now()` at construction. */
  function NewFeature(name: Value, kind: Value, description: Value, parameters: Value,
                      activated: Value, now: string): (f: Feature)
    ensures f.name == name && f.kind == kind && f.description == description
    ensures f.parameters == parameters && f.activated == activated
    ensures f.createdAt == now
  {
    Feature(name, kind, description, parameters, now, activated)
  }

  /** The base class has no behaviour to execute: every call raises. */
  function Execute(f: Feature, args: seq<Value>): (r: Result<Value>)
    ensures r == Err("NotImplementedError")
  {
    Err("NotImplementedError")
  }

  /** The four keys of the dictionary form of a feature. */
  const DictKeys: set<string> := {"name", "type", "description", "parameters"}

  /** The keyword parameters `__init__` accepts, and the ones it requires. */
  const InitParameters: set<string> := {"name", "type", "description", "parameters", "activated"}

  /** `to_dict()`: the four descriptive fields; the creation time and the activation
      flag are not part of it. */
  function ToDict(f: Feature): (d: map<string, Value>)
    ensures d.Keys == DictKeys
    ensures d["name"] == f.name && d["type"] == f.kind
    ensures d["description"] == f.description && d["parameters"] == f.parameters
  {
    map["name" := f.name, "type" := f.kind, "description" := f.description, "parameters" := f.parameters]
  }

  /** `Feature.from_dict(data)`: the four fields are read by key (a missing one raises
      KeyError, other keys are ignored) and the feature is constructed anew, so it is not
      activated and is created now. */
  function FromDict(data: map<string, Value>, now: string): (r: Result<Feature>)
    ensures r.Ok? <==> DictKeys <= data.Keys
    ensures r.Ok? ==> r.value.activated == Bool(false) && r.value.createdAt == now
  {
    if "name" !in data || "type" !in data || "description" !in data || "parameters" !in data then
      Err("KeyError")
    else
      Ok(NewFeature(data["name"], data["type"], data["description"], data["parameters"], Bool(false), now))
  }

  /** Rebuilding a feature from its dictionary keeps its four descriptive fields, and
      resets the activation flag and the creation time. */
  lemma ToDictFromDict(f: Feature, now: string)
    ensures FromDict(ToDict(f), now) == Ok(f.(createdAt := now, activated := Bool(false)))
  {
    var d := ToDict(f);
    assert "name" in d && "type" in d && "description" in d && "parameters" in d;
  }

  /** A feature rebuilt from a dictionary gives back that dictionary's four entries. */
  lemma FromDictToDict(data: map<string, Value>, now: string)
    requires FromDict(data, now).Ok?
    ensures ToDict(FromDict(data, now).value) == map k | k in DictKeys :: data[k]
  {
    var d := ToDict(FromDict(data, now).value);
    var e := map k | k in DictKeys :: data[k];
    assert d.Keys == e.Keys;
    forall k | k in d.Keys ensures d[k] == e[k] {
      assert k == "name" || k == "type" || k == "description" || k == "parameters";
    }
  }

  /** The instance dictionary `feature.__dict__`. */
  function Attributes(f: Feature): (d: map<string, Value>)
    ensures d.Keys == DictKeys + {"created_at", "activated"}
    ensures d["created_at"] == Str(f.createdAt) && d["activated"] == f.activated
    ensures forall k :: k in DictKeys ==> d[k] == ToDict(f)[k]
  {
    ToDict(f)["created_at" := Str(f.createdAt)]["activated" := f.activated]
  }

  /** A feature as a Python object: its class name and its instance dictionary. */
  function AsObject(f: Feature): (v: Value)
    ensures v.Object? && v.cls == "Feature" && v.attrs == Attributes(f)
  {
    Object("Feature", Attributes(f))
  }

  /** `Feature(**kwargs)`: a keyword `__init__` does not name, or a missing required
      one, raises TypeError; `activated` defaults to False. */
  function FromKeywords(kwargs: map<string, Value>, now: string): (r: Result<Feature>)
    ensures r.Ok? <==> DictKeys <= kwargs.Keys <= InitParameters
    ensures r.Err? ==> r.error == "TypeError"
    ensures r.Ok? ==> r.value.createdAt == now
    ensures r.Ok? ==> ToDict(r.value) == map k | k in DictKeys :: kwargs[k]
    ensures r.Ok? ==> r.value.activated == if "activated" in kwargs then kwargs["activated"] else Bool(false)
  {
    if !(kwargs.Keys <= InitParameters) || !(DictKeys <= kwargs.Keys) then
      Err("TypeError")
    else
      var activated := if "activated" in kwargs then kwargs["activated"] else Bool(false);
      var f := NewFeature(kwargs["name"], kwargs["type"], kwargs["description"], kwargs["parameters"], activated, now);
      assert ToDict(f) == map k | k in DictKeys :: kwargs[k] by {
        forall k | k in DictKeys ensures ToDict(f)[k] == kwargs[k] {
          assert k == "name" || k == "type" || k == "description" || k == "parameters";
        }
      }
      Ok(f)
  }

  /** The dictionary form is accepted by the constructor and rebuilds the feature with
      a fresh creation time and activation off. */
  lemma ToDictKeywords(f: Feature, now: string)
    ensures FromKeywords(ToDict(f), now) == Ok(f.(createdAt := now, activated := Bool(false)))
  {
    var d := ToDict(f);
    assert "activated" !in d;
    assert d.Keys <= InitParameters;
    assert "name" in d && "type" in d && "description" in d && "parameters" in d;
  }

  /** The instance dictionary is not accepted by the constructor: `created_at` is not
      one of its parameters. */
  lemma AttributesRejected(f: Feature, now: string)
    ensures FromKeywords(Attributes(f), now) == Err("TypeError")
  {
    assert "created_at" in Attributes(f) && "created_at" !in InitParameters;
  }

  /** `Feature(**item)` for one stored item: only a dictionary can be unpacked. */
  function FeatureFromItem(item: Value, now: string): (r: Result<Feature>)
    ensures item.Dict? ==> r == FromKeywords(item.entries, now)
    ensures !item.Dict? ==> r == Err("TypeError")
  {
    match item
    case Dict(entries) => FromKeywords(entries, now)
    case _ => Err("TypeError")
  }

  /** `load_features_from_session_state()`: the value stored under 'features' (an empty
      list when there is none) is iterated and one feature is built per item, in order.
      Iterating a dictionary or a text yields keys or characters, which cannot be
      unpacked, so only an empty one gives no features; other values are not iterable. */
  function LoadFeaturesFromSessionState(session: map<string, Value>, now: string): (r: Result<seq<Feature>>)
    ensures "features" !in session ==> r == Ok([])
    ensures "features" in session && session["features"].List? ==>
      var items := session["features"].items;
      (r.Ok? <==> forall i :: 0 <= i < |items| ==> FeatureFromItem(items[i], now).Ok?) &&
      (r.Ok? ==> |r.value| == |items| &&
                 forall i :: 0 <= i < |items| ==> FeatureFromItem(items[i], now) == Ok(r.value[i]))
    ensures "features" in session && !session["features"].List? ==>
      (r.Ok? <==> session["features"] in {Dict(map[]), Str("")})
  {
    var stored := if "features" in session then session["features"] else List([]);
    match stored
    case List(items) =>
      var rs := seq(|items|, i requires 0 <= i < |items| => FeatureFromItem(items[i], now));
      assert forall i :: 0 <= i < |items| ==> rs[i] == FeatureFromItem(items[i], now);
      AllOk(rs)
    case Dict(entries) => if |entries| == 0 then Ok([]) else Err("TypeError")
    case Str(s) => if |s| == 0 then Ok([]) else Err("TypeError")
    case _ => Err("TypeError")
  }

  /** Features stored in their dictionary form load back in order, each with its four
      descriptive fields, activation off and a fresh creation time. */
  lemma LoadStoredDicts(fs: seq<Feature>, session: map<string, Value>, now: string)
    requires "features" in session
    requires session["features"] == List(seq(|fs|, i requires 0 <= i < |fs| => Dict(ToDict(fs[i]))))
    ensures LoadFeaturesFromSessionState(session, now) ==
      Ok(seq(|fs|, i requires 0 <= i < |fs| => fs[i].(createdAt := now, activated := Bool(false))))
  {
    var items := session["features"].items;
    var expected := seq(|fs|, i requires 0 <= i < |fs| => fs[i].(createdAt := now, activated := Bool(false)));
    forall i | 0 <= i < |items| ensures FeatureFromItem(items[i], now) == Ok(expected[i]) {
      ToDictKeywords(fs[i], now);
    }
    var r := LoadFeaturesFromSessionState(session, now);
    assert r.Ok?;
    assert r.value == expected by {
      forall i | 0 <= i < |items| ensures r.value[i] == expected[i] {
        assert FeatureFromItem(items[i], now) == Ok(r.value[i]);
      }
    }
  }

  /** Features stored as instance dictionaries, as `save_features_to_session_state`
      would store them, cannot be loaded: the first one raises TypeError. */
  lemma LoadStoredAttributes(fs: seq<Feature>, session: map<string, Value>, now: string)
    requires |fs| > 0 && "features" in session
    requires session["features"] == List(seq(|fs|, i requires 0 <= i < |fs| => Dict(Attributes(fs[i]))))
    ensures LoadFeaturesFromSessionState(session, now) == Err("TypeError")
  {
    var items := session["features"].items;
    AttributesRejected(fs[0], now);
    assert FeatureFromItem(items[0], now).Err?;
    var rs := seq(|items|, i requires 0 <= i < |items| => FeatureFromItem(items[i], now));
    forall i | 0 <= i < |items| ensures rs[i] == Err("TypeError") {
      AttributesRejected(fs[i], now);
    }
  }
}

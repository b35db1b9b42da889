/** The `Jsonable` serialisation layer: the `json` properties of `Jsonable`,
    `JsonList`, `JsonSet` and `JsonDict`, which turn an object graph into a
    tree of JSON primitives. Python finds an object's attributes through
    `__dict__`; here every value states its own attributes, elements or
    entries in `PyValue`. */
module JsonTypes {
  import opened Paths
  import opened Collections

  /** A Python value as the serialisation layer sees it. */
  datatype PyValue =
    | PyNone
    | PyStr(s: string)
    | PyPath(path: Path)
      /** any other value that is not `Jsonable`, known by what `str()` gives */
    | PyOther(text: string)
      /** an instance of a `Jsonable` subclass; `attrs` is its `__dict__` */
    | Instance(attrs: map<string, PyValue>)
    | JsonList(elements: seq<PyValue>)
      /** a `JsonSet`, its members in the set's iteration order */
    | JsonSet(elements: seq<PyValue>)
    | JsonDict(entries: map<string, PyValue>)

  /** A JSON-primitive tree: what every `json` property returns. */
  datatype Json = JString(s: string) | JArray(items: seq<Json>) | JObject(fields: map<string, Json>)

  /** `isinstance(value, Jsonable)`. */
  predicate IsJsonable(v: PyValue)
  {
    v.Instance? || v.JsonList? || v.JsonSet? || v.JsonDict?
  }

  /** `str(value)` for a value that is not `Jsonable`. */
  function Str(v: PyValue): string
    requires !IsJsonable(v)
  {
    match v
    case PyNone => "None"
    case PyStr(s) => s
    case PyPath(p) => PathStr(p)
    case PyOther(text) => text
  }

  /** The rule each `json` property applies to an attribute, element or
      value: a `Jsonable` is serialised through its own `json`, anything else
      becomes `str(value)`; only the latter yields a JSON string. */
  function Render(v: PyValue): (j: Json)
    ensures j.JString? <==> !IsJsonable(v)
    ensures v.JsonList? || v.JsonSet? ==> j.JArray? && |j.items| == |v.elements|
    ensures v.Instance? ==> j.JObject? && j.fields.Keys == v.attrs.Keys
    ensures v.JsonDict? ==> j.JObject? && j.fields.Keys == v.entries.Keys
  {
    match v
    case Instance(attrs) => JObject(map k | k in attrs :: Render(attrs[k]))
    case JsonList(elements) => JArray(seq(|elements|, i requires 0 <= i < |elements| => Render(elements[i])))
    case JsonSet(elements) => JArray(seq(|elements|, i requires 0 <= i < |elements| => Render(elements[i])))
    case JsonDict(entries) => JObject(map k | k in entries :: Render(entries[k]))
    case _ => JString(Str(v))
  }

  /** `isinstance(value, Jsonable) and value.json or str(value)`, the step
      inside each of the four loops below. */
  method RenderValue(v: PyValue) returns (j: Json)
    ensures j == Render(v)
    decreases v, 1
  {
    match v {
      case Instance(attrs) =>
        var fields := InstanceJson(attrs);
        j := JObject(fields);
      case JsonList(elements) =>
        var items := ListJson(elements);
        j := JArray(items);
      case JsonSet(elements) =>
        var items := SetJson(elements);
        j := JArray(items);
      case JsonDict(entries) =>
        var fields := DictJson(entries);
        j := JObject(fields);
      case _ =>
        j := JString(Str(v));
    }
  }

  /** `Jsonable.json`: a dict with exactly the attribute names as keys, each
      attribute serialised by the rule of `Render`. */
  method InstanceJson(attrs: map<string, PyValue>) returns (output: map<string, Json>)
    ensures output.Keys == attrs.Keys
    ensures forall key :: key in attrs ==> output[key] == Render(attrs[key])
    decreases Instance(attrs), 0
  {
    output := map[];
    var pending := attrs.Keys;
    while pending != {}
      invariant pending <= attrs.Keys
      invariant output.Keys == attrs.Keys - pending
      invariant forall key :: key in output ==> output[key] == Render(attrs[key])
      decreases pending
    {
      var key :| key in pending;
      var value := RenderValue(attrs[key]);
      output := output[key := value];
      pending := pending - {key};
    }
  }

  /** `JsonList.json`: a list of the same length and order, element `i`
      serialised from element `i`. */
  method ListJson(elements: seq<PyValue>) returns (output: seq<Json>)
    ensures |output| == |elements|
    ensures forall i :: 0 <= i < |elements| ==> output[i] == Render(elements[i])
    decreases JsonList(elements), 0
  {
    output := [];
    var n := 0;
    while n < |elements|
      invariant n <= |elements| && |output| == n
      invariant forall i :: 0 <= i < n ==> output[i] == Render(elements[i])
    {
      var element := RenderValue(elements[n]);
      output := output + [element];
      n := n + 1;
    }
  }

  /** `JsonSet.json`: a list with one entry per member, in the set's
      iteration order. */
  method SetJson(elements: seq<PyValue>) returns (output: seq<Json>)
    ensures |output| == |elements|
    ensures forall i :: 0 <= i < |elements| ==> output[i] == Render(elements[i])
    decreases JsonSet(elements), 0
  {
    output := [];
    var n := 0;
    while n < |elements|
      invariant n <= |elements| && |output| == n
      invariant forall i :: 0 <= i < n ==> output[i] == Render(elements[i])
    {
      var element := RenderValue(elements[n]);
      output := output + [element];
      n := n + 1;
    }
  }

  /** `JsonDict.json`: a dict with exactly the keys of the dict, each value
      serialised by the rule of `Render`. */
  method DictJson(entries: map<string, PyValue>) returns (output: map<string, Json>)
    ensures output.Keys == entries.Keys
    ensures forall key :: key in entries ==> output[key] == Render(entries[key])
    decreases JsonDict(entries), 0
  {
    output := map[];
    var pending := entries.Keys;
    while pending != {}
      invariant pending <= entries.Keys
      invariant output.Keys == entries.Keys - pending
      invariant forall key :: key in output ==> output[key] == Render(entries[key])
      decreases pending
    {
      var key :| key in pending;
      var value := RenderValue(entries[key]);
      output := output[key := value];
      pending := pending - {key};
    }
  }

  /** A set's serialisation has one entry per member: its length is the
      cardinality of the set. */
  lemma SetJsonCardinality(elements: seq<PyValue>)
    requires Distinct(elements)
    ensures |Render(JsonSet(elements)).items| == |set e | e in elements|
  {
    DistinctCardinality(elements);
  }

  /** Values that are not `Jsonable`, None included, serialise to their
      `str()`; None gives the string "None". */
  lemma NonJsonableIsStringified(v: PyValue)
    requires !IsJsonable(v)
    ensures Render(v) == JString(Str(v))
    ensures v.PyNone? ==> Render(v) == JString("None")
  {
  }
}

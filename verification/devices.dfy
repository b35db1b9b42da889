/** The device catalog: the device kinds, one device's description, and the
    lookups by kind and by name. The catalog itself is read from a JSON file
    that is not part of this model; it is passed in as the list of entries
    already converted by `FromDict`. */
module Devices {
  import opened Outcomes
  import opened Text
  import opened Collections

  /** `DeviceType`, an `IntEnum` numbered from 1 in this order. */
  datatype DeviceType = NANOS | NANOSP | NANOX | STAX | FLEX

  /** The enum member's `name`. */
  function TypeName(t: DeviceType): string
  {
    match t
    case NANOS => "NANOS"
    case NANOSP => "NANOSP"
    case NANOX => "NANOX"
    case STAX => "STAX"
    case FLEX => "FLEX"
  }

  /** `DeviceType[name]`: the member of that exact name, if any. */
  function TypeFromName(name: string): (t: Option<DeviceType>)
    ensures t.Some? ==> TypeName(t.value) == name
    ensures forall k: DeviceType :: TypeName(k) == name ==> t == Some(k)
  {
    if name == "NANOS" then Some(NANOS)
    else if name == "NANOSP" then Some(NANOSP)
    else if name == "NANOX" then Some(NANOX)
    else if name == "STAX" then Some(STAX)
    else if name == "FLEX" then Some(FLEX)
    else None
  }

  datatype Resolution = Resolution(x: int, y: int)

  /** A `Device` record. */
  datatype Device = Device(
    deviceType: DeviceType,
    resolution: Resolution,
    touchable: bool,
    deprecated: bool,
    names: seq<string>)

  /** `Device(type, resolution)`: the defaults are touchable, not deprecated
      and no alternative names. */
  function NewDevice(deviceType: DeviceType, resolution: Resolution): (d: Device)
    ensures d.deviceType == deviceType && d.resolution == resolution
    ensures d.touchable && !d.deprecated && d.names == []
  {
    Device(deviceType, resolution, true, false, [])
  }

  /** The `name` property: the kind's member name in lower case. */
  function Name(d: Device): string
  {
    Lower(TypeName(d.deviceType))
  }

  /** The `is_nano` property. */
  predicate IsNano(d: Device)
  {
    d.deviceType in {NANOS, NANOSP, NANOX}
  }

  /** The names of the five kinds. */
  lemma NameExamples(r: Resolution)
    ensures Name(NewDevice(NANOS, r)) == "nanos"
    ensures Name(NewDevice(NANOSP, r)) == "nanosp"
    ensures Name(NewDevice(NANOX, r)) == "nanox"
    ensures Name(NewDevice(STAX, r)) == "stax"
    ensures Name(NewDevice(FLEX, r)) == "flex"
  {
    assert Lower("NANOS") == "nanos";
    assert Lower("NANOSP") == "nanosp";
    assert Lower("NANOX") == "nanox";
    assert Lower("STAX") == "stax";
    assert Lower("FLEX") == "flex";
  }

  /** As its documentation says, `is_nano` holds exactly when the device's
      name starts with "nano": for NANOS, NANOSP and NANOX, not STAX or FLEX. */
  lemma IsNanoIffNamePrefix(d: Device)
    ensures IsNano(d) <==> |Name(d)| >= 4 && Name(d)[..4] == "nano"
    ensures IsNano(d) <==> d.deviceType != STAX && d.deviceType != FLEX
  {
    NameExamples(d.resolution);
    assert Name(d) == Name(NewDevice(d.deviceType, d.resolution));
    match d.deviceType
    case NANOS => assert Name(d)[..4] == "nanos"[..4] == "nano";
    case NANOSP => assert Name(d)[..4] == "nanosp"[..4] == "nano";
    case NANOX => assert Name(d)[..4] == "nanox"[..4] == "nano";
    case STAX => assert Name(d)[..4] == "stax" && "stax"[0] != "nano"[0];
    case FLEX => assert Name(d)[..4] == "flex" && "flex"[0] != "nano"[0];
  }

  /** Upper-casing a device's name gives back its kind's member name. */
  lemma {:induction false} NameRoundTrip(t: DeviceType)
    ensures TypeFromName(Upper(Lower(TypeName(t)))) == Some(t)
  {
    assert Upper("nanos") == "NANOS";
    assert Upper("nanosp") == "NANOSP";
    assert Upper("nanox") == "NANOX";
    assert Upper("stax") == "STAX";
    assert Upper("flex") == "FLEX";
    NameExamples(Resolution(0, 0));
    assert Lower(TypeName(t)) == Name(NewDevice(t, Resolution(0, 0)));
  }

  /** A value of a catalog entry's dict. */
  datatype Field =
    | FString(s: string)
    | FType(t: DeviceType)
    | FResolution(r: Resolution)
    | FBool(b: bool)
    | FNames(names: seq<string>)

  /** The exceptions of this module. */
  datatype DeviceError =
    | KeyError(key: string)          // a missing dict key or enum member name
    | AttributeError                 // `upper` called on a value that is not a string
    | ValidationError                // `Device(**dico)` rejects the fields
    | UnknownType(t: DeviceType)     // KeyError of `get_by_type`
    | UnknownName(name: string)      // KeyError of `get_by_name`

  /** The keyword arguments `Device` declares. */
  const DeviceFields: set<string> := {"type", "resolution", "touchable", "deprecated", "names"}

  /** `Device(**fields)`: "type" and "resolution" are required, the other
      declared fields take their defaults when absent, a declared field
      holding a value of the wrong kind is rejected, and any other key is
      ignored, as a pydantic dataclass does by default. */
  function DeviceOf(fields: map<string, Field>): (r: Result<Device, DeviceError>)
    ensures r.Success? <==> && "type" in fields && fields["type"].FType?
                            && "resolution" in fields && fields["resolution"].FResolution?
                            && ("touchable" in fields ==> fields["touchable"].FBool?)
                            && ("deprecated" in fields ==> fields["deprecated"].FBool?)
                            && ("names" in fields ==> fields["names"].FNames?)
    ensures r.Failure? ==> r.error == ValidationError
    ensures r.Success? ==> fields["type"] == FType(r.value.deviceType) && fields["resolution"] == FResolution(r.value.resolution)
    ensures r.Success? ==> if "touchable" in fields then fields["touchable"] == FBool(r.value.touchable) else r.value.touchable
    ensures r.Success? ==> if "deprecated" in fields then fields["deprecated"] == FBool(r.value.deprecated) else !r.value.deprecated
    ensures r.Success? ==> if "names" in fields then fields["names"] == FNames(r.value.names) else r.value.names == []
  {
    if "type" !in fields || !fields["type"].FType? then Failure(ValidationError)
    else if "resolution" !in fields || !fields["resolution"].FResolution? then Failure(ValidationError)
    else if "touchable" in fields && !fields["touchable"].FBool? then Failure(ValidationError)
    else if "deprecated" in fields && !fields["deprecated"].FBool? then Failure(ValidationError)
    else if "names" in fields && !fields["names"].FNames? then Failure(ValidationError)
    else
      var d := NewDevice(fields["type"].t, fields["resolution"].r);
      var d := if "touchable" in fields then d.(touchable := fields["touchable"].b) else d;
      var d := if "deprecated" in fields then d.(deprecated := fields["deprecated"].b) else d;
      var d := if "names" in fields then d.(names := fields["names"].names) else d;
      Success(d)
  }

  /** A key `Device` does not declare changes nothing: the device built, or
      the error raised, is the same with or without it. */
  lemma DeviceOfIgnoresUnknownKeys(fields: map<string, Field>, key: string, value: Field)
    requires key !in DeviceFields
    ensures DeviceOf(fields[key := value]) == DeviceOf(fields)
  {
    var extended := fields[key := value];
    assert forall k :: k in DeviceFields ==> (k in extended <==> k in fields);
    assert forall k :: k in DeviceFields && k in fields ==> extended[k] == fields[k];
  }

  /** The dict a catalog entry is decoded to; `FromDict` changes it. */
  class DeviceDict {
    var fields: map<string, Field>

    constructor (fields: map<string, Field>)
      ensures this.fields == fields
    {
      this.fields := fields;
    }
  }

  /** `Device.from_dict(dico)`: pops "type", looks its upper-cased text up
      among the kinds, stores the kind back under "type" and builds the
      device. The pop happens first, so a failed lookup leaves the dict
      without its "type". */
  method FromDict(dico: DeviceDict) returns (r: Result<Device, DeviceError>)
    modifies dico
    ensures "type" !in old(dico.fields) ==> r == Failure(KeyError("type")) && dico.fields == old(dico.fields)
    ensures "type" in old(dico.fields) && !old(dico.fields)["type"].FString? ==>
              r == Failure(AttributeError) && dico.fields == old(dico.fields) - {"type"}
    ensures "type" in old(dico.fields) && old(dico.fields)["type"].FString? ==>
              var name := Upper(old(dico.fields)["type"].s);
              match TypeFromName(name)
              case None => r == Failure(KeyError(name)) && dico.fields == old(dico.fields) - {"type"}
              case Some(t) => dico.fields == old(dico.fields)["type" := FType(t)] && r == DeviceOf(dico.fields)
  {
    if "type" !in dico.fields {
      return Failure(KeyError("type"));
    }
    var raw := dico.fields["type"];
    dico.fields := dico.fields - {"type"};
    if !raw.FString? {
      return Failure(AttributeError);
    }
    var name := Upper(raw.s);
    var kind := TypeFromName(name);
    if kind.None? {
      return Failure(KeyError(name));
    }
    dico.fields := dico.fields["type" := FType(kind.value)];
    r := DeviceOf(dico.fields);
  }

  /** The kind lookup of `from_dict` ignores case: any spelling of a kind's
      name selects it, e.g. "nanosp" and "NanoSP" both give NANOSP. */
  lemma FromDictKindIgnoresCase(a: string, b: string)
    requires Upper(a) == Upper(b)
    ensures TypeFromName(Upper(a)) == TypeFromName(Upper(b))
    ensures TypeFromName(Upper("nanosp")) == Some(NANOSP) && TypeFromName(Upper("NanoSP")) == Some(NANOSP)
  {
    assert Upper("nanosp") == "NANOSP";
    assert Upper("NanoSP") == "NANOSP";
  }

  /** A catalog entry with only a kind and a resolution gets the defaults. */
  lemma DeviceDefaults(t: DeviceType, res: Resolution)
    ensures DeviceOf(map["type" := FType(t), "resolution" := FResolution(res)]) == Success(NewDevice(t, res))
  {
  }

  /** `DEVICE_DATA`: the devices keyed by kind, in the dict's order. */
  datatype Catalog = Catalog(entries: seq<(DeviceType, Device)>)

  function Kinds(entries: seq<(DeviceType, Device)>): set<DeviceType>
  {
    set i | 0 <= i < |entries| :: entries[i].0
  }

  lemma KindsCons(x: (DeviceType, Device), rest: seq<(DeviceType, Device)>)
    ensures Kinds([x] + rest) == {x.0} + Kinds(rest)
  {
    var s := [x] + rest;
    forall k | k in Kinds(s) ensures k in {x.0} + Kinds(rest) {
      var i :| 0 <= i < |s| && s[i].0 == k;
      if i > 0 { assert rest[i - 1].0 == k; }
    }
    forall k | k in Kinds(rest) ensures k in Kinds(s) {
      var i :| 0 <= i < |rest| && rest[i].0 == k;
      assert s[i + 1].0 == k;
    }
    assert s[0].0 == x.0;
  }

  /** `data[t] = d` on a Python dict: a present key keeps its place and
      takes the new value, a new key is appended. */
  function Put(entries: seq<(DeviceType, Device)>, t: DeviceType, d: Device): (r: seq<(DeviceType, Device)>)
    requires DistinctKeys(entries)
    ensures DistinctKeys(r) && Kinds(r) == Kinds(entries) + {t}
  {
    if entries == [] then
      KindsCons((t, d), []);
      [(t, d)]
    else if entries[0].0 == t then
      KindsCons(entries[0], entries[1..]);
      KindsCons((t, d), entries[1..]);
      assert entries == [entries[0]] + entries[1..];
      [(t, d)] + entries[1..]
    else
      KindsCons(entries[0], entries[1..]);
      assert entries == [entries[0]] + entries[1..];
      var rest := Put(entries[1..], t, d);
      KindsCons(entries[0], rest);
      [entries[0]] + rest
  }

  /** A kind already stored keeps its place and takes the new device; a new
      kind is appended. */
  lemma {:induction false} PutKeepsPlace(entries: seq<(DeviceType, Device)>, t: DeviceType, d: Device)
    requires DistinctKeys(entries)
    ensures t !in Kinds(entries) ==> Put(entries, t, d) == entries + [(t, d)]
    ensures t in Kinds(entries) ==> |Put(entries, t, d)| == |entries|
    ensures forall i :: 0 <= i < |entries| ==>
              Put(entries, t, d)[i] == if entries[i].0 == t then (t, d) else entries[i]
  {
    PutShape(entries, t, d);
    forall i | 0 <= i < |entries|
      ensures Put(entries, t, d)[i] == if entries[i].0 == t then (t, d) else entries[i]
    {
      PutAt(entries, t, d, i);
    }
  }

  lemma {:induction false} PutShape(entries: seq<(DeviceType, Device)>, t: DeviceType, d: Device)
    requires DistinctKeys(entries)
    ensures t !in Kinds(entries) ==> Put(entries, t, d) == entries + [(t, d)]
    ensures t in Kinds(entries) ==> |Put(entries, t, d)| == |entries|
    ensures |Put(entries, t, d)| >= |entries|
  {
    if entries != [] {
      var rest := entries[1..];
      KindsCons(entries[0], rest);
      assert entries == [entries[0]] + rest;
      if entries[0].0 == t {
        assert Put(entries, t, d) == [(t, d)] + rest;
      } else {
        assert DistinctKeys(rest);
        PutShape(rest, t, d);
        var r := Put(rest, t, d);
        assert Put(entries, t, d) == [entries[0]] + r;
        assert t in Kinds(entries) <==> t in Kinds(rest);
        if t !in Kinds(rest) {
          calc {
            Put(entries, t, d);
            [entries[0]] + (rest + [(t, d)]);
            ([entries[0]] + rest) + [(t, d)];
          }
        }
      }
    }
  }

  lemma {:induction false} PutAt(entries: seq<(DeviceType, Device)>, t: DeviceType, d: Device, i: nat)
    requires DistinctKeys(entries) && i < |entries|
    ensures |Put(entries, t, d)| > i
    ensures Put(entries, t, d)[i] == if entries[i].0 == t then (t, d) else entries[i]
  {
    PutShape(entries, t, d);
    var rest := entries[1..];
    if i == 0 {
    } else if entries[0].0 == t {
      assert entries[i].0 != entries[0].0;
    } else {
      PutAt(rest, t, d, i - 1);
      assert rest[i - 1] == entries[i];
    }
  }

  /** `{item.type: item for item in devices}`. */
  function LoadCatalog(devices: seq<Device>): (c: Catalog)
    ensures DistinctKeys(c.entries)
  {
    if devices == [] then Catalog([])
    else
      var last := devices[|devices| - 1];
      Catalog(Put(LoadCatalog(devices[..|devices| - 1]).entries, last.deviceType, last))
  }

  /** The last device of the given kind in the list, if any. */
  function LastOfKind(devices: seq<Device>, t: DeviceType): Option<Device>
  {
    if devices == [] then None
    else if devices[|devices| - 1].deviceType == t then Some(devices[|devices| - 1])
    else LastOfKind(devices[..|devices| - 1], t)
  }

  /** The value stored under a kind. */
  function Lookup(entries: seq<(DeviceType, Device)>, t: DeviceType): Option<Device>
  {
    if entries == [] then None
    else if entries[0].0 == t then Some(entries[0].1)
    else Lookup(entries[1..], t)
  }

  /** `get_by_type(t)`: the device stored under `t`, or KeyError. */
  function GetByType(c: Catalog, t: DeviceType): Result<Device, DeviceError>
  {
    match Lookup(c.entries, t)
    case None => Failure(UnknownType(t))
    case Some(d) => Success(d)
  }

  /** Each kind is stored once and holds a device of that kind. */
  predicate WellKeyed(entries: seq<(DeviceType, Device)>)
  {
    && DistinctKeys(entries)
    && (forall i :: 0 <= i < |entries| ==> entries[i].1.deviceType == entries[i].0)
  }

  lemma {:induction false} LookupPut(entries: seq<(DeviceType, Device)>, t: DeviceType, d: Device, k: DeviceType)
    requires WellKeyed(entries) && d.deviceType == t
    ensures WellKeyed(Put(entries, t, d))
    ensures Lookup(Put(entries, t, d), k) == if k == t then Some(d) else Lookup(entries, k)
  {
    if entries != [] && entries[0].0 != t {
      assert WellKeyed(entries[1..]);
      LookupPut(entries[1..], t, d, k);
    }
  }

  /** The catalog holds one entry per kind, each holding a device of that
      kind; a later device of a kind replaces an earlier one, so
      `get_by_type(t)` gives the last device of kind `t` in the list, and
      raises KeyError when the list has none. */
  lemma {:induction false} GetByTypeGivesLastOfKind(devices: seq<Device>, t: DeviceType)
    ensures WellKeyed(LoadCatalog(devices).entries)
    ensures GetByType(LoadCatalog(devices), t)
         == match LastOfKind(devices, t) case None => Failure(UnknownType(t)) case Some(d) => Success(d)
  {
    if devices != [] {
      var earlier := devices[..|devices| - 1];
      var last := devices[|devices| - 1];
      GetByTypeGivesLastOfKind(earlier, t);
      LookupPut(LoadCatalog(earlier).entries, last.deviceType, last, t);
    }
  }

  /** A device answers to a name when the lowered name is its own name or
      one of its alternative names. */
  predicate Matches(d: Device, name: string)
  {
    Lower(name) == Name(d) || Lower(name) in d.names
  }

  /** `get_by_name(name)`: the first device of the catalog, in the dict's
      order, that answers to the name; KeyError when none does. */
  method GetByName(c: Catalog, name: string) returns (r: Result<Device, DeviceError>)
    ensures r.Failure? <==> forall i :: 0 <= i < |c.entries| ==> !Matches(c.entries[i].1, name)
    ensures r.Failure? ==> r.error == UnknownName(name)
    ensures r.Success? ==> exists i :: 0 <= i < |c.entries| && c.entries[i].1 == r.value
                                     && Matches(c.entries[i].1, name)
                                     && forall j :: 0 <= j < i ==> !Matches(c.entries[j].1, name)
  {
    var i := 0;
    while i < |c.entries|
      invariant i <= |c.entries|
      invariant forall j :: 0 <= j < i ==> !Matches(c.entries[j].1, name)
    {
      var device := c.entries[i].1;
      if Matches(device, name) {
        return Success(device);
      }
      i := i + 1;
    }
    return Failure(UnknownName(name));
  }

  /** Names that differ only in the case of their letters are answered by
      the same devices, so the search by name ignores case. */
  lemma MatchesIgnoresCase(d: Device, a: string, b: string)
    requires Lower(a) == Lower(b)
    ensures Matches(d, a) <==> Matches(d, b)
  {
  }
}

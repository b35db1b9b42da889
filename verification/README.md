# ledgered manifest entities in Dafny

This project models the manifest entity layer of `ledgered`, the Python
toolkit that reads the `ledger_app.toml` manifest of a Ledger device
application. That layer takes already-decoded key/value input and builds
validated objects from it:

- the `app` section (`AppConfig`): the SDK kind, the build directory and the
  target devices;
- the `use_cases` table (`UseCasesConfig`);
- the `tests` section (`TestsDependencyConfig`, `TestsDependenciesConfig`,
  `TestsConfig`);
- the older manifest module (`AppConfig`, `TestsConfig`, `RepoManifest`).

It also models two further pieces:

- the `Jsonable` family, which serialises these objects back into trees of
  JSON primitives;
- the device catalog: `DeviceType`, `Device`, `Device.from_dict`, and the
  lookups `get_by_type` and `get_by_name`.

The objects are immutable once built, so each entity is a `datatype`, and
each constructor that can raise returns a `Result`, whose `Failure` carries
the exception the constructor raises; a constructor that never raises returns
the plain value. Where the source builds something with a
loop, the model is a `method` with the same loop, proved against a
specification function:

- `TestsDependenciesConfig.__init__` becomes `TestsManifest.NewDependenciesConfig`;
- `TestsConfig.__init__` becomes `TestsManifest.NewTestsConfig`;
- the four `json` properties become `JsonTypes.InstanceJson`, `ListJson`,
  `SetJson` and `DictJson`;
- `get_by_name` becomes `Devices.GetByName`.

`Device.from_dict` pops from and stores into the dict it is given. It is
modelled on a `DeviceDict` object whose field the method updates.

Modules, one per source file, plus four small support modules:

| module | file | models |
|---|---|---|
| `App` | `app.dfy` | `src/ledgered/manifest/app.py` |
| `UseCases` | `use_cases.dfy` | `src/ledgered/manifest/use_cases.py` |
| `TestsManifest` | `tests_config.dfy` | `src/ledgered/manifest/tests.py` |
| `JsonTypes` | `json_types.dfy` | `src/ledgered/manifest/types.py` |
| `Devices` | `devices.dfy` | `src/ledgered/devices/__init__.py` |
| `LegacyManifest` | `legacy_manifest.dfy` | `src/ledgered/utils/manifest.py` |
| `Outcomes` | `outcomes.dfy` | `Option` and `Result` |
| `Text` | `text.dfy` | `str.lower`, `str.upper`, `str.join`, substring `in` |
| `Paths` | `paths.dfy` | `pathlib.Path` as far as this layer observes it |
| `Collections` | `collections.dfy` | distinct elements, distinct dict keys, and the first repeated element |

Two constants come from a `constants` module that is not part of this model,
and are parameters:

- `EXISTING_DEVICES` is the parameter `existing` of `App.NewAppConfig`;
- `DEFAULT_USE_CASE` is the parameter `defaultUseCase` of the `TestsManifest`
  constructors.

The device catalog that `src/ledgered/devices/__init__.py:52-54` reads from
`devices.json` is the argument of `Devices.LoadCatalog`.

A Python `set` or `dict` whose iteration order the source exposes is
modelled as a sequence in a fixed order:

- the `JsonSet` of dependencies, in insertion order;
- the `DEVICE_DATA` dict, in the order its keys were first stored;
- the unknown devices listed in an error message, in first-occurrence order.

## Model

| member | source | states |
|---|---|---|
| Paths.ToPath | src/ledgered/manifest/app.py:19 | `Path(s)` of a non-empty text keeps that text; the empty text names the current directory, so the result is never empty |
| App.UnknownDevicesOf | src/ledgered/manifest/app.py:20-23 | the reported devices are exactly the lowered inputs outside the catalog, each listed once |
| App.NewAppConfigAccepts | src/ledgered/manifest/app.py:15-25 | construction succeeds iff the lowered SDK is "rust" or "c" and every lowered device is in the catalog; an unknown SDK fails with that lowered SDK whatever the devices are |
| App.NewAppConfigFields | src/ledgered/manifest/app.py:15-25 | on success: `sdk` is the lowered input; `build_directory` is `Path(build_directory)`; `devices` is exactly the set of lowered inputs, all in the catalog, all in lower case, with at most as many members as inputs |
| App.LoweredDevicesSize | src/ledgered/manifest/app.py:20 | the lowered device set never has more members than the input list has elements |
| App.UnknownDevicesAllReported | src/ledgered/manifest/app.py:21-24 | with a valid SDK, one lowered device outside the catalog makes construction fail; the error lists exactly the unknown lowered devices, and its message contains the offending one |
| App.MessageNamesEachDevice | src/ledgered/manifest/app.py:23-24 | the unknown-devices message contains every device it lists |
| App.CaseVariantCollapses | src/ledgered/manifest/app.py:20-25 | adding a case variant of a listed device changes neither the config built nor the error raised |
| App.SdkPredicatesComplement | src/ledgered/manifest/app.py:27-33 | `is_rust` holds iff the lowered SDK is "rust", `is_c` iff it is "c", and exactly one of the two holds |
| App.CompleteExample | src/ledgered/manifest/app.py:14-33 | "Rust" with the devices "nanos" and "NanoS+" over the catalog {nanos, nanos+} gives sdk "rust" and devices {nanos, nanos+}, and the config is a Rust one, not a C one |
| App.SdkCaseExamples | src/ledgered/manifest/app.py:15-19 | "Rust", "RUST" and "rust" all store the SDK "rust", and an empty build directory becomes "." |
| UseCases.FirstOffence | src/ledgered/manifest/use_cases.py:15-20 | the constructor's loop raises nothing iff every pair has a string value and a name other than "default" |
| UseCases.NewUseCasesConfig | src/ledgered/manifest/use_cases.py:11-21 | construction succeeds iff every value is a string and no name is "default"; it then stores exactly the given names, each with its given description, and never the reserved name |
| UseCases.FirstOffendingPairDecides | src/ledgered/manifest/use_cases.py:15-20 | the first offending pair decides the error; for that pair a non-string value is reported before a reserved name |
| UseCases.GetOutcomes | src/ledgered/manifest/use_cases.py:23-26 | on a constructed config: `get("default")` gives ""; any other unknown name raises KeyError; a known name gives nothing, where the intended lookup gives its description |
| UseCases.GetReturnsNothingForPresentName | src/ledgered/manifest/use_cases.py:26 | with the use case "x" described as "y", `get("x")` gives None instead of "y" |
| TestsManifest.NewDependency | src/ledgered/manifest/tests.py:22-25 | url and ref are kept; a non-empty use case is kept; a missing or empty one becomes the default use case |
| TestsManifest.DirExample | src/ledgered/manifest/tests.py:27-29 | `dir` of ("url", "ref", "use_case") is "url-ref-use_case" |
| TestsManifest.SameFieldsEqualSameHash | src/ledgered/manifest/tests.py:31-39 | equal field triples compare equal and hash the same triple; nothing is equal to an object of another class |
| TestsManifest.ChangingOneFieldBreaksEquality | src/ledgered/manifest/tests.py:27-36 | two dependencies that differ in exactly one field are not equal |
| TestsManifest.EqualButDifferentHashKey | src/ledgered/manifest/tests.py:31-39 | ("a-b","c","d") and ("a","b-c","d") compare equal under `__eq__` yet hash different triples |
| TestsManifest.CorrectedEqualsAgreesWithHash | src/ledgered/manifest/tests.py:31-39 | field-wise equality implies equal hashes and the written `__eq__`; it is exactly "same hash and `__eq__`", the test a set lookup performs |
| TestsManifest.SetMembershipIsFieldEquality | src/ledgered/manifest/tests.py:53 | a set lookup (same hash, then `__eq__`) finds a dependency iff an identical one is already a member |
| TestsManifest.NewDependencies | src/ledgered/manifest/tests.py:51-52 | one dependency per raw entry |
| TestsManifest.NewDependenciesConfig | src/ledgered/manifest/tests.py:48-56 | the insertion loop yields exactly what `BuildDependencies` specifies: either the full set or the error at the first repeat |
| TestsManifest.BuildDependenciesSpec | src/ledgered/manifest/tests.py:48-56 | construction succeeds iff no two entries give the same dependency; the set then holds the entries in order, and its cardinality is the number of entries; otherwise the error names the first entry that repeats an earlier one |
| TestsManifest.RepeatedEntryRaises | src/ledgered/manifest/tests.py:51-55 | an entry given twice raises DuplicateDependencyError naming it |
| TestsManifest.DependenciesJsonMatchesInput | src/ledgered/manifest/tests.py:59-61 | `json` of a constructed collection is a list that holds, as a multiset, one `{url, ref, use_case}` object per input entry, with the use case defaulted |
| TestsManifest.OptionalPath | src/ledgered/manifest/tests.py:78-79 | a directory is None iff its argument is None, and otherwise `Path(arg)` |
| TestsManifest.NewTestsConfig | src/ledgered/manifest/tests.py:72-86 | the dict-filling loop: no dependencies argument gives None; otherwise the first failing list's error propagates, or the map `BuildDependencyMap` specifies; both directories come from `OptionalPath` |
| TestsManifest.BuildDependencyMapFails | src/ledgered/manifest/tests.py:83-86 | filling the dependency map succeeds iff every test kind's list builds |
| TestsManifest.BuildDependencyMapContents | src/ledgered/manifest/tests.py:83-86 | on success the map has exactly the input's test kinds, each mapped to the collection built from its own list |
| TestsManifest.TestsConfigJson | src/ledgered/manifest/tests.py:64-86 | `json` of a `TestsConfig` has exactly its three attribute names as keys; a directory gives its path text or "None"; the dependencies give "None" or an object with the same test kinds, each the list of its collection |
| JsonTypes.Render | src/ledgered/manifest/types.py:7-53 | a JSON string results iff the value is not Jsonable; lists and sets give arrays of the same length; objects and dicts give objects with the same keys |
| JsonTypes.RenderValue | src/ledgered/manifest/types.py:10-13 | the per-value step computes `Render` |
| JsonTypes.InstanceJson | src/ledgered/manifest/types.py:7-14 | `Jsonable.json` has exactly the attribute names as keys, each attribute serialised by the `Render` rule |
| JsonTypes.ListJson | src/ledgered/manifest/types.py:19-27 | `JsonList.json` keeps length and order, element i serialised from element i |
| JsonTypes.SetJson | src/ledgered/manifest/types.py:32-40 | `JsonSet.json` has one entry per member, in the set's iteration order |
| JsonTypes.DictJson | src/ledgered/manifest/types.py:45-53 | `JsonDict.json` has exactly the dict's keys, each value serialised by the `Render` rule |
| JsonTypes.SetJsonCardinality | src/ledgered/manifest/types.py:32-40 | the length of a set's serialisation is the set's cardinality |
| JsonTypes.NonJsonableIsStringified | src/ledgered/manifest/types.py:10-13 | a value that is not Jsonable becomes its `str()`; None becomes "None" |
| Devices.TypeFromName | src/ledgered/devices/__init__.py:8-13 | `DeviceType[name]` finds the member of exactly that name, and any member of that name is found |
| Devices.NewDevice | src/ledgered/devices/__init__.py:22-28 | a device built from a kind and a resolution is touchable, not deprecated, and has no alternative names |
| Devices.NameExamples | src/ledgered/devices/__init__.py:30-35 | `name` is the lowered member name: nanos, nanosp, nanox, stax, flex |
| Devices.IsNanoIffNamePrefix | src/ledgered/devices/__init__.py:37-42 | `is_nano` holds iff the name starts with "nano", that is for every kind but STAX and FLEX |
| Devices.NameRoundTrip | src/ledgered/devices/__init__.py:30-47 | upper-casing a device's `name` and looking it up among the kinds gives back the device's kind |
| Devices.DeviceOf | src/ledgered/devices/__init__.py:22-28 | `Device(**fields)` succeeds iff "type" and "resolution" are present and every declared field present holds a value of its kind, and otherwise fails validation; each given declared field is stored, and each absent one takes its default |
| Devices.DeviceOfIgnoresUnknownKeys | src/ledgered/devices/__init__.py:22-28 | a key that `Device` does not declare is ignored: adding it changes neither the device built nor the error |
| Devices.FromDict | src/ledgered/devices/__init__.py:44-48 | a missing "type" raises KeyError; a non-string "type" is popped and raises AttributeError; an unknown upper-cased name is popped and raises KeyError; otherwise the kind is stored back under "type" and the device is built from the updated dict |
| Devices.FromDictKindIgnoresCase | src/ledgered/devices/__init__.py:47 | the kind lookup ignores case: "nanosp" and "NanoSP" both give NANOSP |
| Devices.DeviceDefaults | src/ledgered/devices/__init__.py:25-28 | an entry with only a kind and a resolution gets the defaults |
| Devices.Put | src/ledgered/devices/__init__.py:56 | storing into the catalog keeps every kind unique and adds the stored kind to the keys |
| Devices.PutKeepsPlace | src/ledgered/devices/__init__.py:56 | a kind already stored keeps its place and takes the new device; a new kind is appended; every other entry is unchanged |
| Devices.LoadCatalog | src/ledgered/devices/__init__.py:56 | `DEVICE_DATA` has each kind once |
| Devices.LookupPut | src/ledgered/devices/__init__.py:56 | after a store, looking up the stored kind gives the new device, any other kind gives what it gave before, and every entry still holds a device of its own kind |
| Devices.GetByTypeGivesLastOfKind | src/ledgered/devices/__init__.py:56-64 | `get_by_type(t)` gives the last device of kind t in the catalog list, and raises KeyError when there is none |
| Devices.GetByName | src/ledgered/devices/__init__.py:66-71 | the search returns the first device, in the dict's order, whose name equals the lowered name or whose alternative names include it; it raises KeyError iff no device matches |
| Devices.MatchesIgnoresCase | src/ledgered/devices/__init__.py:69 | names that lower to the same text match the same devices |
| LegacyManifest.NewTestsConfig | src/ledgered/utils/manifest.py:18-22 | each directory is None iff its argument is None, and otherwise `Path(arg)` |
| LegacyManifest.NewAppConfigSpec | src/ledgered/utils/manifest.py:31-40 | construction succeeds iff the lowered SDK is "rust" or "c", and the error names the SDK as given; on success it stores the lowered SDK, `Path(build_directory)` and the devices exactly as given; `is_rust` holds iff the SDK is "rust" |
| LegacyManifest.MessageNamesSdkAsGiven | src/ledgered/utils/manifest.py:32-33 | the message of a rejected SDK contains the SDK as given, not lowered |
| LegacyManifest.LegacyIsCHoldsForRust | src/ledgered/utils/manifest.py:38-44 | the config for "Rust" satisfies both `is_rust` and `is_c`, where the current `AppConfig` satisfies only `is_rust` |
| LegacyManifest.LegacyDevicesKeptAsGiven | src/ledgered/utils/manifest.py:36 | "NanoS+" is stored unlowered, in a list, where the current `AppConfig` stores the lowered set |
| LegacyManifest.NewRepoManifest | src/ledgered/utils/manifest.py:52-54 | the manifest fails exactly when `AppConfig` fails, with its error; its app is that config; it has tests iff a `tests` table is given, built by `TestsConfig` |
| LegacyManifest.RepoManifestExample | src/ledgered/utils/manifest.py:47-54 | a manifest with SDK "rust", an empty build directory, the devices "NANOS" and "stAX", and both test directories builds with "." as the build directory and the devices unchanged |

## Left out

- TOML decoding (`parse_manifest`, `toml.loads`) and the command-line front ends: `parse_args` and `main` in `src/ledgered/utils/manifest.py`, and `src/ledgered/manifest/cli.py`. The model starts from already-decoded input. The `main` of `src/ledgered/utils/manifest.py` reads `repo_manifest.test`, an attribute that does not exist; that code is outside the model.
- The `Manifest` aggregate and its legacy mode live in a module that is not part of this model.
- `src/ledgered/github.py` (network access) and `src/ledgered/utils/bip/bip39.py` (random word choice and word-list files) are not part of this model.
- Reading `devices.json` at import time is file I/O. `Devices.LoadCatalog` takes the list of devices already converted by `from_dict`.
- The `constants` module is not part of this model. `EXISTING_DEVICES` and `DEFAULT_USE_CASE` are parameters.
- `Devices.__iter__` is not modelled. It yields the values of `DEVICE_DATA` in order, which is the order `Devices.GetByName` walks.
- `pathlib` normalisation: a path is kept as its text. Only `Path("")` naming "." is modelled.
- `str.lower` and `str.upper` are modelled for ASCII letters only. Python also maps other Unicode letters.
- Set and dict iteration order is fixed as a sequence:
  - the dependency `JsonSet` in insertion order, where CPython orders a set by hash;
  - the unknown devices of `App` in first-occurrence order.
  Properties that depend on that order hold for the modelled order only.
- Python hash values are not computed. `TestsManifest.HashKey` is the triple that `__hash__` hashes, so equal keys give equal hashes.
- The `print` calls in `__eq__` and every logger call are output only and are left out.
- Keyword-argument binding errors are left out. `TestsDependencyConfig(**dep)`, `AppConfig(**app)` and `TestsConfig(**tests)` raise TypeError on a missing required key or an unexpected key, and `UseCasesConfig(**cases)` raises it on a use case named `self`. The raw datatypes have exactly the accepted fields, and `UseCases.NewUseCasesConfig` accepts the name `self`.
- pydantic's coercion of field values is left out. `Devices.DeviceOf` rejects a value of the wrong kind where pydantic might coerce it.
- The `cases is None` branch of `UseCasesConfig.__init__` is left out. `**cases` is always a dict, so the branch cannot be taken.
- The `json` properties only read the object they serialise. The modelled values are immutable, so the model does not state separately that the object is left unchanged.
- UseCases.NewUseCasesConfig: the description of a non-string value is carried as two texts, its `str()` and the `str()` of its type. The exact error message text is not modelled.

## Findings

| source | as written | input that shows it | evidently intended | confidence | as-written member | corrected member |
|---|---|---|---|---|---|---|
| src/ledgered/utils/manifest.py:42-44 | `is_c` returns True for every config | SDK "Rust": `is_rust` and `is_c` both hold | `is_c` is the negation of `is_rust`, as in `src/ledgered/manifest/app.py:31-33` | high, not executed | LegacyManifest.LegacyIsCHoldsForRust | App.SdkPredicatesComplement |
| src/ledgered/utils/manifest.py:36 | devices stored as given, neither lowered nor checked against the catalog | devices ["nanos", "NanoS+"] keep "NanoS+" | lowered device set, checked against the catalog, as in `src/ledgered/manifest/app.py:20-25` | medium, not executed | LegacyManifest.LegacyDevicesKeptAsGiven | App.NewAppConfigFields |
| src/ledgered/manifest/tests.py:31-39 | `__eq__` compares the joined `dir` string, while `__hash__` hashes the field triple | ("a-b","c","d") and ("a","b-c","d") compare equal but hash different triples | objects that compare equal hash equal: field-wise equality | high, not executed | TestsManifest.EqualButDifferentHashKey | TestsManifest.CorrectedEqualsAgreesWithHash |
| src/ledgered/manifest/use_cases.py:26 | `self.cases[name]` without `return` | use case "x" described as "y": `get("x")` gives None | return the description | high, not executed | UseCases.GetReturnsNothingForPresentName | UseCases.GetOutcomes |

/** The older manifest model: `TestsConfig`, `AppConfig` and `RepoManifest`.
    It checks the SDK but neither normalises nor checks the devices, and its
    `is_c` holds for every config. */
module LegacyManifest {
  import opened Outcomes
  import opened Text
  import opened Paths
  import App

  /** A constructed `TestsConfig`. */
  datatype TestsConfig = TestsConfig(unitDirectory: Option<Path>, pytestDirectory: Option<Path>)

  /** `TestsConfig(unit_directory, pytest_directory)`: each directory is None
      exactly when its argument is, and `Path(arg)` otherwise. */
  function NewTestsConfig(unitDirectory: Option<string>, pytestDirectory: Option<string>): (t: TestsConfig)
    ensures t.unitDirectory.None? <==> unitDirectory.None?
    ensures t.pytestDirectory.None? <==> pytestDirectory.None?
    ensures unitDirectory.Some? ==> t.unitDirectory.value == ToPath(unitDirectory.value)
    ensures pytestDirectory.Some? ==> t.pytestDirectory.value == ToPath(pytestDirectory.value)
  {
    TestsConfig(
      if unitDirectory.None? then None else Some(ToPath(unitDirectory.value)),
      if pytestDirectory.None? then None else Some(ToPath(pytestDirectory.value)))
  }

  /** A constructed `AppConfig`: the devices are kept as a list. */
  datatype AppConfig = AppConfig(sdk: string, buildDirectory: Path, devices: seq<string>)
  {
    /** `is_rust`. */
    predicate IsRust()
    {
      sdk == "rust"
    }

    /** `is_c` as written: true whatever the SDK. */
    predicate IsC()
    {
      true
    }
  }

  /** The `ValueError` of the constructor, naming the SDK as given. */
  datatype LegacyError = UnknownSdk(sdk: string)

  /** `str(error)`. */
  function Message(e: LegacyError): string
  {
    "'" + e.sdk + "' unknown. Must be either 'C' or 'Rust'"
  }

  /** `AppConfig(sdk, build_directory, devices)`. */
  function NewAppConfig(sdk: string, buildDirectory: string, devices: seq<string>): Result<AppConfig, LegacyError>
  {
    if Lower(sdk) != "rust" && Lower(sdk) != "c" then Failure(UnknownSdk(sdk))
    else Success(AppConfig(Lower(sdk), ToPath(buildDirectory), devices))
  }

  /** A rejected SDK is named in the message as it was given, before any
      lowering: "Java" is reported as 'Java'. */
  lemma MessageNamesSdkAsGiven(sdk: string, buildDirectory: string, devices: seq<string>)
    requires NewAppConfig(sdk, buildDirectory, devices).Failure?
    ensures Contains(Message(NewAppConfig(sdk, buildDirectory, devices).error), sdk)
  {
    var tail := "' unknown. Must be either 'C' or 'Rust'";
    assert Message(UnknownSdk(sdk)) == "'" + sdk + tail;
  }

  /** Construction succeeds exactly when the lowered SDK is "rust" or "c";
      it then stores the lowered SDK and the devices exactly as given, with
      no lowering and no catalog check. */
  lemma NewAppConfigSpec(sdk: string, buildDirectory: string, devices: seq<string>)
    ensures var r := NewAppConfig(sdk, buildDirectory, devices);
      && (r.Success? <==> Lower(sdk) == "rust" || Lower(sdk) == "c")
      && (r.Failure? ==> r.error == UnknownSdk(sdk))
      && (r.Success? ==> r.value.sdk == Lower(sdk) && r.value.buildDirectory == ToPath(buildDirectory)
                         && r.value.devices == devices)
      && (r.Success? ==> (r.value.IsRust() <==> Lower(sdk) == "rust"))
  {
  }

  /** `is_c` holds for a Rust config too, so `is_rust` and `is_c` hold
      together, where the current model keeps them apart. */
  lemma LegacyIsCHoldsForRust()
    ensures var r := NewAppConfig("Rust", "", []);
      && r.Success? && r.value.IsRust() && r.value.IsC()
    ensures var r := App.NewAppConfig("Rust", "", [], {});
      && r.Success? && r.value.IsRust() && !r.value.IsC()
  {
    assert Lower("Rust") == "rust";
    assert App.LoweredDevices([]) == {};
  }

  /** Devices are kept as given: "NanoS+" stays in upper case and the
      result is a list, where the current model stores the lowered set. */
  lemma LegacyDevicesKeptAsGiven()
    ensures var r := NewAppConfig("Rust", "some path", ["nanos", "NanoS+"]);
      r.Success? && r.value.devices == ["nanos", "NanoS+"]
    ensures App.NewAppConfig("Rust", "some path", ["nanos", "NanoS+"], {"nanos", "nanos+"})
         == Success(App.AppConfig("rust", Path("some path"), {"nanos", "nanos+"}))
  {
    assert Lower("Rust") == "rust";
    App.CompleteExample();
  }

  /** The decoded `app` table, as `AppConfig(**app)` binds it. */
  datatype RawApp = RawApp(sdk: string, buildDirectory: string, devices: seq<string>)

  /** The decoded `tests` table, as `TestsConfig(**tests)` binds it. */
  datatype RawTests = RawTests(unitDirectory: Option<string>, pytestDirectory: Option<string>)

  /** A constructed `RepoManifest`. */
  datatype RepoManifest = RepoManifest(app: AppConfig, tests: Option<TestsConfig>)

  /** `RepoManifest(app, tests)`: fails exactly when `AppConfig` fails, and
      has tests exactly when the `tests` table is given. */
  function NewRepoManifest(app: RawApp, tests: Option<RawTests>): (r: Result<RepoManifest, LegacyError>)
    ensures r.Success? <==> NewAppConfig(app.sdk, app.buildDirectory, app.devices).Success?
    ensures r.Failure? ==> r.error == UnknownSdk(app.sdk)
    ensures r.Success? ==> r.value.app == NewAppConfig(app.sdk, app.buildDirectory, app.devices).value
    ensures r.Success? ==> (r.value.tests.None? <==> tests.None?)
    ensures r.Success? && tests.Some? ==>
              r.value.tests == Some(NewTestsConfig(tests.value.unitDirectory, tests.value.pytestDirectory))
  {
    match NewAppConfig(app.sdk, app.buildDirectory, app.devices)
    case Failure(e) => Failure(e)
    case Success(config) =>
      var testsConfig := if tests.None? then None
                         else Some(NewTestsConfig(tests.value.unitDirectory, tests.value.pytestDirectory));
      Success(RepoManifest(config, testsConfig))
  }

  /** The manifest of the test data: SDK "rust", build directory "." and the
      test directories "unit" and "pytest"; the devices stay as written. */
  lemma RepoManifestExample()
    ensures var r := NewRepoManifest(RawApp("rust", "", ["NANOS", "stAX"]), Some(RawTests(Some("unit"), Some("pytest"))));
      && r.Success?
      && r.value.app.sdk == "rust" && r.value.app.buildDirectory == ToPath(".")
      && r.value.app.devices == ["NANOS", "stAX"]
      && r.value.tests == Some(TestsConfig(Some(Path("unit")), Some(Path("pytest"))))
  {
    assert Lower("rust") == "rust";
  }
}

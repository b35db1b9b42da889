/** `AppConfig` of the current manifest layer: the SDK kind, the build
    directory and the validated set of target devices. The catalog of known
    devices (`EXISTING_DEVICES`) lives in a constants module that is not part
    of this model and is passed in as `existing`. */
module App {
  import opened Outcomes
  import opened Text
  import opened Paths
  import opened Collections

  /** A constructed `AppConfig`. */
  datatype AppConfig = AppConfig(sdk: string, buildDirectory: Path, devices: set<string>)
  {
    /** `is_rust`. */
    predicate IsRust()
    {
      sdk == "rust"
    }

    /** `is_c`. */
    predicate IsC()
    {
      !IsRust()
    }
  }

  /** The `ValueError`s the constructor raises. */
  datatype AppError =
    | UnknownSdk(sdk: string)
      /** the unknown devices, in the order the error message lists them */
    | UnknownDevices(devices: seq<string>)

  /** `str(error)`. */
  function Message(e: AppError): string
  {
    match e
    case UnknownSdk(sdk) => "'" + sdk + "' unknown. Must be either 'C' or 'Rust'"
    case UnknownDevices(devices) => "Unknown devices: '" + Join(devices, "', '") + "'"
  }

  /** `{device.lower() for device in devices}`. */
  function LoweredDevices(devices: seq<string>): set<string>
  {
    set d | d in devices :: Lower(d)
  }

  /** `devices.difference(EXISTING_DEVICES)` as the message enumerates it:
      each unknown lowered device once, in order of first occurrence. */
  function UnknownDevicesOf(devices: seq<string>, existing: set<string>): (unknown: seq<string>)
    ensures Distinct(unknown)
    ensures forall d :: d in unknown <==> d in LoweredDevices(devices) && d !in existing
  {
    if devices == [] then []
    else
      var earlier := devices[..|devices| - 1];
      var last := devices[|devices| - 1];
      var seen := UnknownDevicesOf(earlier, existing);
      assert devices == earlier + [last];
      assert LoweredDevices(devices) == LoweredDevices(earlier) + {Lower(last)};
      if Lower(last) in existing || Lower(last) in seen then seen else seen + [Lower(last)]
  }

  /** `AppConfig(sdk, build_directory, devices)`. The SDK is checked first,
      so an unknown SDK is reported whatever the devices are. */
  function NewAppConfig(sdk: string, buildDirectory: string, devices: seq<string>, existing: set<string>)
    : (r: Result<AppConfig, AppError>)
  {
    var sdk := Lower(sdk);
    if sdk !in ["rust", "c"] then Failure(UnknownSdk(sdk))
    else
      var lowered := LoweredDevices(devices);
      var unknown := UnknownDevicesOf(devices, existing);
      if unknown != [] then Failure(UnknownDevices(unknown))
      else Success(AppConfig(sdk, ToPath(buildDirectory), lowered))
  }

  /** Construction succeeds exactly when the lowered SDK is "rust" or "c"
      and every lowered device is in the catalog; an unknown SDK is reported
      before any device is looked at. */
  lemma NewAppConfigAccepts(sdk: string, buildDirectory: string, devices: seq<string>, existing: set<string>)
    ensures var r := NewAppConfig(sdk, buildDirectory, devices, existing);
      && (r.Success? <==> (Lower(sdk) == "rust" || Lower(sdk) == "c")
                          && forall d :: d in devices ==> Lower(d) in existing)
      && (Lower(sdk) != "rust" && Lower(sdk) != "c" ==> r == Failure(UnknownSdk(Lower(sdk))))
  {
    var unknown := UnknownDevicesOf(devices, existing);
    if unknown != [] {
      assert unknown[0] in LoweredDevices(devices);
    } else {
      forall d | d in devices ensures Lower(d) in existing {
        assert Lower(d) in LoweredDevices(devices);
      }
    }
  }

  /** On success the stored SDK is the lowered input, the build directory is
      `Path(build_directory)`, and `devices` holds exactly the lowered inputs,
      all of them in the catalog; case variants and repeats collapse. */
  lemma NewAppConfigFields(sdk: string, buildDirectory: string, devices: seq<string>, existing: set<string>)
    requires NewAppConfig(sdk, buildDirectory, devices, existing).Success?
    ensures var c := NewAppConfig(sdk, buildDirectory, devices, existing).value;
      && c.sdk == Lower(sdk)
      && c.buildDirectory == ToPath(buildDirectory)
      && c.devices == LoweredDevices(devices)
      && (forall d :: d in devices ==> Lower(d) in c.devices)
      && (forall d :: d in c.devices ==> d in existing && Lower(d) == d && exists x :: x in devices && Lower(x) == d)
      && |c.devices| <= |devices|
  {
    var c := NewAppConfig(sdk, buildDirectory, devices, existing).value;
    forall d | d in c.devices ensures d in existing && Lower(d) == d {
      var x :| x in devices && Lower(x) == d;
      LowerIdempotent(x);
    }
    LoweredDevicesSize(devices);
  }

  /** Lowering into a set never gives more members than there were inputs. */
  lemma {:induction false} LoweredDevicesSize(devices: seq<string>)
    ensures |LoweredDevices(devices)| <= |devices|
  {
    if devices != [] {
      var earlier := devices[..|devices| - 1];
      assert devices == earlier + [devices[|devices| - 1]];
      assert LoweredDevices(devices) == LoweredDevices(earlier) + {Lower(devices[|devices| - 1])};
      LoweredDevicesSize(earlier);
    }
  }

  /** When any lowered device is outside the catalog, construction fails and
      the message names every unknown device (and only those are listed). */
  lemma UnknownDevicesAllReported(sdk: string, buildDirectory: string, devices: seq<string>, existing: set<string>, d: string)
    requires Lower(sdk) == "rust" || Lower(sdk) == "c"
    requires d in devices && Lower(d) !in existing
    ensures var r := NewAppConfig(sdk, buildDirectory, devices, existing);
      && r.Failure? && r.error.UnknownDevices?
      && (forall x :: x in r.error.devices <==> x in LoweredDevices(devices) && x !in existing)
      && Contains(Message(r.error), Lower(d))
  {
    var unknown := UnknownDevicesOf(devices, existing);
    assert Lower(d) in LoweredDevices(devices);
    assert Lower(d) in unknown;
    assert NewAppConfig(sdk, buildDirectory, devices, existing) == Failure(UnknownDevices(unknown));
    var i :| 0 <= i < |unknown| && unknown[i] == Lower(d);
    MessageNamesEachDevice(unknown, i);
  }

  /** The unknown-devices message contains each device it lists. */
  lemma MessageNamesEachDevice(unknown: seq<string>, i: nat)
    requires i < |unknown|
    ensures Contains(Message(UnknownDevices(unknown)), unknown[i])
  {
    JoinContainsEach(unknown, "', '", i);
    var pre, post :| Join(unknown, "', '") == pre + unknown[i] + post;
    var head, tail := "Unknown devices: '", "'";
    assert Message(UnknownDevices(unknown)) == head + (pre + unknown[i] + post) + tail;
    assert head + (pre + unknown[i] + post) + tail == (head + pre) + unknown[i] + (post + tail);
  }

  /** Appending a case variant of a device already listed changes nothing,
      neither the constructed config nor the error raised. */
  lemma {:induction false} CaseVariantCollapses(sdk: string, buildDirectory: string, devices: seq<string>, existing: set<string>, x: string, y: string)
    requires x in devices && Lower(x) == Lower(y)
    ensures NewAppConfig(sdk, buildDirectory, devices + [y], existing)
         == NewAppConfig(sdk, buildDirectory, devices, existing)
  {
    var longer := devices + [y];
    assert longer[..|longer| - 1] == devices;
    assert Lower(y) in LoweredDevices(devices);
    assert LoweredDevices(longer) == LoweredDevices(devices) + {Lower(y)};
    assert LoweredDevices(longer) == LoweredDevices(devices);
    assert UnknownDevicesOf(longer, existing) == UnknownDevicesOf(devices, existing);
  }

  /** `is_rust` holds exactly for the SDK "rust" and `is_c` exactly for "c":
      exactly one of the two holds for every constructed config. */
  lemma SdkPredicatesComplement(sdk: string, buildDirectory: string, devices: seq<string>, existing: set<string>)
    requires NewAppConfig(sdk, buildDirectory, devices, existing).Success?
    ensures var c := NewAppConfig(sdk, buildDirectory, devices, existing).value;
      && (c.IsRust() <==> Lower(sdk) == "rust")
      && (c.IsC() <==> Lower(sdk) == "c")
      && c.IsRust() != c.IsC()
  {
  }

  /** The SDK "Rust" with the devices "nanos" and "NanoS+", both known: the
      SDK and the devices are stored lowered, and the config is a Rust one. */
  lemma CompleteExample()
    ensures NewAppConfig("Rust", "some path", ["nanos", "NanoS+"], {"nanos", "nanos+"})
         == Success(AppConfig("rust", Path("some path"), {"nanos", "nanos+"}))
    ensures AppConfig("rust", Path("some path"), {"nanos", "nanos+"}).IsRust()
    ensures !AppConfig("rust", Path("some path"), {"nanos", "nanos+"}).IsC()
  {
    var devices: seq<string> := ["nanos", "NanoS+"];
    var existing: set<string> := {"nanos", "nanos+"};
    assert Lower("Rust") == "rust";
    assert Lower(devices[0]) == "nanos";
    assert Lower(devices[1]) == "nanos+";
    assert LoweredDevices(devices) == {"nanos", "nanos+"};
    var unknown := UnknownDevicesOf(devices, existing);
    assert UnknownDevicesOf(devices[..1], existing) == [];
    assert unknown == [];
  }

  /** "Rust", "RUST" and "rust" all give the SDK "rust". */
  lemma SdkCaseExamples(existing: set<string>)
    ensures NewAppConfig("Rust", "", [], existing) == Success(AppConfig("rust", Path("."), {}))
    ensures NewAppConfig("RUST", "", [], existing) == Success(AppConfig("rust", Path("."), {}))
    ensures NewAppConfig("rust", "", [], existing) == Success(AppConfig("rust", Path("."), {}))
  {
    assert Lower("rust") == "rust";
    assert Lower("Rust") == "rust";
    assert Lower("RUST") == "rust";
    assert LoweredDevices([]) == {};
  }
}

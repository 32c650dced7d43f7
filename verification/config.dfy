/**
 * The configuration dictionary: the defaults that load_config fills in for
 * missing keys, and the dictionary save_config builds from the settings form.
 * Reading and writing the JSON file is left to the caller: the file arrives
 * here already parsed (or known to be absent or malformed).
 */
module Config {
  import Apps

  /** A JSON value as it can appear in the configuration file. */
  datatype Value =
    | Num(n: int)
    | Text(s: string)
    | TextList(items: seq<string>)
    | OtherJson   // any other JSON value a user may have written; carried along unchanged

  /** The keys of the default configuration, in the order load_config visits them. */
  const DefaultKeys: seq<string> :=
    ["ip_address", "plug_number", "battery_threshold", "apps", "check_interval"]

  const Defaults: map<string, Value> := map[
    "ip_address" := Text("10.0.0.67"),
    "plug_number" := Num(0),
    "battery_threshold" := Num(20),
    "apps" := TextList(["chrome.exe", "notepad.exe"]),
    "check_interval" := Num(10)
  ]

  /** What reading config.json produced. */
  datatype ConfigFile =
    | Absent                                // the file does not exist
    | Malformed                             // json.JSONDecodeError
    | Parsed(user: map<string, Value>)      // the top-level JSON object

  /**
   * load_config: a missing or malformed file yields the defaults; otherwise
   * every default key the user left out is added with its default value and
   * every key the user wrote keeps its value.
   */
  method LoadConfig(file: ConfigFile) returns (config: map<string, Value>)
    ensures file.Parsed? ==> config == Defaults + file.user
    ensures !file.Parsed? ==> config == Defaults
    ensures Defaults.Keys <= config.Keys
    ensures file.Parsed? ==> config.Keys == file.user.Keys + Defaults.Keys
    ensures file.Parsed? ==> forall k :: k in file.user ==> config[k] == file.user[k]
    ensures file.Parsed? ==> forall k :: k in Defaults && k !in file.user ==> config[k] == Defaults[k]
  {
    if !file.Parsed? {
      return Defaults;
    }
    DefaultKeysListed();
    var user := file.user;
    config := user;
    for i := 0 to |DefaultKeys|
      invariant config.Keys == user.Keys + set j | 0 <= j < i :: DefaultKeys[j]
      invariant forall k :: k in user ==> config[k] == user[k]
      invariant forall k :: k in config && k !in user ==> k in Defaults && config[k] == Defaults[k]
    {
      var key := DefaultKeys[i];
      if key !in config {
        config := config[key := Defaults[key]];
      }
    }
    MergeComplete(user, config);
  }

  /** After the loop has visited every default key, the dictionary is the user's merged over the defaults. */
  lemma MergeComplete(user: map<string, Value>, config: map<string, Value>)
    requires Defaults.Keys == set j | 0 <= j < |DefaultKeys| :: DefaultKeys[j]
    requires config.Keys == user.Keys + set j | 0 <= j < |DefaultKeys| :: DefaultKeys[j]
    requires forall k :: k in user ==> config[k] == user[k]
    requires forall k :: k in config && k !in user ==> k in Defaults && config[k] == Defaults[k]
    ensures config == Defaults + user
  {
    assert config.Keys == (Defaults + user).Keys;
  }

  lemma DefaultKeysListed()
    ensures Defaults.Keys == set j | 0 <= j < |DefaultKeys| :: DefaultKeys[j]
  {
    var listed := set j | 0 <= j < |DefaultKeys| :: DefaultKeys[j];
    assert DefaultKeys[0] in listed && DefaultKeys[1] in listed && DefaultKeys[2] in listed;
    assert DefaultKeys[3] in listed && DefaultKeys[4] in listed;
  }

  /**
   * save_config: the dictionary written from the settings form. The two
   * numeric fields arrive already converted by int().
   */
  function SaveConfig(ip: string, plugNumber: int, threshold: int, appsText: string): (config: map<string, Value>)
    ensures config.Keys == Defaults.Keys
    ensures config["apps"].TextList?
    ensures forall i :: 0 <= i < |config["apps"].items| ==> Apps.WellFormedApp(config["apps"].items[i])
    ensures config["check_interval"] == Defaults["check_interval"]
    ensures config["ip_address"] == Text(ip)
    ensures config["plug_number"] == Num(plugNumber) && config["battery_threshold"] == Num(threshold)
    ensures config["apps"] == TextList(Apps.ParseApps(appsText))
  {
    var apps := Apps.ParseApps(appsText);
    var config := map[
      "ip_address" := Text(ip),
      "plug_number" := Num(plugNumber),
      "battery_threshold" := Num(threshold),
      "apps" := TextList(apps),
      "check_interval" := Num(10)
    ];
    DefaultKeysListed();
    assert config.Keys == set j | 0 <= j < |DefaultKeys| :: DefaultKeys[j];
    config
  }

  /** A file that save_config wrote holds every key, so loading it changes nothing. */
  lemma LoadAfterSave(ip: string, plugNumber: int, threshold: int, appsText: string)
    ensures Defaults + SaveConfig(ip, plugNumber, threshold, appsText) == SaveConfig(ip, plugNumber, threshold, appsText)
  {
    UnionWithCover(Defaults, SaveConfig(ip, plugNumber, threshold, appsText));
  }

  lemma UnionWithCover(defaults: map<string, Value>, m: map<string, Value>)
    requires defaults.Keys <= m.Keys
    ensures defaults + m == m
  {
    assert (defaults + m).Keys == m.Keys;
  }

  /**
   * The settings field shows the loaded list joined with commas; saving it
   * unedited stores the same list, provided each name is non-empty, has no
   * surrounding whitespace and no comma.
   */
  lemma {:induction false} SaveShownApps(ip: string, plugNumber: int, threshold: int, apps: seq<string>)
    requires forall i :: 0 <= i < |apps| ==> Apps.WellFormedApp(apps[i])
    ensures SaveConfig(ip, plugNumber, threshold, Apps.Join(apps))["apps"] == TextList(apps)
  {
    Apps.ParseJoinRoundTrip(apps);
  }
}

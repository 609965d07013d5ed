/**
 The configuration loader. A file arrives as already parsed JSON, and path
 normalisation as an arbitrary partial function; both are inputs of a load.
 */
module Config {
  import opened Lists
  import opened Paths
  import opened Policy
  import opened Text
  import opened Wrappers

  /** The keys the loader reads, under the names of the JSON keys, and all others. */
  datatype Key =
    | AllowedProcessesKey
    | BlockedProcessesKey
    | AllowedDomainsKey
    | BlockedDomainsKey
    | ProtectedPathsKey
    | NetworkWhitelistKey
    | FilesystemMonitorPathsKey
    | SystemPathsToIgnoreKey
    | AllowedVolumesKey
    | AllowedMountPrefixesKey
    | DebugModeKey
    | ClearClipboardKey
    | FilesystemNotificationsEnabledKey
    | HeartbeatIntervalSecondsKey
    | ProcessScanIntervalSecondsKey
    | FilesystemScanIntervalMsKey
    | ClipboardClearIntervalSecondsKey
    | NotificationRateLimitSecondsKey
    | OtherKey(name: string)

  /** Numbers outside 64 bits are fractions: the parser reads them as floating point. */
  datatype Json =
    | Null
    | Bool(b: bool)
    | Integer(n: int)
    | Fraction
    | String(s: string)
    | Array(items: seq<Json>)
    | Object(fields: map<Key, Json>)

  /** What a load finds at the configured path. */
  datatype File = Unusable | Parsed(json: Json)

  /** `normalize_path`: no result for a path it rejects. */
  type Normalizer = string -> Option<string>

  function DefaultIgnorePath(i: nat): string {
    if i == 0 then "/System/Library/"
    else if i == 1 then "/usr/libexec/"
    else if i == 2 then "/usr/sbin/"
    else if i == 3 then "/sbin/"
    else if i == 4 then "/bin/"
    else if i == 5 then "/usr/bin/"
    else "/usr/local/"
  }

  function DefaultIgnorePaths(): seq<string> {
    seq(7, i requires 0 <= i < 7 => DefaultIgnorePath(i))
  }

  // ----- reading single keys

  function OnlyStrings(items: seq<Json>): seq<string> {
    if items == [] then []
    else
      var last := items[|items| - 1];
      OnlyStrings(items[..|items| - 1]) + if last.String? then [last.s] else []
  }

  function StringsAt(fields: map<Key, Json>, key: Key): seq<string> {
    if key in fields && fields[key].Array? then OnlyStrings(fields[key].items) else []
  }

  /** The conversion of a JSON integer to a 32-bit `int`, which wraps around. */
  function ToInt32(n: int): (r: int)
    ensures -0x8000_0000 <= r < 0x8000_0000
    ensures -0x8000_0000 <= n < 0x8000_0000 ==> r == n
    ensures (n - r) % 0x1_0000_0000 == 0
  {
    (n + 0x8000_0000) % 0x1_0000_0000 - 0x8000_0000
  }

  /** `read_int`: too small a value leaves the target alone. */
  function IntAt(fields: map<Key, Json>, key: Key, before: int, least: int): int {
    if key in fields && fields[key].Integer? && ToInt32(fields[key].n) >= least then ToInt32(fields[key].n) else before
  }

  /** `read_int_clamped`: too small a value is raised to the minimum. */
  function ClampedIntAt(fields: map<Key, Json>, key: Key, before: int, least: int): int {
    if key in fields && fields[key].Integer? then
      if ToInt32(fields[key].n) < least then least else ToInt32(fields[key].n)
    else before
  }

  function BoolAt(fields: map<Key, Json>, key: Key, before: bool): bool {
    if key in fields && fields[key].Bool? then fields[key].b else before
  }

  method ReadStringArray(fields: map<Key, Json>, key: Key) returns (out: seq<string>)
    ensures out == StringsAt(fields, key)
  {
    out := [];
    if key !in fields || !fields[key].Array? {
      return;
    }
    var items := fields[key].items;
    for i := 0 to |items|
      invariant out == OnlyStrings(items[..i])
    {
      assert items[..i + 1][..i] == items[..i];
      if items[i].String? {
        out := out + [items[i].s];
      }
    }
    assert items[..|items|] == items;
  }

  method ReadInt(fields: map<Key, Json>, key: Key, target: int, least: int) returns (value: int)
    ensures value == IntAt(fields, key, target, least)
  {
    if key !in fields || !fields[key].Integer? {
      return target;
    }
    value := ToInt32(fields[key].n);
    if value < least {
      return target;
    }
  }

  method ReadIntClamped(fields: map<Key, Json>, key: Key, target: int, least: int) returns (value: int)
    ensures value == ClampedIntAt(fields, key, target, least)
  {
    if key !in fields || !fields[key].Integer? {
      return target;
    }
    value := ToInt32(fields[key].n);
    if value < least {
      value := least;
    }
  }

  method ReadBool(fields: map<Key, Json>, key: Key, target: bool) returns (value: bool)
    ensures value == BoolAt(fields, key, target)
  {
    if key !in fields || !fields[key].Bool? {
      return target;
    }
    return fields[key].b;
  }

  // ----- lists of paths

  function AllNormalized(paths: seq<string>, normalize: Normalizer): seq<Path> {
    if paths == [] then []
    else
      var front := AllNormalized(paths[..|paths| - 1], normalize);
      var last := normalize(paths[|paths| - 1]);
      if last.Some? && last.value != "" then front + [last.value] else front
  }

  /** `normalize_paths`. */
  function NormalizedPaths(paths: seq<string>, normalize: Normalizer): seq<Path> {
    Dedupe(AllNormalized(paths, normalize))
  }

  lemma {:induction false} AllNormalizedNonEmpty(paths: seq<string>, normalize: Normalizer)
    ensures "" !in AllNormalized(paths, normalize)
  {
    if paths != [] {
      AllNormalizedNonEmpty(paths[..|paths| - 1], normalize);
    }
  }

  method NormalizePaths(paths: seq<string>, normalize: Normalizer) returns (normalized: seq<Path>)
    ensures normalized == NormalizedPaths(paths, normalize)
  {
    var all: seq<Path> := [];
    for i := 0 to |paths|
      invariant all == AllNormalized(paths[..i], normalize)
    {
      assert paths[..i + 1][..i] == paths[..i];
      var path := normalize(paths[i]);
      if path.Some? && path.value != "" {
        all := all + [path.value];
      }
    }
    assert paths[..|paths|] == paths;
    normalized := DedupePreserveOrder(all);
  }

  predicate UnderAny(path: Path, roots: seq<Path>) {
    exists r | r in roots :: HasPrefixPath(path, r)
  }

  /** The paths of the list that lie under none of the roots. */
  function Outside(paths: seq<Path>, roots: seq<Path>): seq<Path> {
    Filter(paths, path => !UnderAny(path, roots))
  }

  lemma OutsideMeetsSpec(paths: seq<Path>, roots: seq<Path>)
    ensures forall p | p in Outside(paths, roots) :: p in paths && !UnderAny(p, roots)
    ensures forall p | p in paths && !UnderAny(p, roots) :: p in Outside(paths, roots)
    ensures NoDuplicates(paths) ==> NoDuplicates(Outside(paths, roots))
    ensures roots == [] ==> Outside(paths, roots) == paths
  {
    FilterMeetsSpec(paths, path => !UnderAny(path, roots));
    if roots == [] {
      FilterOfAll(paths, path => !UnderAny(path, roots));
    }
  }

  /** The loader's `filter_paths`. */
  method FilterPaths(paths: seq<Path>, roots: seq<Path>) returns (kept: seq<Path>)
    ensures kept == Dedupe(Outside(paths, roots))
  {
    var filtered: seq<Path> := [];
    for i := 0 to |paths|
      invariant filtered == Outside(paths[..i], roots)
    {
      assert paths[..i + 1][..i] == paths[..i];
      var skip := false;
      for k := 0 to |roots|
        invariant !skip && !UnderAny(paths[i], roots[..k])
      {
        if HasPrefixPath(paths[i], roots[k]) {
          skip := true;
          break;
        }
      }
      assert roots[..|roots|] == roots;
      if !skip {
        filtered := filtered + [paths[i]];
      }
    }
    assert paths[..|paths|] == paths;
    kept := DedupePreserveOrder(filtered);
  }

  // ----- whole policies

  function LoweredSet(strings: seq<string>): set<string> {
    set s | s in strings :: Lower(s)
  }

  const DEFAULT_RULES := Rules({}, {}, {}, {}, {}, [])
  const DEFAULT_SETTINGS := Settings(120, 10, 2000, 15, 5, true, false, true)

  function DefaultRoots(normalize: Normalizer): Roots {
    Roots([], [], NormalizedPaths(DefaultIgnorePaths(), normalize), [])
  }

  function RulesIn(fields: map<Key, Json>): Rules {
    Rules(
      LoweredSet(StringsAt(fields, AllowedProcessesKey)),
      LoweredSet(StringsAt(fields, BlockedProcessesKey)),
      LoweredSet(StringsAt(fields, AllowedDomainsKey)),
      LoweredSet(StringsAt(fields, BlockedDomainsKey)),
      Elements(StringsAt(fields, NetworkWhitelistKey)),
      Dedupe(StringsAt(fields, AllowedVolumesKey)))
  }

  /** Settings that the object gives no valid value for stay as they are. */
  function SettingsIn(fields: map<Key, Json>, before: Settings): Settings {
    Settings(
      IntAt(fields, HeartbeatIntervalSecondsKey, before.heartbeatSeconds, 1),
      IntAt(fields, ProcessScanIntervalSecondsKey, before.processScanSeconds, 1),
      ClampedIntAt(fields, FilesystemScanIntervalMsKey, before.filesystemScanMs, 250),
      ClampedIntAt(fields, ClipboardClearIntervalSecondsKey, before.clipboardSeconds, 5),
      ClampedIntAt(fields, NotificationRateLimitSecondsKey, before.rateLimitSeconds, 1),
      BoolAt(fields, DebugModeKey, before.debug),
      BoolAt(fields, ClearClipboardKey, before.clearClipboard),
      BoolAt(fields, FilesystemNotificationsEnabledKey, before.notifications))
  }

  /** Ignored paths add to those that are there already; monitored roots under them are dropped. */
  function RootsIn(fields: map<Key, Json>, normalize: Normalizer, before: seq<Path>): Roots {
    var ignore := Dedupe(before + NormalizedPaths(StringsAt(fields, SystemPathsToIgnoreKey), normalize));
    Roots(
      Outside(NormalizedPaths(StringsAt(fields, ProtectedPathsKey), normalize), ignore),
      Outside(NormalizedPaths(StringsAt(fields, FilesystemMonitorPathsKey), normalize), ignore),
      ignore,
      NormalizedPaths(StringsAt(fields, AllowedMountPrefixesKey), normalize))
  }

  function Defaults(normalize: Normalizer): Policy {
    Policy(DEFAULT_RULES, DefaultRoots(normalize), DEFAULT_SETTINGS)
  }

  /** What a JSON object says, on top of the defaults. */
  function FromObject(fields: map<Key, Json>, normalize: Normalizer): Policy {
    Policy(RulesIn(fields),
           RootsIn(fields, normalize, DefaultRoots(normalize).ignorePaths),
           SettingsIn(fields, DEFAULT_SETTINGS))
  }

  /** A list of strings as JSON. */
  function Strings(list: seq<string>): Json {
    Array(seq(|list|, i requires 0 <= i < |list| => String(list[i])))
  }

  /** The content of the file that `create_default_config` writes; `path` is the directory that it protects. */
  function CreatedFields(path: string): map<Key, Json> {
    map[
      AllowedProcessesKey := Strings([]),
      BlockedProcessesKey := Strings([]),
      AllowedDomainsKey := Strings([]),
      BlockedDomainsKey := Strings([]),
      ProtectedPathsKey := Strings([path]),
      NetworkWhitelistKey := Strings([]),
      FilesystemMonitorPathsKey := Strings([]),
      AllowedVolumesKey := Strings([]),
      AllowedMountPrefixesKey := Strings([]),
      DebugModeKey := Bool(true),
      HeartbeatIntervalSecondsKey := Integer(120),
      ProcessScanIntervalSecondsKey := Integer(10),
      FilesystemScanIntervalMsKey := Integer(2000),
      ClearClipboardKey := Bool(false),
      ClipboardClearIntervalSecondsKey := Integer(15),
      FilesystemNotificationsEnabledKey := Bool(true),
      NotificationRateLimitSecondsKey := Integer(5),
      SystemPathsToIgnoreKey := Strings([
        "/System/Library/", "/usr/libexec/", "/usr/sbin/", "/sbin/", "/bin/", "/usr/bin/", "/usr/local/"])]
  }

  predicate Loads(file: File) {
    file.Parsed? && file.json.Object?
  }

  /** The policy after a load, by the file's content alone. */
  function Loaded(file: File, normalize: Normalizer): Policy {
    if Loads(file) then FromObject(file.json.fields, normalize) else Defaults(normalize)
  }

  class ConfigManager {
    var allowedProcesses: set<string>
    var blockedProcesses: set<string>
    var allowedDomains: set<string>
    var blockedDomains: set<string>
    var networkWhitelist: set<string>
    var protectedPaths: seq<Path>
    var filesystemMonitorPaths: seq<Path>
    var systemPathsToIgnore: seq<Path>
    var allowedVolumes: seq<string>
    var allowedMountPrefixes: seq<Path>
    var heartbeatIntervalSeconds: int
    var processScanIntervalSeconds: int
    var filesystemScanIntervalMs: int
    var clipboardClearIntervalSeconds: int
    var notificationRateLimitSeconds: int
    var debugMode: bool
    var clearClipboard: bool
    var filesystemNotificationsEnabled: bool
    var snapshot: Json

    function CurrentRules(): Rules
      reads `allowedProcesses, `blockedProcesses, `allowedDomains, `blockedDomains, `networkWhitelist, `allowedVolumes
    {
      Rules(allowedProcesses, blockedProcesses, allowedDomains, blockedDomains, networkWhitelist, allowedVolumes)
    }

    function CurrentRoots(): Roots
      reads `protectedPaths, `filesystemMonitorPaths, `systemPathsToIgnore, `allowedMountPrefixes
    {
      Roots(protectedPaths, filesystemMonitorPaths, systemPathsToIgnore, allowedMountPrefixes)
    }

    function CurrentSettings(): Settings
      reads `heartbeatIntervalSeconds, `processScanIntervalSeconds, `filesystemScanIntervalMs,
            `clipboardClearIntervalSeconds, `notificationRateLimitSeconds,
            `debugMode, `clearClipboard, `filesystemNotificationsEnabled
    {
      Settings(heartbeatIntervalSeconds, processScanIntervalSeconds, filesystemScanIntervalMs,
               clipboardClearIntervalSeconds, notificationRateLimitSeconds,
               debugMode, clearClipboard, filesystemNotificationsEnabled)
    }

    function Current(): Policy
      reads this
    {
      Policy(CurrentRules(), CurrentRoots(), CurrentSettings())
    }

    /**
     `created` is whether a default file can be written, and then read back, in place of
     one that does not load; `path` is the directory that the default file protects.
     */
    constructor (file: File, created: bool, path: string, normalize: Normalizer)
      ensures Current() == if Loads(file) then Loaded(file, normalize)
                           else if created then Loaded(Parsed(Object(CreatedFields(path))), normalize)
                           else Defaults(normalize)
    {
      snapshot := Null;
      new;
      hide CreatedFields, Loaded, Defaults;
      var loaded := Load(file, normalize);
      if !loaded {
        if created {
          var _ := Load(Parsed(Object(CreatedFields(path))), normalize);
        } else {
          ApplyDefaults(normalize);
        }
      }
    }

    method ApplyDefaultRules()
      modifies `allowedProcesses, `blockedProcesses, `allowedDomains, `blockedDomains, `networkWhitelist, `allowedVolumes
      ensures CurrentRules() == DEFAULT_RULES
    {
      allowedProcesses, blockedProcesses := {}, {};
      allowedDomains, blockedDomains := {}, {};
      networkWhitelist := {};
      allowedVolumes := [];
    }

    method ApplyDefaultSettings()
      modifies `heartbeatIntervalSeconds, `processScanIntervalSeconds, `filesystemScanIntervalMs,
               `clipboardClearIntervalSeconds, `notificationRateLimitSeconds,
               `debugMode, `clearClipboard, `filesystemNotificationsEnabled
      ensures CurrentSettings() == DEFAULT_SETTINGS
    {
      heartbeatIntervalSeconds := 120;
      processScanIntervalSeconds := 10;
      filesystemScanIntervalMs := 2000;
      clipboardClearIntervalSeconds := 15;
      notificationRateLimitSeconds := 5;
      debugMode := true;
      clearClipboard := false;
      filesystemNotificationsEnabled := true;
    }

    method ApplyDefaultRoots(normalize: Normalizer)
      modifies `protectedPaths, `filesystemMonitorPaths, `systemPathsToIgnore, `allowedMountPrefixes
      ensures CurrentRoots() == DefaultRoots(normalize)
    {
      protectedPaths, filesystemMonitorPaths, allowedMountPrefixes := [], [], [];
      systemPathsToIgnore := NormalizePaths(DefaultIgnorePaths(), normalize);
    }

    /** The three parts of `apply_defaults`. */
    method ApplyDefaults(normalize: Normalizer)
      modifies this
      ensures Current() == Defaults(normalize) && snapshot == old(snapshot)
    {
      ApplyDefaultRules();
      ApplyDefaultSettings();
      ApplyDefaultRoots(normalize);
    }

    /** The part of `parse_json_locked` for switches and numbers. */
    method ParseSettings(fields: map<Key, Json>)
      modifies `heartbeatIntervalSeconds, `processScanIntervalSeconds, `filesystemScanIntervalMs,
               `clipboardClearIntervalSeconds, `notificationRateLimitSeconds,
               `debugMode, `clearClipboard, `filesystemNotificationsEnabled
      ensures CurrentSettings() == SettingsIn(fields, old(CurrentSettings()))
    {
      debugMode := ReadBool(fields, DebugModeKey, debugMode);
      clearClipboard := ReadBool(fields, ClearClipboardKey, clearClipboard);
      filesystemNotificationsEnabled := ReadBool(fields, FilesystemNotificationsEnabledKey, filesystemNotificationsEnabled);
      heartbeatIntervalSeconds := ReadInt(fields, HeartbeatIntervalSecondsKey, heartbeatIntervalSeconds, 1);
      processScanIntervalSeconds := ReadInt(fields, ProcessScanIntervalSecondsKey, processScanIntervalSeconds, 1);
      filesystemScanIntervalMs := ReadIntClamped(fields, FilesystemScanIntervalMsKey, filesystemScanIntervalMs, 250);
      clipboardClearIntervalSeconds :=
        ReadIntClamped(fields, ClipboardClearIntervalSecondsKey, clipboardClearIntervalSeconds, 5);
      notificationRateLimitSeconds :=
        ReadIntClamped(fields, NotificationRateLimitSecondsKey, notificationRateLimitSeconds, 1);
    }

    /** The part of `parse_json_locked` for names and volumes. */
    method ParseRules(fields: map<Key, Json>)
      modifies `allowedProcesses, `blockedProcesses, `allowedDomains, `blockedDomains, `networkWhitelist, `allowedVolumes
      ensures CurrentRules() == RulesIn(fields)
    {
      var names := ReadStringArray(fields, AllowedProcessesKey);
      allowedProcesses := CollectLowered(names);
      names := ReadStringArray(fields, BlockedProcessesKey);
      blockedProcesses := CollectLowered(names);
      names := ReadStringArray(fields, AllowedDomainsKey);
      allowedDomains := CollectLowered(names);
      names := ReadStringArray(fields, BlockedDomainsKey);
      blockedDomains := CollectLowered(names);
      names := ReadStringArray(fields, NetworkWhitelistKey);
      networkWhitelist := set s | s in names;
      names := ReadStringArray(fields, AllowedVolumesKey);
      allowedVolumes := DedupePreserveOrder(names);
    }

    /** The part of `parse_json_locked` for paths: ignored paths accumulate on those already there. */
    method ParseRoots(fields: map<Key, Json>, normalize: Normalizer)
      requires NoDuplicates(systemPathsToIgnore)
      modifies `protectedPaths, `filesystemMonitorPaths, `systemPathsToIgnore, `allowedMountPrefixes
      ensures CurrentRoots() == RootsIn(fields, normalize, old(systemPathsToIgnore))
    {
      var protected := ReadStringArray(fields, ProtectedPathsKey);
      var monitored := ReadStringArray(fields, FilesystemMonitorPathsKey);
      var ignored := ReadStringArray(fields, SystemPathsToIgnoreKey);
      var prefixes := ReadStringArray(fields, AllowedMountPrefixesKey);
      protectedPaths := NormalizePaths(protected, normalize);
      filesystemMonitorPaths := NormalizePaths(monitored, normalize);
      allowedMountPrefixes := NormalizePaths(prefixes, normalize);

      DedupeMeetsSpec(AllNormalized(protected, normalize));
      DedupeMeetsSpec(AllNormalized(monitored, normalize));
      if ignored != [] {
        var normalized := NormalizePaths(ignored, normalize);
        systemPathsToIgnore := systemPathsToIgnore + normalized;
      } else {
        assert systemPathsToIgnore == systemPathsToIgnore + NormalizedPaths(ignored, normalize);
      }
      systemPathsToIgnore := DedupePreserveOrder(systemPathsToIgnore);

      OutsideMeetsSpec(protectedPaths, systemPathsToIgnore);
      OutsideMeetsSpec(filesystemMonitorPaths, systemPathsToIgnore);
      DedupeOfDistinct(Outside(protectedPaths, systemPathsToIgnore));
      DedupeOfDistinct(Outside(filesystemMonitorPaths, systemPathsToIgnore));
      if systemPathsToIgnore != [] {
        protectedPaths := FilterPaths(protectedPaths, systemPathsToIgnore);
        filesystemMonitorPaths := FilterPaths(filesystemMonitorPaths, systemPathsToIgnore);
      }
    }

    /** The parts of `parse_json_locked`, applied to whatever was there before. */
    method ParseJson(fields: map<Key, Json>, normalize: Normalizer)
      requires NoDuplicates(systemPathsToIgnore)
      modifies this
      ensures CurrentRules() == RulesIn(fields)
      ensures CurrentRoots() == RootsIn(fields, normalize, old(systemPathsToIgnore))
      ensures CurrentSettings() == SettingsIn(fields, old(CurrentSettings()))
      ensures snapshot == old(snapshot)
    {
      hide RulesIn, RootsIn, SettingsIn;
      ParseSettings(fields);
      ParseRules(fields);
      ParseRoots(fields, normalize);
    }

    /** `load` and `reload`: whatever was loaded before leaves no trace. */
    method Load(file: File, normalize: Normalizer) returns (loaded: bool)
      modifies this
      ensures loaded == Loads(file)
      ensures Current() == Loaded(file, normalize)
      ensures snapshot == if loaded then file.json else Object(map[])
    {
      hide RulesIn, RootsIn, SettingsIn, NormalizedPaths;
      ApplyDefaults(normalize);
      snapshot := Object(map[]);
      if file.Unusable? || !file.json.Object? {
        return false;
      }
      NormalizedPathsMeetSpec(DefaultIgnorePaths(), normalize);
      ParseJson(file.json.fields, normalize);
      snapshot := file.json;
      return true;
    }

    /** Any series of loads ends in the policy of the last file alone. */
    method LoadSeries(loads: seq<(File, Normalizer)>)
      requires loads != []
      modifies this
      ensures var (file, normalize) := loads[|loads| - 1]; Current() == Loaded(file, normalize)
    {
      for i := 0 to |loads|
        invariant i > 0 ==> Current() == Loaded(loads[i - 1].0, loads[i - 1].1)
      {
        var _ := Load(loads[i].0, loads[i].1);
      }
    }
  }

  method CollectLowered(names: seq<string>) returns (lowered: set<string>)
    ensures lowered == LoweredSet(names)
  {
    lowered := {};
    for i := 0 to |names|
      invariant lowered == LoweredSet(names[..i])
    {
      assert names[..i + 1] == names[..i] + [names[i]];
      lowered := lowered + {Lower(names[i])};
    }
    assert names[..|names|] == names;
  }

  // ----- what every loaded policy guarantees

  /** Every interval respects its floor, whatever the file says and however its numbers wrap around. */
  lemma IntervalFloors(file: File, normalize: Normalizer)
    ensures var p := Loaded(file, normalize).settings;
            && p.heartbeatSeconds >= 1 && p.processScanSeconds >= 1 && p.filesystemScanMs >= 250
            && p.clipboardSeconds >= 5 && p.rateLimitSeconds >= 1
  {
  }

  predicate IsIntegerKey(key: Key) {
    || key.HeartbeatIntervalSecondsKey? || key.ProcessScanIntervalSecondsKey? || key.FilesystemScanIntervalMsKey?
    || key.ClipboardClearIntervalSecondsKey? || key.NotificationRateLimitSecondsKey?
  }

  /** The setting that belongs to an integer key. */
  function SettingAt(settings: Settings, key: Key): int
    requires IsIntegerKey(key)
  {
    match key
    case HeartbeatIntervalSecondsKey => settings.heartbeatSeconds
    case ProcessScanIntervalSecondsKey => settings.processScanSeconds
    case FilesystemScanIntervalMsKey => settings.filesystemScanMs
    case ClipboardClearIntervalSecondsKey => settings.clipboardSeconds
    case NotificationRateLimitSecondsKey => settings.rateLimitSeconds
  }

  function LeastAt(key: Key): int
    requires IsIntegerKey(key)
  {
    match key
    case FilesystemScanIntervalMsKey => 250
    case ClipboardClearIntervalSecondsKey => 5
    case _ => 1
  }

  /** What a key gets for a value that is too small: the default, or the minimum. */
  function SubstituteAt(key: Key): int
    requires IsIntegerKey(key)
  {
    match key
    case HeartbeatIntervalSecondsKey => 120
    case ProcessScanIntervalSecondsKey => 10
    case _ => LeastAt(key)
  }

  /**
   When the loader honours an integer, for all integers and all five keys. From the
   minimum on, it does exactly if the integer fits into 32 bits. Below the minimum,
   the substitute is loaded exactly if the integer does not wrap around to another
   value that is large enough.
   */
  lemma IntegersHonouredWithin32Bits(fields: map<Key, Json>, normalize: Normalizer, key: Key, n: int)
    requires IsIntegerKey(key) && key in fields && fields[key] == Integer(n)
    ensures var value := SettingAt(FromObject(fields, normalize).settings, key);
            && (n >= LeastAt(key) ==> (value == n <==> n < 0x8000_0000))
            && (n < LeastAt(key) ==>
                  (value == SubstituteAt(key) <==> ToInt32(n) < LeastAt(key) || ToInt32(n) == SubstituteAt(key)))
            && (-0x8000_0000 <= n < LeastAt(key) ==> value == SubstituteAt(key))
  {
    hide ToInt32, RulesIn, RootsIn;
  }

  /** 2^32 + 3 is not rejected as too large: it arrives as 3. */
  lemma HugeIntervalWraps(normalize: Normalizer)
    ensures var fields := map[HeartbeatIntervalSecondsKey := Integer(0x1_0000_0003)];
            FromObject(fields, normalize).settings.heartbeatSeconds == 3
  {
    assert ToInt32(0x1_0000_0003) == 3;
  }

  lemma NormalizedPathsMeetSpec(paths: seq<string>, normalize: Normalizer)
    ensures NoDuplicates(NormalizedPaths(paths, normalize)) && "" !in NormalizedPaths(paths, normalize)
  {
    AllNormalizedNonEmpty(paths, normalize);
    DedupeMeetsSpec(AllNormalized(paths, normalize));
  }

  /** Monitored roots are non-empty, distinct and outside every ignored path. */
  predicate WellFormed(policy: Policy) {
    && NoDuplicates(policy.roots.protectedPaths) && NoDuplicates(policy.roots.monitorPaths)
    && NoDuplicates(policy.roots.ignorePaths)
    && "" !in policy.roots.ignorePaths
    && forall p | p in policy.roots.protectedPaths + policy.roots.monitorPaths ::
         p != "" && !UnderAny(p, policy.roots.ignorePaths)
  }

  lemma LoadedIsWellFormed(file: File, normalize: Normalizer)
    ensures WellFormed(Loaded(file, normalize))
  {
    var policy := Loaded(file, normalize);
    NormalizedPathsMeetSpec(DefaultIgnorePaths(), normalize);
    if Loads(file) {
      var fields := file.json.fields;
      var extra := NormalizedPaths(StringsAt(fields, SystemPathsToIgnoreKey), normalize);
      NormalizedPathsMeetSpec(StringsAt(fields, SystemPathsToIgnoreKey), normalize);
      DedupeMeetsSpec(NormalizedPaths(DefaultIgnorePaths(), normalize) + extra);
      NormalizedPathsMeetSpec(StringsAt(fields, ProtectedPathsKey), normalize);
      NormalizedPathsMeetSpec(StringsAt(fields, FilesystemMonitorPathsKey), normalize);
      OutsideMeetsSpec(NormalizedPaths(StringsAt(fields, ProtectedPathsKey), normalize), policy.roots.ignorePaths);
      OutsideMeetsSpec(NormalizedPaths(StringsAt(fields, FilesystemMonitorPathsKey), normalize), policy.roots.ignorePaths);
    }
  }

  lemma {:induction false} DedupeKeepsPrefix<T>(a: seq<T>, b: seq<T>)
    ensures Dedupe(a) <= Dedupe(a + b)
  {
    if b == [] {
      assert a + b == a;
    } else {
      DedupeKeepsPrefix(a, b[..|b| - 1]);
      assert (a + b)[..|a + b| - 1] == a + b[..|b| - 1];
    }
  }

  /** No file can take a default path off the ignore list; its own paths come after. */
  lemma DefaultIgnorePathsStay(file: File, normalize: Normalizer)
    ensures NormalizedPaths(DefaultIgnorePaths(), normalize) <= Loaded(file, normalize).roots.ignorePaths
  {
    var defaults := NormalizedPaths(DefaultIgnorePaths(), normalize);
    NormalizedPathsMeetSpec(DefaultIgnorePaths(), normalize);
    DedupeOfDistinct(defaults);
    if Loads(file) {
      DedupeKeepsPrefix(defaults, NormalizedPaths(StringsAt(file.json.fields, SystemPathsToIgnoreKey), normalize));
    }
  }
}

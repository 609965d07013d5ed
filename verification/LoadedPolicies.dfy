/**
 Which policies a load can produce: exactly the canonical ones. A canonical policy
 written out as JSON, with its sets in any order, loads back as itself.
 */
module LoadedPolicies {
  import opened Config
  import opened Lists
  import opened Paths
  import opened Policy
  import opened Text
  import opened Wrappers

  /** Normalising a normalised path changes nothing. */
  ghost predicate Idempotent(normalize: Normalizer) {
    forall s: string :: normalize(s).Some? ==> normalize(normalize(s).value) == normalize(s)
  }

  predicate Lowered(names: set<string>) {
    forall n | n in names :: Lower(n) == n
  }

  predicate Fixed(paths: seq<Path>, normalize: Normalizer) {
    forall p | p in paths :: p != "" && normalize(p) == Some(p)
  }

  predicate Settled(paths: seq<Path>, normalize: Normalizer) {
    NoDuplicates(paths) && Fixed(paths, normalize)
  }

  /** A valid 32-bit setting. */
  predicate InRange(value: int, least: int) {
    least <= value < 0x8000_0000
  }

  predicate CanonicalRules(rules: Rules) {
    && Lowered(rules.allowedProcesses) && Lowered(rules.blockedProcesses)
    && Lowered(rules.allowedDomains) && Lowered(rules.blockedDomains)
    && NoDuplicates(rules.allowedVolumes)
  }

  predicate CanonicalRoots(roots: Roots, normalize: Normalizer) {
    && Settled(roots.protectedPaths, normalize) && Settled(roots.monitorPaths, normalize)
    && Settled(roots.ignorePaths, normalize) && Settled(roots.allowedMountPrefixes, normalize)
    && NormalizedPaths(DefaultIgnorePaths(), normalize) <= roots.ignorePaths
    && forall p | p in roots.protectedPaths + roots.monitorPaths :: !UnderAny(p, roots.ignorePaths)
  }

  predicate CanonicalSettings(settings: Settings) {
    && InRange(settings.heartbeatSeconds, 1) && InRange(settings.processScanSeconds, 1)
    && InRange(settings.filesystemScanMs, 250) && InRange(settings.clipboardSeconds, 5)
    && InRange(settings.rateLimitSeconds, 1)
  }

  predicate Canonical(policy: Policy, normalize: Normalizer) {
    CanonicalRules(policy.rules) && CanonicalRoots(policy.roots, normalize) && CanonicalSettings(policy.settings)
  }

  // ----- a policy as JSON

  predicate Says(fields: map<Key, Json>, key: Key, value: Json) {
    key in fields && fields[key] == value
  }

  /** The object lists the names of every rule set, in any order. */
  predicate DescribesRules(fields: map<Key, Json>, rules: Rules) {
    && Elements(StringsAt(fields, AllowedProcessesKey)) == rules.allowedProcesses
    && Elements(StringsAt(fields, BlockedProcessesKey)) == rules.blockedProcesses
    && Elements(StringsAt(fields, AllowedDomainsKey)) == rules.allowedDomains
    && Elements(StringsAt(fields, BlockedDomainsKey)) == rules.blockedDomains
    && Elements(StringsAt(fields, NetworkWhitelistKey)) == rules.networkWhitelist
    && StringsAt(fields, AllowedVolumesKey) == rules.allowedVolumes
  }

  predicate DescribesRoots(fields: map<Key, Json>, roots: Roots) {
    && StringsAt(fields, ProtectedPathsKey) == roots.protectedPaths
    && StringsAt(fields, FilesystemMonitorPathsKey) == roots.monitorPaths
    && StringsAt(fields, SystemPathsToIgnoreKey) == roots.ignorePaths
    && StringsAt(fields, AllowedMountPrefixesKey) == roots.allowedMountPrefixes
  }

  predicate DescribesSettings(fields: map<Key, Json>, settings: Settings) {
    && Says(fields, HeartbeatIntervalSecondsKey, Integer(settings.heartbeatSeconds))
    && Says(fields, ProcessScanIntervalSecondsKey, Integer(settings.processScanSeconds))
    && Says(fields, FilesystemScanIntervalMsKey, Integer(settings.filesystemScanMs))
    && Says(fields, ClipboardClearIntervalSecondsKey, Integer(settings.clipboardSeconds))
    && Says(fields, NotificationRateLimitSecondsKey, Integer(settings.rateLimitSeconds))
    && Says(fields, DebugModeKey, Bool(settings.debug))
    && Says(fields, ClearClipboardKey, Bool(settings.clearClipboard))
    && Says(fields, FilesystemNotificationsEnabledKey, Bool(settings.notifications))
  }

  predicate Describes(fields: map<Key, Json>, policy: Policy) {
    && DescribesRules(fields, policy.rules)
    && DescribesRoots(fields, policy.roots)
    && DescribesSettings(fields, policy.settings)
  }

  // ----- loading back

  lemma RulesLoadBack(fields: map<Key, Json>, rules: Rules)
    requires CanonicalRules(rules) && DescribesRules(fields, rules)
    ensures RulesIn(fields) == rules
  {
    forall key, names: set<string> | Elements(StringsAt(fields, key)) == names && Lowered(names)
      ensures LoweredSet(StringsAt(fields, key)) == names
    {
      hide StringsAt;
      var list := StringsAt(fields, key);
      assert forall n | n in list :: n in Elements(list) && Lower(n) == n;
    }
    DedupeOfDistinct(rules.allowedVolumes);
  }

  lemma {:induction false} FixedStays(paths: seq<Path>, normalize: Normalizer)
    requires Fixed(paths, normalize)
    ensures AllNormalized(paths, normalize) == paths
  {
    if paths != [] {
      FixedStays(paths[..|paths| - 1], normalize);
      assert paths == paths[..|paths| - 1] + [paths[|paths| - 1]];
    }
  }

  lemma SettledStays(paths: seq<Path>, normalize: Normalizer)
    requires Settled(paths, normalize)
    ensures NormalizedPaths(paths, normalize) == paths
  {
    FixedStays(paths, normalize);
    DedupeOfDistinct(paths);
  }

  /** What a distinct list starts with adds nothing in front of it. */
  lemma DedupeOfPrefixed<T>(a: seq<T>, b: seq<T>)
    requires a <= b && NoDuplicates(b)
    ensures Dedupe(a + b) == b
  {
    var all := a + b;
    forall i | 0 <= i < |b|
      ensures b[i] in all && FirstIndex(all, b[i]) == if i < |a| then i else |a| + i
    {
      assert all[|a| + i] == b[i];
      assert i < |a| ==> all[i] == b[i];
      var k := FirstIndex(all, b[i]);
      assert all[k] == if k < |a| then b[k] else b[k - |a|];
    }
    hide FirstIndex, Dedupe;
    assert forall x | x in all :: x in b;
    assert IsDedupeOf(b, all);
    DedupeIsTheOnlyOne(b, all);
  }

  lemma OutsideOfAll(paths: seq<Path>, roots: seq<Path>)
    requires forall p | p in paths :: !UnderAny(p, roots)
    ensures Outside(paths, roots) == paths
  {
    FilterOfAll(paths, path => !UnderAny(path, roots));
  }

  lemma RootsLoadBack(fields: map<Key, Json>, normalize: Normalizer, roots: Roots)
    requires CanonicalRoots(roots, normalize) && DescribesRoots(fields, roots)
    ensures RootsIn(fields, normalize, DefaultRoots(normalize).ignorePaths) == roots
  {
    hide NormalizedPaths, Settled, Outside, UnderAny, Dedupe, StringsAt;
    SettledStays(roots.protectedPaths, normalize);
    SettledStays(roots.monitorPaths, normalize);
    SettledStays(roots.ignorePaths, normalize);
    SettledStays(roots.allowedMountPrefixes, normalize);
    assert NoDuplicates(roots.ignorePaths) by {
      NormalizedPathsMeetSpec(roots.ignorePaths, normalize);
    }
    DedupeOfPrefixed(NormalizedPaths(DefaultIgnorePaths(), normalize), roots.ignorePaths);
    OutsideOfAll(roots.protectedPaths, roots.ignorePaths);
    OutsideOfAll(roots.monitorPaths, roots.ignorePaths);
  }

  lemma SettingsLoadBack(fields: map<Key, Json>, settings: Settings)
    requires CanonicalSettings(settings) && DescribesSettings(fields, settings)
    ensures SettingsIn(fields, DEFAULT_SETTINGS) == settings
  {
    hide ToInt32;
  }

  /** Whatever object describes a canonical policy, loading it gives the policy. */
  lemma CanonicalLoadsBack(fields: map<Key, Json>, normalize: Normalizer, policy: Policy)
    requires Canonical(policy, normalize) && Describes(fields, policy)
    ensures Loaded(Parsed(Object(fields)), normalize) == policy
  {
    hide RulesIn, RootsIn, SettingsIn;
    RulesLoadBack(fields, policy.rules);
    RootsLoadBack(fields, normalize, policy.roots);
    SettingsLoadBack(fields, policy.settings);
  }

  // ----- loaded policies are canonical

  lemma LoweredSetIsLowered(strings: seq<string>)
    ensures Lowered(LoweredSet(strings))
  {
    forall s: string
      ensures Lower(Lower(s)) == Lower(s)
    {
      LowerIsIdempotent(s);
    }
  }

  lemma {:induction false} NormalizedIsFixed(paths: seq<string>, normalize: Normalizer)
    requires Idempotent(normalize)
    ensures Fixed(AllNormalized(paths, normalize), normalize)
  {
    if paths != [] {
      NormalizedIsFixed(paths[..|paths| - 1], normalize);
    }
  }

  lemma NormalizedIsSettled(paths: seq<string>, normalize: Normalizer)
    requires Idempotent(normalize)
    ensures Settled(NormalizedPaths(paths, normalize), normalize)
  {
    hide Idempotent;
    NormalizedIsFixed(paths, normalize);
    DedupeMeetsSpec(AllNormalized(paths, normalize));
  }

  lemma DedupeIsSettled(a: seq<Path>, b: seq<Path>, normalize: Normalizer)
    requires Settled(a, normalize) && Settled(b, normalize)
    ensures Settled(Dedupe(a + b), normalize)
  {
    DedupeMeetsSpec(a + b);
  }

  lemma LoadedRootsAreCanonical(fields: map<Key, Json>, normalize: Normalizer)
    requires Idempotent(normalize)
    ensures CanonicalRoots(RootsIn(fields, normalize, DefaultRoots(normalize).ignorePaths), normalize)
  {
    hide Idempotent, NormalizedPaths, Outside, UnderAny, Dedupe, StringsAt, DefaultIgnorePaths;
    var defaults := NormalizedPaths(DefaultIgnorePaths(), normalize);
    var extra := NormalizedPaths(StringsAt(fields, SystemPathsToIgnoreKey), normalize);
    NormalizedIsSettled(DefaultIgnorePaths(), normalize);
    NormalizedIsSettled(StringsAt(fields, SystemPathsToIgnoreKey), normalize);
    NormalizedIsSettled(StringsAt(fields, ProtectedPathsKey), normalize);
    NormalizedIsSettled(StringsAt(fields, FilesystemMonitorPathsKey), normalize);
    NormalizedIsSettled(StringsAt(fields, AllowedMountPrefixesKey), normalize);
    DedupeIsSettled(defaults, extra, normalize);
    DedupeOfDistinct(defaults);
    DedupeKeepsPrefix(defaults, extra);
    OutsideMeetsSpec(NormalizedPaths(StringsAt(fields, ProtectedPathsKey), normalize), Dedupe(defaults + extra));
    OutsideMeetsSpec(NormalizedPaths(StringsAt(fields, FilesystemMonitorPathsKey), normalize), Dedupe(defaults + extra));
  }

  lemma LoadedIsCanonical(file: File, normalize: Normalizer)
    requires Idempotent(normalize)
    ensures Canonical(Loaded(file, normalize), normalize)
  {
    hide CanonicalRoots, LoweredSet, Idempotent;
    if Loads(file) {
      var fields := file.json.fields;
      LoweredSetIsLowered(StringsAt(fields, AllowedProcessesKey));
      LoweredSetIsLowered(StringsAt(fields, BlockedProcessesKey));
      LoweredSetIsLowered(StringsAt(fields, AllowedDomainsKey));
      LoweredSetIsLowered(StringsAt(fields, BlockedDomainsKey));
      DedupeMeetsSpec(StringsAt(fields, AllowedVolumesKey));
      LoadedRootsAreCanonical(fields, normalize);
    } else {
      DefaultsAreCanonical(normalize);
    }
  }

  lemma DefaultsAreCanonical(normalize: Normalizer)
    requires Idempotent(normalize)
    ensures Canonical(Defaults(normalize), normalize)
  {
    hide Idempotent, NormalizedPaths;
    NormalizedIsSettled(DefaultIgnorePaths(), normalize);
  }

  // ----- writing a policy

  lemma {:induction false} ListOf(names: set<string>) returns (list: seq<string>)
    ensures Elements(list) == names
  {
    if names == {} {
      list := [];
    } else {
      var n :| n in names;
      var rest := ListOf(names - {n});
      list := rest + [n];
      assert forall x :: x in list <==> x in Elements(rest) || x == n;
    }
  }

  lemma {:induction false} OnlyStringsOfStrings(list: seq<string>)
    ensures OnlyStrings(Strings(list).items) == list
  {
    if list != [] {
      var n := |list| - 1;
      OnlyStringsOfStrings(list[..n]);
      assert Strings(list).items[..n] == Strings(list[..n]).items;
      assert list == list[..n] + [list[n]];
    }
  }

  lemma StringsAtKey(fields: map<Key, Json>, key: Key, list: seq<string>)
    requires Says(fields, key, Strings(list))
    ensures StringsAt(fields, key) == list
  {
    OnlyStringsOfStrings(list);
  }

  /** Which part of the policy a key belongs to. */
  datatype Part = RulesPart | RootsPart | SettingsPart | NoPart

  function PartOfKey(key: Key): Part {
    match key
    case AllowedProcessesKey | BlockedProcessesKey | AllowedDomainsKey | BlockedDomainsKey
      | NetworkWhitelistKey | AllowedVolumesKey => RulesPart
    case ProtectedPathsKey | FilesystemMonitorPathsKey | SystemPathsToIgnoreKey | AllowedMountPrefixesKey => RootsPart
    case OtherKey(_) => NoPart
    case _ => SettingsPart
  }

  function WrittenSettings(settings: Settings): (fields: map<Key, Json>)
    ensures forall key | key in fields :: PartOfKey(key).SettingsPart?
  {
    map[
      HeartbeatIntervalSecondsKey := Integer(settings.heartbeatSeconds),
      ProcessScanIntervalSecondsKey := Integer(settings.processScanSeconds),
      FilesystemScanIntervalMsKey := Integer(settings.filesystemScanMs),
      ClipboardClearIntervalSecondsKey := Integer(settings.clipboardSeconds),
      NotificationRateLimitSecondsKey := Integer(settings.rateLimitSeconds),
      DebugModeKey := Bool(settings.debug),
      ClearClipboardKey := Bool(settings.clearClipboard),
      FilesystemNotificationsEnabledKey := Bool(settings.notifications)]
  }

  function WrittenRoots(roots: Roots): (fields: map<Key, Json>)
    ensures forall key | key in fields :: PartOfKey(key).RootsPart?
  {
    map[
      ProtectedPathsKey := Strings(roots.protectedPaths),
      FilesystemMonitorPathsKey := Strings(roots.monitorPaths),
      SystemPathsToIgnoreKey := Strings(roots.ignorePaths),
      AllowedMountPrefixesKey := Strings(roots.allowedMountPrefixes)]
  }

  lemma WriteRules(rules: Rules) returns (fields: map<Key, Json>)
    ensures DescribesRules(fields, rules)
    ensures forall key | key in fields :: PartOfKey(key).RulesPart?
    ensures {AllowedProcessesKey, BlockedProcessesKey, AllowedDomainsKey, BlockedDomainsKey,
             NetworkWhitelistKey, AllowedVolumesKey} <= fields.Keys
  {
    hide StringsAt, Strings;
    var allowedProcesses := ListOf(rules.allowedProcesses);
    var blockedProcesses := ListOf(rules.blockedProcesses);
    var allowedDomains := ListOf(rules.allowedDomains);
    var blockedDomains := ListOf(rules.blockedDomains);
    var whitelist := ListOf(rules.networkWhitelist);
    fields := map[
      AllowedProcessesKey := Strings(allowedProcesses),
      BlockedProcessesKey := Strings(blockedProcesses),
      AllowedDomainsKey := Strings(allowedDomains),
      BlockedDomainsKey := Strings(blockedDomains),
      NetworkWhitelistKey := Strings(whitelist),
      AllowedVolumesKey := Strings(rules.allowedVolumes)];
    StringsAtKey(fields, AllowedProcessesKey, allowedProcesses);
    StringsAtKey(fields, BlockedProcessesKey, blockedProcesses);
    StringsAtKey(fields, AllowedDomainsKey, allowedDomains);
    StringsAtKey(fields, BlockedDomainsKey, blockedDomains);
    StringsAtKey(fields, NetworkWhitelistKey, whitelist);
    StringsAtKey(fields, AllowedVolumesKey, rules.allowedVolumes);
  }

  predicate PartOf(part: map<Key, Json>, all: map<Key, Json>) {
    forall key | key in part :: key in all && all[key] == part[key]
  }

  lemma RulesInPart(part: map<Key, Json>, all: map<Key, Json>, rules: Rules)
    requires DescribesRules(part, rules) && PartOf(part, all)
    requires {AllowedProcessesKey, BlockedProcessesKey, AllowedDomainsKey, BlockedDomainsKey,
              NetworkWhitelistKey, AllowedVolumesKey} <= part.Keys
    ensures DescribesRules(all, rules)
  {
    forall key | key in part
      ensures StringsAt(all, key) == StringsAt(part, key)
    {
    }
    hide StringsAt;
  }

  lemma RootsInPart(all: map<Key, Json>, roots: Roots)
    requires PartOf(WrittenRoots(roots), all)
    ensures DescribesRoots(all, roots)
  {
    hide StringsAt, Strings;
    var part := WrittenRoots(roots);
    assert ProtectedPathsKey in part && FilesystemMonitorPathsKey in part
        && SystemPathsToIgnoreKey in part && AllowedMountPrefixesKey in part;
    StringsAtKey(all, ProtectedPathsKey, roots.protectedPaths);
    StringsAtKey(all, FilesystemMonitorPathsKey, roots.monitorPaths);
    StringsAtKey(all, SystemPathsToIgnoreKey, roots.ignorePaths);
    StringsAtKey(all, AllowedMountPrefixesKey, roots.allowedMountPrefixes);
  }

  lemma SettingsInPart(all: map<Key, Json>, settings: Settings)
    requires PartOf(WrittenSettings(settings), all)
    ensures DescribesSettings(all, settings)
  {
    var part := WrittenSettings(settings);
    assert HeartbeatIntervalSecondsKey in part && ProcessScanIntervalSecondsKey in part
        && FilesystemScanIntervalMsKey in part && ClipboardClearIntervalSecondsKey in part
        && NotificationRateLimitSecondsKey in part && DebugModeKey in part
        && ClearClipboardKey in part && FilesystemNotificationsEnabledKey in part;
  }

  /** Every policy can be written out. */
  lemma Write(policy: Policy) returns (fields: map<Key, Json>)
    ensures Describes(fields, policy)
  {
    hide PartOfKey, WrittenRoots, WrittenSettings, DescribesRules, DescribesRoots, DescribesSettings;
    var rules := WriteRules(policy.rules);
    fields := rules + WrittenRoots(policy.roots) + WrittenSettings(policy.settings);
    RulesInPart(rules, fields, policy.rules);
    RootsInPart(fields, policy.roots);
    SettingsInPart(fields, policy.settings);
  }

  /** The policies that loading can produce are exactly the canonical ones. */
  lemma LoadableIffCanonical(policy: Policy, normalize: Normalizer)
    requires Idempotent(normalize)
    ensures (exists file :: Loaded(file, normalize) == policy) <==> Canonical(policy, normalize)
  {
    hide Loaded, Describes, Idempotent, Canonical;
    if exists file :: Loaded(file, normalize) == policy {
      var file :| Loaded(file, normalize) == policy;
      LoadedIsCanonical(file, normalize);
    }
    if Canonical(policy, normalize) {
      var fields := Write(policy);
      CanonicalLoadsBack(fields, normalize, policy);
      assert Loaded(Parsed(Object(fields)), normalize) == policy;
    }
  }

  // ----- the file that the constructor creates

  lemma NothingCreatedAt(path: string, key: Key)
    requires PartOfKey(key).RulesPart?
    ensures StringsAt(CreatedFields(path), key) == []
  {
    assert Says(CreatedFields(path), key, Strings([]));
    hide CreatedFields;
    StringsAtKey(CreatedFields(path), key, []);
  }

  lemma CreatedRules(path: string)
    ensures RulesIn(CreatedFields(path)) == DEFAULT_RULES
  {
    hide CreatedFields, StringsAt;
    NothingCreatedAt(path, AllowedProcessesKey);
    NothingCreatedAt(path, BlockedProcessesKey);
    NothingCreatedAt(path, AllowedDomainsKey);
    NothingCreatedAt(path, BlockedDomainsKey);
    NothingCreatedAt(path, NetworkWhitelistKey);
    NothingCreatedAt(path, AllowedVolumesKey);
  }

  lemma CreatedSettings(path: string)
    ensures SettingsIn(CreatedFields(path), DEFAULT_SETTINGS) == DEFAULT_SETTINGS
  {
  }

  lemma CreatedRoots(path: string, normalize: Normalizer)
    ensures var ignore := DefaultRoots(normalize).ignorePaths;
            RootsIn(CreatedFields(path), normalize, ignore)
              == DefaultRoots(normalize).(protectedPaths := Outside(NormalizedPaths([path], normalize), ignore))
  {
    var fields := CreatedFields(path);
    assert Says(fields, ProtectedPathsKey, Strings([path]));
    assert DefaultIgnorePaths() ==
           ["/System/Library/", "/usr/libexec/", "/usr/sbin/", "/sbin/", "/bin/", "/usr/bin/", "/usr/local/"];
    assert Says(fields, SystemPathsToIgnoreKey, Strings(DefaultIgnorePaths()));
    assert Says(fields, FilesystemMonitorPathsKey, Strings([])) && Says(fields, AllowedMountPrefixesKey, Strings([]));
    hide CreatedFields, StringsAt, Strings, DefaultIgnorePaths, Outside;
    StringsAtKey(fields, ProtectedPathsKey, [path]);
    StringsAtKey(fields, SystemPathsToIgnoreKey, DefaultIgnorePaths());
    StringsAtKey(fields, FilesystemMonitorPathsKey, []);
    StringsAtKey(fields, AllowedMountPrefixesKey, []);
    var ignore := NormalizedPaths(DefaultIgnorePaths(), normalize);
    NormalizedPathsMeetSpec(DefaultIgnorePaths(), normalize);
    DedupeOfPrefixed(ignore, ignore);
    assert NormalizedPaths([], normalize) == [];
    OutsideOfAll([], ignore);
  }

  /**
   The file that the constructor creates when it can load none loads as the defaults,
   but for one protected path: it is not the policy that stands when the file cannot be created.
   */
  lemma CreatedFileLoadsDefaults(path: string, normalize: Normalizer)
    ensures var defaults := Defaults(normalize);
            Loaded(Parsed(Object(CreatedFields(path))), normalize)
              == defaults.(roots := defaults.roots.(protectedPaths :=
                   Outside(NormalizedPaths([path], normalize), defaults.roots.ignorePaths)))
  {
    hide CreatedFields, RulesIn, RootsIn, SettingsIn;
    CreatedRules(path);
    CreatedSettings(path);
    CreatedRoots(path, normalize);
  }
}

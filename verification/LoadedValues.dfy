/**
 What a loaded policy contains, in terms of the strings and numbers of the file: for
 any JSON object and any normalisation, whether the policy is canonical or not.
 */
module LoadedValues {
  import opened Config
  import opened Lists
  import opened Paths
  import opened Policy
  import opened Text
  import opened Wrappers

  /** The file has the string in the list at the key. */
  predicate FileLists(fields: map<Key, Json>, key: Key, s: string) {
    key in fields && fields[key].Array? && String(s) in fields[key].items
  }

  lemma {:induction false} OnlyStringsMembers(items: seq<Json>, s: string)
    ensures s in OnlyStrings(items) <==> String(s) in items
  {
    if items != [] {
      OnlyStringsMembers(items[..|items| - 1], s);
      assert items == items[..|items| - 1] + [items[|items| - 1]];
    }
  }

  lemma StringsAtMembers(fields: map<Key, Json>, key: Key, s: string)
    ensures s in StringsAt(fields, key) <==> FileLists(fields, key, s)
  {
    if key in fields && fields[key].Array? {
      OnlyStringsMembers(fields[key].items, s);
    }
  }

  /** Entries that are no strings make no difference, wherever they stand. */
  lemma {:induction false} OtherEntriesAreSkipped(a: seq<Json>, other: Json, b: seq<Json>)
    requires !other.String?
    ensures OnlyStrings(a + [other] + b) == OnlyStrings(a + b)
  {
    if b == [] {
      assert (a + [other] + b)[..|a|] == a && a + b == a;
    } else {
      var n := |b| - 1;
      OtherEntriesAreSkipped(a, other, b[..n]);
      assert (a + [other] + b)[..|a| + 1 + n] == a + [other] + b[..n];
      assert (a + b)[..|a| + n] == a + b[..n];
    }
  }

  // ----- names

  predicate IsNameKey(key: Key) {
    key.AllowedProcessesKey? || key.BlockedProcessesKey? || key.AllowedDomainsKey? || key.BlockedDomainsKey?
  }

  function NamesAt(rules: Rules, key: Key): set<string>
    requires IsNameKey(key)
  {
    match key
    case AllowedProcessesKey => rules.allowedProcesses
    case BlockedProcessesKey => rules.blockedProcesses
    case AllowedDomainsKey => rules.allowedDomains
    case BlockedDomainsKey => rules.blockedDomains
  }

  /** A name is loaded exactly if the file lists it in some case of letters. */
  lemma NamesLoaded(fields: map<Key, Json>, normalize: Normalizer, key: Key, name: string)
    requires IsNameKey(key)
    ensures name in NamesAt(Loaded(Parsed(Object(fields)), normalize).rules, key) <==>
              exists s: string :: FileLists(fields, key, s) && Lower(s) == name
  {
    hide StringsAt, FileLists, Lower, RootsIn, SettingsIn;
    forall s: string
      ensures s in StringsAt(fields, key) <==> FileLists(fields, key, s)
    {
      StringsAtMembers(fields, key, s);
    }
    assert NamesAt(Loaded(Parsed(Object(fields)), normalize).rules, key) == LoweredSet(StringsAt(fields, key));
  }

  /** Volumes and the whitelist are loaded as they are written. */
  lemma ListedLoaded(fields: map<Key, Json>, normalize: Normalizer, s: string)
    ensures var rules := Loaded(Parsed(Object(fields)), normalize).rules;
            && (s in rules.allowedVolumes <==> FileLists(fields, AllowedVolumesKey, s))
            && (s in rules.networkWhitelist <==> FileLists(fields, NetworkWhitelistKey, s))
  {
    StringsAtMembers(fields, AllowedVolumesKey, s);
    StringsAtMembers(fields, NetworkWhitelistKey, s);
    DedupeHasSameElements(StringsAt(fields, AllowedVolumesKey));
  }

  /** The verdict on a process from the file: its blocked names in any case of letters, then its allowed ones. */
  lemma ProcessVerdictOfFile(fields: map<Key, Json>, normalize: Normalizer, process: string)
    ensures ProcessAllowed(Loaded(Parsed(Object(fields)), normalize).rules, process) <==>
              && (forall s: string | FileLists(fields, BlockedProcessesKey, s) :: Lower(s) !in ProcessKeys(process))
              && (|| (forall s: string :: !FileLists(fields, AllowedProcessesKey, s))
                  || exists s: string :: FileLists(fields, AllowedProcessesKey, s) && Lower(s) in ProcessKeys(process))
  {
    var rules := Loaded(Parsed(Object(fields)), normalize).rules;
    hide FileLists, Lower, Loaded, ProcessAllowed, ProcessKeys;
    ProcessVerdict(rules, process);
    forall name: string
      ensures name in rules.blockedProcesses <==> exists s: string :: FileLists(fields, BlockedProcessesKey, s) && Lower(s) == name
      ensures name in rules.allowedProcesses <==> exists s: string :: FileLists(fields, AllowedProcessesKey, s) && Lower(s) == name
    {
      NamesLoaded(fields, normalize, BlockedProcessesKey, name);
      NamesLoaded(fields, normalize, AllowedProcessesKey, name);
    }
    if s: string :| FileLists(fields, AllowedProcessesKey, s) && Lower(s) in ProcessKeys(process) {
      assert Lower(s) in ProcessKeys(process) * rules.allowedProcesses;
    }
    if s: string :| FileLists(fields, AllowedProcessesKey, s) {
      assert Lower(s) in rules.allowedProcesses;
    }
    if name :| name in rules.allowedProcesses {
      assert exists s: string :: FileLists(fields, AllowedProcessesKey, s) && Lower(s) == name;
    }
  }

  /** The verdict on a domain from the file. */
  lemma DomainVerdictOfFile(fields: map<Key, Json>, normalize: Normalizer, domain: string)
    ensures DomainAllowed(Loaded(Parsed(Object(fields)), normalize).rules, domain) <==>
              && (forall s: string | FileLists(fields, BlockedDomainsKey, s) :: !Covers(Lower(domain), Lower(s)))
              && (|| (forall s: string :: !FileLists(fields, AllowedDomainsKey, s))
                  || exists s: string :: FileLists(fields, AllowedDomainsKey, s) && Covers(Lower(domain), Lower(s)))
  {
    var rules := Loaded(Parsed(Object(fields)), normalize).rules;
    hide FileLists, Lower, Loaded, DomainAllowed, Covers;
    DomainVerdict(rules, domain);
    forall name: string
      ensures name in rules.blockedDomains <==> exists s: string :: FileLists(fields, BlockedDomainsKey, s) && Lower(s) == name
      ensures name in rules.allowedDomains <==> exists s: string :: FileLists(fields, AllowedDomainsKey, s) && Lower(s) == name
    {
      NamesLoaded(fields, normalize, BlockedDomainsKey, name);
      NamesLoaded(fields, normalize, AllowedDomainsKey, name);
    }
    if s: string :| FileLists(fields, AllowedDomainsKey, s) {
      assert Lower(s) in rules.allowedDomains;
    }
    if name :| name in rules.allowedDomains {
      assert exists s: string :: FileLists(fields, AllowedDomainsKey, s) && Lower(s) == name;
    }
  }

  // ----- paths

  lemma {:induction false} NormalizedMembers(paths: seq<string>, normalize: Normalizer, p: Path)
    ensures p in NormalizedPaths(paths, normalize) <==>
              p != "" && exists s | s in paths :: normalize(s) == Some(p)
  {
    DedupeHasSameElements(AllNormalized(paths, normalize));
    AllNormalizedMembers(paths, normalize, p);
  }

  lemma {:induction false} AllNormalizedMembers(paths: seq<string>, normalize: Normalizer, p: Path)
    ensures p in AllNormalized(paths, normalize) <==>
              p != "" && exists s | s in paths :: normalize(s) == Some(p)
  {
    if paths != [] {
      AllNormalizedMembers(paths[..|paths| - 1], normalize, p);
      assert paths == paths[..|paths| - 1] + [paths[|paths| - 1]];
    }
  }

  lemma {:induction false} AllNormalizedDistributes(a: seq<string>, b: seq<string>, normalize: Normalizer)
    ensures AllNormalized(a + b, normalize) == AllNormalized(a, normalize) + AllNormalized(b, normalize)
  {
    if b == [] {
      assert a + b == a;
    } else {
      AllNormalizedDistributes(a, b[..|b| - 1], normalize);
      assert (a + b)[..|a + b| - 1] == a + b[..|b| - 1];
    }
  }

  /** Normalising keeps the order: what comes later in the file comes later in the list, or is there already. */
  lemma NormalizedInOrder(a: seq<string>, b: seq<string>, normalize: Normalizer)
    ensures NormalizedPaths(a, normalize) <= NormalizedPaths(a + b, normalize)
  {
    AllNormalizedDistributes(a, b, normalize);
    DedupeKeepsPrefix(AllNormalized(a, normalize), AllNormalized(b, normalize));
  }

  /** The file lists a string that is normalised to the path. */
  ghost predicate Names(fields: map<Key, Json>, key: Key, normalize: Normalizer, p: Path) {
    p != "" && exists s: string :: FileLists(fields, key, s) && normalize(s) == Some(p)
  }

  lemma NormalizedOfFile(fields: map<Key, Json>, key: Key, normalize: Normalizer, p: Path)
    ensures p in NormalizedPaths(StringsAt(fields, key), normalize) <==> Names(fields, key, normalize, p)
  {
    hide StringsAt, FileLists, NormalizedPaths;
    NormalizedMembers(StringsAt(fields, key), normalize, p);
    forall s: string
      ensures s in StringsAt(fields, key) <==> FileLists(fields, key, s)
    {
      StringsAtMembers(fields, key, s);
    }
  }

  /**
   Which paths are loaded: ignored are those of the file and the defaults; protected and
   monitored those of the file outside all ignored ones; mount prefixes those of the file.
   */
  lemma PathsLoaded(fields: map<Key, Json>, normalize: Normalizer, p: Path)
    ensures var roots := Loaded(Parsed(Object(fields)), normalize).roots;
            && (p in roots.ignorePaths <==>
                  || Names(fields, SystemPathsToIgnoreKey, normalize, p)
                  || (p != "" && exists s | s in DefaultIgnorePaths() :: normalize(s) == Some(p)))
            && (p in roots.protectedPaths <==>
                  Names(fields, ProtectedPathsKey, normalize, p) && !UnderAny(p, roots.ignorePaths))
            && (p in roots.monitorPaths <==>
                  Names(fields, FilesystemMonitorPathsKey, normalize, p) && !UnderAny(p, roots.ignorePaths))
            && (p in roots.allowedMountPrefixes <==> Names(fields, AllowedMountPrefixesKey, normalize, p))
  {
    hide StringsAt, Names, NormalizedPaths, UnderAny, Outside, Dedupe, RulesIn, SettingsIn, DefaultIgnorePaths;
    var roots := Loaded(Parsed(Object(fields)), normalize).roots;
    var defaults := NormalizedPaths(DefaultIgnorePaths(), normalize);
    var extra := NormalizedPaths(StringsAt(fields, SystemPathsToIgnoreKey), normalize);
    DedupeHasSameElements(defaults + extra);
    NormalizedMembers(DefaultIgnorePaths(), normalize, p);
    NormalizedOfFile(fields, SystemPathsToIgnoreKey, normalize, p);
    NormalizedOfFile(fields, ProtectedPathsKey, normalize, p);
    NormalizedOfFile(fields, FilesystemMonitorPathsKey, normalize, p);
    NormalizedOfFile(fields, AllowedMountPrefixesKey, normalize, p);
    OutsideMeetsSpec(NormalizedPaths(StringsAt(fields, ProtectedPathsKey), normalize), roots.ignorePaths);
    OutsideMeetsSpec(NormalizedPaths(StringsAt(fields, FilesystemMonitorPathsKey), normalize), roots.ignorePaths);
  }

  /** Filtering out ignored roots keeps the order of the others. */
  lemma OutsideDistributes(a: seq<Path>, b: seq<Path>, roots: seq<Path>)
    ensures Outside(a + b, roots) == Outside(a, roots) + Outside(b, roots)
  {
    FilterDistributes(a, b, path => !UnderAny(path, roots));
  }

  // ----- switches and numbers

  function DefaultAt(key: Key): int
    requires IsIntegerKey(key)
  {
    match key
    case HeartbeatIntervalSecondsKey => 120
    case ProcessScanIntervalSecondsKey => 10
    case FilesystemScanIntervalMsKey => 2000
    case ClipboardClearIntervalSecondsKey => 15
    case NotificationRateLimitSecondsKey => 5
  }

  /** A number that the file does not give, or not as an integer, is the default. */
  lemma MissingNumbers(file: File, normalize: Normalizer, key: Key)
    requires IsIntegerKey(key)
    requires Loads(file) ==> key !in file.json.fields || !file.json.fields[key].Integer?
    ensures SettingAt(Loaded(file, normalize).settings, key) == DefaultAt(key)
  {
  }

  /** A number that is too small, and within 32 bits, is the default or the minimum; any other one is kept. */
  lemma GivenNumbers(fields: map<Key, Json>, normalize: Normalizer, key: Key, n: int)
    requires IsIntegerKey(key) && key in fields && fields[key] == Integer(n) && -0x8000_0000 <= n < 0x8000_0000
    ensures SettingAt(Loaded(Parsed(Object(fields)), normalize).settings, key) ==
            if n >= LeastAt(key) then n
            else if key.HeartbeatIntervalSecondsKey? || key.ProcessScanIntervalSecondsKey? then DefaultAt(key)
            else LeastAt(key)
  {
    hide ToInt32, RulesIn, RootsIn;
  }

  predicate IsSwitchKey(key: Key) {
    key.DebugModeKey? || key.ClearClipboardKey? || key.FilesystemNotificationsEnabledKey?
  }

  function SwitchAt(settings: Settings, key: Key): bool
    requires IsSwitchKey(key)
  {
    match key
    case DebugModeKey => settings.debug
    case ClearClipboardKey => settings.clearClipboard
    case FilesystemNotificationsEnabledKey => settings.notifications
  }

  /** A switch is as the file says; otherwise debug mode and notifications are on, and the clipboard is left alone. */
  lemma SwitchesLoaded(file: File, normalize: Normalizer, key: Key)
    requires IsSwitchKey(key)
    ensures var value := SwitchAt(Loaded(file, normalize).settings, key);
            if Loads(file) && key in file.json.fields && file.json.fields[key].Bool? then value == file.json.fields[key].b
            else value == !key.ClearClipboardKey?
  {
  }
}

/** The loaded policy, and the verdicts on processes, domains and mounts that it gives. */
module Policy {
  import opened Paths
  import opened Text

  /** Names of processes, domains and volumes. */
  datatype Rules = Rules(
    allowedProcesses: set<string>,
    blockedProcesses: set<string>,
    allowedDomains: set<string>,
    blockedDomains: set<string>,
    networkWhitelist: set<string>,
    allowedVolumes: seq<string>)

  /** Normalised paths. */
  datatype Roots = Roots(
    protectedPaths: seq<Path>,
    monitorPaths: seq<Path>,
    ignorePaths: seq<Path>,
    allowedMountPrefixes: seq<Path>)

  /** Intervals and switches. */
  datatype Settings = Settings(
    heartbeatSeconds: int,
    processScanSeconds: int,
    filesystemScanMs: int,
    clipboardSeconds: int,
    rateLimitSeconds: int,
    debug: bool,
    clearClipboard: bool,
    notifications: bool)

  datatype Policy = Policy(rules: Rules, roots: Roots, settings: Settings)

  // ----- domains

  /** `match_domain_pattern`. */
  predicate MatchesPattern(domain: string, pattern: string) {
    if pattern == "*" then true
    else if |pattern| > 2 && pattern[0] == '*' && pattern[1] == '.' then
      var suffix := pattern[2..];
      if |domain| <= |suffix| then false
      else if domain[|domain| - |suffix|..] != suffix then false
      else domain[|domain| - |suffix| - 1] == '.'
    else domain == pattern
  }

  /** A wildcard matches exactly the domains with something, possibly nothing, before the dot. */
  lemma WildcardMeaning(domain: string, suffix: string)
    requires suffix != ""
    ensures MatchesPattern(domain, "*." + suffix) <==> exists sub: string :: domain == sub + "." + suffix
  {
    var pattern := "*." + suffix;
    assert pattern[2..] == suffix;
    if MatchesPattern(domain, pattern) {
      var k := |domain| - |suffix| - 1;
      assert domain == domain[..k] + "." + suffix;
    }
    if exists sub: string :: domain == sub + "." + suffix {
      var sub: string :| domain == sub + "." + suffix;
      assert domain[|domain| - |suffix|..] == suffix;
    }
  }

  /** Apart from `*` and the wildcards, a pattern matches only itself, `*.` included. */
  lemma PatternMeaning(domain: string, pattern: string)
    ensures MatchesPattern(domain, pattern) <==>
              || pattern == "*"
              || (domain == pattern && !(|pattern| > 2 && "*." <= pattern))
              || exists sub: string, suffix: string | pattern == "*." + suffix && suffix != "" :: domain == sub + "." + suffix
  {
    if |pattern| > 2 && "*." <= pattern {
      var suffix := pattern[2..];
      assert pattern == "*." + suffix;
      WildcardMeaning(domain, suffix);
      assert forall other: string | pattern == "*." + other :: other == pattern[2..];
    }
  }

  /** What a pattern covers, in terms of whole strings. */
  ghost predicate Covers(domain: string, pattern: string) {
    || pattern == "*"
    || (domain == pattern && !(|pattern| > 2 && "*." <= pattern))
    || exists sub: string, suffix: string | pattern == "*." + suffix && suffix != "" :: domain == sub + "." + suffix
  }

  /** Blocking wins over allowing; without allowed patterns, all that is not blocked is allowed. */
  lemma DomainVerdict(rules: Rules, domain: string)
    ensures DomainAllowed(rules, domain) <==>
              && (forall p | p in rules.blockedDomains :: !Covers(Lower(domain), p))
              && (rules.allowedDomains == {} || exists p | p in rules.allowedDomains :: Covers(Lower(domain), p))
  {
    hide Covers, MatchesPattern;
    forall p
      ensures MatchesPattern(Lower(domain), p) <==> Covers(Lower(domain), p)
    {
      CoversIsMatch(Lower(domain), p);
    }
  }

  lemma CoversIsMatch(domain: string, pattern: string)
    ensures MatchesPattern(domain, pattern) <==> Covers(domain, pattern)
  {
    PatternMeaning(domain, pattern);
  }

  /** The verdict of `isDomainAllowed`. */
  ghost predicate DomainAllowed(rules: Rules, domain: string) {
    var name := Lower(domain);
    && !(exists p | p in rules.blockedDomains :: MatchesPattern(name, p))
    && (rules.allowedDomains == {} || exists p | p in rules.allowedDomains :: MatchesPattern(name, p))
  }

  /** The verdict ignores the case of ASCII letters. */
  lemma DomainCaseIsIgnored(rules: Rules, a: string, b: string)
    requires Lower(a) == Lower(b)
    ensures DomainAllowed(rules, a) == DomainAllowed(rules, b)
  {
  }

  /** More blocked patterns never permit a domain; more allowed ones, beside others, never forbid one. */
  lemma DomainVerdictIsMonotone(rules: Rules, stricter: Rules, wider: Rules, domain: string)
    requires rules.blockedDomains <= stricter.blockedDomains && stricter.allowedDomains == rules.allowedDomains
    requires wider.blockedDomains == rules.blockedDomains && {} < rules.allowedDomains <= wider.allowedDomains
    ensures DomainAllowed(stricter, domain) ==> DomainAllowed(rules, domain)
    ensures DomainAllowed(rules, domain) ==> DomainAllowed(wider, domain)
  {
  }

  /** Naming a first allowed pattern can forbid a domain: the list was open before. */
  lemma FirstAllowedPatternForbids(rules: Rules, domain: string, pattern: string)
    requires rules.allowedDomains == {} && DomainAllowed(rules, domain)
    ensures DomainAllowed(rules.(allowedDomains := {pattern}), domain) <==> MatchesPattern(Lower(domain), pattern)
  {
    var closed := rules.(allowedDomains := {pattern});
    assert pattern in closed.allowedDomains;
  }

  /** The loops of `isDomainAllowed`; the sets are visited in any order. */
  method IsDomainAllowed(rules: Rules, domain: string) returns (allowed: bool)
    ensures allowed == DomainAllowed(rules, domain)
  {
    var name := Lower(domain);
    var rest := rules.blockedDomains;
    while rest != {}
      invariant rest <= rules.blockedDomains
      invariant forall p | p in rules.blockedDomains && p !in rest :: !MatchesPattern(name, p)
      decreases |rest|
    {
      var pattern :| pattern in rest;
      if MatchesPattern(name, pattern) {
        return false;
      }
      rest := rest - {pattern};
    }
    if rules.allowedDomains == {} {
      return true;
    }
    rest := rules.allowedDomains;
    while rest != {}
      invariant rest <= rules.allowedDomains
      invariant forall p | p in rules.allowedDomains && p !in rest :: !MatchesPattern(name, p)
      decreases |rest|
    {
      var pattern :| pattern in rest;
      if MatchesPattern(name, pattern) {
        return true;
      }
      rest := rest - {pattern};
    }
    return false;
  }

  // ----- processes

  /** The name `isProcessAllowed` looks up besides the full path. */
  function ProcessBasename(normalized: string): string {
    if normalized != "" && normalized[|normalized| - 1] == '/' then normalized else Basename(normalized)
  }

  /** The verdict of `isProcessAllowed`. */
  predicate ProcessAllowed(rules: Rules, name: string) {
    var normalized := Lower(name);
    var basename := ProcessBasename(normalized);
    if normalized in rules.blockedProcesses then false
    else if basename != "" && basename in rules.blockedProcesses then false
    else if rules.allowedProcesses == {} then true
    else if normalized in rules.allowedProcesses then true
    else basename != "" && basename in rules.allowedProcesses
  }

  /** The names under which the rules may speak of a process. */
  function ProcessKeys(name: string): set<string> {
    var basename := ProcessBasename(Lower(name));
    {Lower(name)} + if basename == "" then {} else {basename}
  }

  /** The early exits amount to: no name is blocked, and some name is allowed unless there is no allowed name at all. */
  lemma ProcessVerdict(rules: Rules, name: string)
    ensures ProcessAllowed(rules, name) <==>
              && ProcessKeys(name) !! rules.blockedProcesses
              && (rules.allowedProcesses == {} || ProcessKeys(name) * rules.allowedProcesses != {})
  {
    var basename := ProcessBasename(Lower(name));
    assert Lower(name) in ProcessKeys(name) && (basename != "" ==> basename in ProcessKeys(name));
    if Lower(name) in rules.allowedProcesses {
      assert Lower(name) in ProcessKeys(name) * rules.allowedProcesses;
    }
    if basename != "" && basename in rules.allowedProcesses {
      assert basename in ProcessKeys(name) * rules.allowedProcesses;
    }
  }

  /** More blocked names never permit a process; more allowed ones, beside others, never forbid one. */
  lemma ProcessVerdictIsMonotone(rules: Rules, stricter: Rules, wider: Rules, name: string)
    requires rules.blockedProcesses <= stricter.blockedProcesses && stricter.allowedProcesses == rules.allowedProcesses
    requires wider.blockedProcesses == rules.blockedProcesses && {} < rules.allowedProcesses <= wider.allowedProcesses
    ensures ProcessAllowed(stricter, name) ==> ProcessAllowed(rules, name)
    ensures ProcessAllowed(rules, name) ==> ProcessAllowed(wider, name)
  {
  }

  lemma BasenameOfChild(directory: string, name: string)
    requires '/' !in name
    ensures Basename(directory + "/" + name) == name == Basename(name)
  {
    var path := directory + "/" + name;
    forall i | |directory| < i < |path|
      ensures path[i] != '/'
    {
      assert path[i] in name;
    }
    BasenameFollowsLastSlash(path, |directory|);
    BasenameFollowsLastSlash(name, -1);
  }

  lemma LastOfChild(directory: string, name: string)
    requires name != "" && '/' !in name
    ensures ProcessBasename(Lower(directory + "/" + name)) == Basename(Lower(directory + "/" + name))
    ensures ProcessBasename(Lower(name)) == Basename(Lower(name))
  {
    var path := directory + "/" + name;
    assert path[|path| - 1] == name[|name| - 1];
    assert name[|name| - 1] in name;
  }

  /** The rules may name a process by its path or by its file name; a name without slashes is both. */
  lemma KeysOfProcess(directory: string, name: string)
    requires name != "" && '/' !in name
    ensures ProcessKeys(directory + "/" + name) == {Lower(directory + "/" + name), Lower(name)}
    ensures ProcessKeys(name) == {Lower(name)}
    ensures ProcessKeys(directory + "/") == {Lower(directory + "/")}
  {
    BasenameOfChild(directory, name);
    BasenameOfLower(directory + "/" + name);
    BasenameOfChild("", name);
    BasenameOfLower(name);
    LastOfChild(directory, name);
  }

  /** An executable is judged by its name alone when no rule names its directory. */
  lemma ProcessJudgedByName(rules: Rules, directory: string, name: string)
    requires name != "" && '/' !in name
    requires Lower(directory + "/" + name) !in rules.blockedProcesses + rules.allowedProcesses
    ensures ProcessAllowed(rules, directory + "/" + name) == ProcessAllowed(rules, name)
  {
    BasenameOfChild(directory, name);
    BasenameOfLower(directory + "/" + name);
    BasenameOfChild("", name);
    BasenameOfLower(name);
    LastOfChild(directory, name);
  }

  // ----- mounts

  /** `is_mount_allowed`: an allowed volume name or mount, or a mount under an allowed prefix. */
  predicate MountAllowed(policy: Policy, mount: Path) {
    var lowered, volume := Lower(mount), Lower(Basename(mount));
    || (exists v | v in policy.rules.allowedVolumes :: v != "" && (Lower(v) == volume || Lower(v) == lowered))
    || (exists p | p in policy.roots.allowedMountPrefixes :: p != "" && HasDirectoryPrefix(lowered, Lower(p)))
  }

  /** The verdict on a mount ignores the case of ASCII letters. */
  lemma MountCaseIsIgnored(policy: Policy, a: Path, b: Path)
    requires Lower(a) == Lower(b)
    ensures MountAllowed(policy, a) == MountAllowed(policy, b)
  {
    BasenameOfLower(a);
    BasenameOfLower(b);
  }

  /** Some allowed prefix contains the mount, in any case of letters. */
  predicate UnderAllowedPrefix(policy: Policy, mount: Path) {
    exists p | p in policy.roots.allowedMountPrefixes :: p != "" && HasDirectoryPrefix(Lower(mount), Lower(p))
  }

  /**
   A mount is allowed exactly if an allowed volume has its name or its path, in any case of letters,
   or an allowed prefix contains it. A mount whose path ends with a slash has no name.
   */
  lemma MountVerdict(policy: Policy, directory: string, name: string)
    requires '/' !in name
    ensures MountAllowed(policy, directory + "/" + name) <==>
              || UnderAllowedPrefix(policy, directory + "/" + name)
              || exists v | v in policy.rules.allowedVolumes && v != "" ::
                   Lower(v) == Lower(name) || Lower(v) == Lower(directory + "/" + name)
    ensures MountAllowed(policy, name) <==>
              || UnderAllowedPrefix(policy, name)
              || exists v | v in policy.rules.allowedVolumes && v != "" :: Lower(v) == Lower(name)
  {
    BasenameOfChild(directory, name);
  }

  /** Whatever is mounted below an allowed prefix is allowed. */
  lemma MountsBelowAllowedPrefix(policy: Policy, mount: Path, above: Path)
    requires HasDirectoryPrefix(Lower(mount), Lower(above))
    requires exists p | p in policy.roots.allowedMountPrefixes :: p != "" && HasDirectoryPrefix(Lower(above), Lower(p))
    ensures MountAllowed(policy, mount)
  {
    var p :| p in policy.roots.allowedMountPrefixes && p != "" && HasDirectoryPrefix(Lower(above), Lower(p));
    PrefixIsPartialOrder(Lower(mount), Lower(above), Lower(p));
  }

  /** The two loops of `is_mount_allowed`. */
  method IsMountAllowed(policy: Policy, mount: Path) returns (allowed: bool)
    ensures allowed == MountAllowed(policy, mount)
  {
    var lowered, volume := Lower(mount), Lower(Basename(mount));
    for i := 0 to |policy.rules.allowedVolumes|
      invariant forall v | v in policy.rules.allowedVolumes[..i] :: v != "" ==> Lower(v) != volume && Lower(v) != lowered
    {
      var v := Lower(policy.rules.allowedVolumes[i]);
      if v != "" && (v == volume || v == lowered) {
        assert policy.rules.allowedVolumes[i] in policy.rules.allowedVolumes;
        return true;
      }
    }
    for i := 0 to |policy.roots.allowedMountPrefixes|
      invariant forall p | p in policy.roots.allowedMountPrefixes[..i] :: p != "" ==> !HasDirectoryPrefix(lowered, Lower(p))
    {
      var p := Lower(policy.roots.allowedMountPrefixes[i]);
      if p != "" && HasDirectoryPrefix(lowered, p) {
        assert policy.roots.allowedMountPrefixes[i] in policy.roots.allowedMountPrefixes;
        return true;
      }
    }
    return false;
  }
}

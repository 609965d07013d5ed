/**
 Directory-aware prefixes of paths. The enforcers and the configuration loader
 decide with one string test whether a path lies under a root; here the test is
 connected to the components of the path.
 */
module Paths {
  type Path = string

  /** `FilesystemEnforcer::has_directory_prefix`, the same in the process enforcer. */
  predicate HasDirectoryPrefix(path: Path, prefix: Path) {
    if prefix == "" || |path| < |prefix| then false
    else if !(prefix <= path) then false
    else if |path| == |prefix| then true
    else if prefix[|prefix| - 1] == '/' then true
    else path[|prefix|] == '/'
  }

  /** `ConfigManager::has_prefix_path`, written separately in the source. */
  predicate HasPrefixPath(path: Path, prefix: Path) {
    if prefix == "" then false
    else if !(prefix <= path) then false
    else if |path| == |prefix| then true
    else if prefix[|prefix| - 1] == '/' then true
    else path[|prefix|] == '/'
  }

  /** The two spellings of the test agree on all strings; nothing lies under the empty one. */
  lemma PrefixTestsAgree(path: Path, prefix: Path)
    ensures HasDirectoryPrefix(path, prefix) == HasPrefixPath(path, prefix)
    ensures !HasDirectoryPrefix(path, "")
  {
  }

  /** The pieces of `s` between its slashes; there is always at least one. */
  function Fields(s: string): (r: seq<string>)
    ensures |r| > 0
  {
    if s == "" then [""]
    else if s[0] == '/' then [""] + Fields(s[1..])
    else
      var rest := Fields(s[1..]);
      [[s[0]] + rest[0]] + rest[1..]
  }

  function Join(fields: seq<string>): string
    requires |fields| > 0
  {
    if |fields| == 1 then fields[0] else fields[0] + "/" + Join(fields[1..])
  }

  /** Splitting loses nothing. */
  lemma {:induction false} JoinInvertsFields(s: string)
    ensures Join(Fields(s)) == s
  {
    if s != "" {
      JoinInvertsFields(s[1..]);
      var rest := Fields(s[1..]);
      if s[0] == '/' {
        assert Fields(s)[1..] == rest;
      } else {
        assert Fields(s)[1..] == rest[1..];
      }
      assert s == [s[0]] + s[1..];
    }
  }

  /** Components of an absolute path; the root has none. */
  function Components(path: Path): seq<string>
    requires IsAbsolute(path)
  {
    if path == "/" then [] else Fields(path[1..])
  }

  predicate IsAbsolute(path: Path) {
    path != "" && path[0] == '/'
  }

  /** A directory name as a user writes it: the root, or no slash at the end. */
  predicate IsCleanRoot(root: Path) {
    IsAbsolute(root) && (root == "/" || root[|root| - 1] != '/')
  }

  /** `q` is `s`, or a slash follows it in `s`. */
  predicate EndsAtSlash(s: string, q: string) {
    q == s || (|q| < |s| && q <= s && s[|q|] == '/')
  }

  lemma EndsAtSlashStep(s: string, q: string)
    requires s != "" && q != ""
    ensures EndsAtSlash(s, q) <==> q[0] == s[0] && EndsAtSlash(s[1..], q[1..])
  {
    PrefixByHead(q, s);
    assert q == [q[0]] + q[1..] && s == [s[0]] + s[1..];
  }

  lemma FieldsStep(s: string, q: string)
    requires s != "" && q != ""
    ensures Fields(q) <= Fields(s) <==> q[0] == s[0] && Fields(q[1..]) <= Fields(s[1..])
  {
    PrefixByHead(Fields(q), Fields(s));
    var x, y := Fields(q[1..]), Fields(s[1..]);
    PrefixByHead(x, y);
    if q[0] != '/' && s[0] != '/' {
      assert Fields(q)[0][1..] == x[0] && Fields(s)[0][1..] == y[0];
    }
  }

  lemma {:induction false} FieldsPrefix(s: string, q: string)
    ensures Fields(q) <= Fields(s) <==> EndsAtSlash(s, q)
  {
    if q == "" || s == "" {
      PrefixByHead(Fields(q), Fields(s));
    } else {
      FieldsPrefix(s[1..], q[1..]);
      EndsAtSlashStep(s, q);
      FieldsStep(s, q);
    }
  }

  lemma PrefixByHead<T>(a: seq<T>, b: seq<T>)
    requires |a| > 0 && |b| > 0
    ensures a <= b <==> a[0] == b[0] && a[1..] <= b[1..]
  {
    if a[0] == b[0] && a[1..] <= b[1..] {
      assert a == [a[0]] + a[1..] && b == [b[0]] + b[1..];
    }
    if a <= b {
      assert b[1..][..|a| - 1] == a[1..];
    }
  }

  /** The string test decides exactly whether the components of the root are a prefix. */
  lemma PrefixIsComponentPrefix(path: Path, root: Path)
    requires IsAbsolute(path) && IsCleanRoot(root)
    ensures HasDirectoryPrefix(path, root) <==> Components(root) <= Components(path)
  {
    if root == "/" {
      assert path[..1] == root;
    } else if path != "/" {
      var p, r := path[1..], root[1..];
      FieldsPrefix(p, r);
      assert path == "/" + p && root == "/" + r;
      assert root <= path <==> r <= p by {
        PrefixByHead(root, path);
      }
    }
  }

  /** A slash after a directory name shuts out exactly the directory itself. */
  lemma TrailingSlashExcludesRoot(path: Path, root: Path)
    requires root != "" && root[|root| - 1] != '/'
    ensures HasDirectoryPrefix(path, root + "/") <==> HasDirectoryPrefix(path, root) && path != root
  {
    var slashed := root + "/";
    if slashed <= path {
      assert path[..|root|] == slashed[..|root|] == root;
      assert path[|root|] == slashed[|root|];
    }
    if HasDirectoryPrefix(path, root) && path != root {
      assert path[..|slashed|] == root + [path[|root|]];
    }
  }

  /** On non-empty strings the test is a partial order. */
  lemma PrefixIsPartialOrder(a: Path, b: Path, c: Path)
    requires a != ""
    ensures HasDirectoryPrefix(a, a)
    ensures HasDirectoryPrefix(a, b) && HasDirectoryPrefix(b, a) ==> a == b
    ensures HasDirectoryPrefix(a, b) && HasDirectoryPrefix(b, c) ==> HasDirectoryPrefix(a, c)
  {
    if HasDirectoryPrefix(a, b) && HasDirectoryPrefix(b, c) {
      assert c == b[..|c|] && b == a[..|b|];
      assert a[..|c|] == a[..|b|][..|c|];
    }
  }

  /** Two directories that contain one path are nested. */
  lemma PrefixesOfOnePathAreNested(path: Path, a: Path, b: Path)
    requires HasDirectoryPrefix(path, a) && HasDirectoryPrefix(path, b)
    ensures HasDirectoryPrefix(a, b) || HasDirectoryPrefix(b, a)
  {
    if |a| <= |b| {
      assert b[..|a|] == path[..|b|][..|a|] == path[..|a|] == a;
    } else {
      assert a[..|b|] == path[..|a|][..|b|] == path[..|b|] == b;
    }
  }

  /** `should_ignore_path`: some non-empty pattern contains the path. */
  predicate ShouldIgnore(path: Path, patterns: seq<Path>) {
    exists p | p in patterns :: p != "" && HasDirectoryPrefix(path, p)
  }

  /** Whatever lies under an ignored path is ignored. */
  lemma IgnoredIsClosedUnderDescendants(path: Path, ancestor: Path, patterns: seq<Path>)
    requires ShouldIgnore(ancestor, patterns) && HasDirectoryPrefix(path, ancestor)
    ensures ShouldIgnore(path, patterns)
  {
    var p :| p in patterns && p != "" && HasDirectoryPrefix(ancestor, p);
    PrefixIsPartialOrder(path, ancestor, p);
  }

  /** The loop over the patterns. */
  method ShouldIgnorePath(path: Path, patterns: seq<Path>) returns (ignored: bool)
    ensures ignored == ShouldIgnore(path, patterns)
  {
    for i := 0 to |patterns|
      invariant !ShouldIgnore(path, patterns[..i])
    {
      if patterns[i] != "" && HasDirectoryPrefix(path, patterns[i]) {
        return true;
      }
    }
    assert patterns[..|patterns|] == patterns;
    return false;
  }
}

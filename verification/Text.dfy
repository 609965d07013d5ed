/** ASCII text helpers that the enforcers and the configuration share. */
module Text {

  function LowerChar(c: char): char {
    if 'A' <= c <= 'Z' then ((c as int) + 32) as char else c
  }

  /** `to_lower_copy` and `lower_ascii_copy`. */
  function Lower(s: string): (r: string)
    ensures |r| == |s|
    ensures forall i | 0 <= i < |s| :: r[i] == LowerChar(s[i])
  {
    seq(|s|, i requires 0 <= i < |s| => LowerChar(s[i]))
  }

  /** The letters change case, and nothing else changes. */
  lemma LettersAreLowered()
    ensures Lower("ABCDEFGHIJKLMNOPQRSTUVWXYZ") == "abcdefghijklmnopqrstuvwxyz"
    ensures forall c | c < 'A' || 'Z' < c :: LowerChar(c) == c
  {
  }

  lemma LowerIsIdempotent(s: string)
    ensures Lower(Lower(s)) == Lower(s)
  {
    assert forall c :: LowerChar(LowerChar(c)) == LowerChar(c);
  }

  /** What follows the last slash, if any: `basename_from_path`. */
  function Basename(path: string): string {
    if path == "" then ""
    else if path[|path| - 1] == '/' then ""
    else Basename(path[..|path| - 1]) + [path[|path| - 1]]
  }

  lemma BasenameStep(path: string)
    ensures path == "" || path[|path| - 1] == '/' ==> Basename(path) == ""
    ensures path != "" && path[|path| - 1] != '/' ==>
              Basename(path) == Basename(path[..|path| - 1]) + [path[|path| - 1]]
  {
  }

  lemma {:induction false} BasenameOfTail(head: string, name: string)
    requires head == "" || head[|head| - 1] == '/'
    requires forall i | 0 <= i < |name| :: name[i] != '/'
    ensures Basename(head + name) == name
  {
    hide Basename;
    BasenameStep(head + name);
    if name == "" {
      assert head + name == head;
    } else {
      var n := |name| - 1;
      BasenameOfTail(head, name[..n]);
      assert (head + name)[..|head| + n] == head + name[..n];
      assert name == name[..n] + [name[n]];
    }
  }

  /** The definition by recursion is the one by the position of the last slash. */
  lemma BasenameFollowsLastSlash(path: string, slash: int)
    requires -1 <= slash < |path|
    requires slash >= 0 ==> path[slash] == '/'
    requires forall i | slash < i < |path| :: path[i] != '/'
    ensures Basename(path) == path[slash + 1..]
  {
    hide *;
    var k: nat := slash + 1;
    var head, name := path[..k], path[k..];
    forall i | 0 <= i < |name|
      ensures name[i] != '/'
    {
      assert name[i] == path[k + i];
    }
    assert k > 0 ==> head[k - 1] == path[k - 1];
    BasenameOfTail(head, name);
    assert head + name == path;
  }

  lemma {:induction false} BasenameOfLower(path: string)
    ensures Basename(Lower(path)) == Lower(Basename(path))
  {
    if path != "" {
      var front := path[..|path| - 1];
      BasenameOfLower(front);
      assert Lower(path)[..|path| - 1] == Lower(front);
    }
  }
}

/** Snapshots of monitored trees, and the changes that one scan reports against the one before. */
module Snapshots {
  import opened Lists
  import opened Paths

  datatype Fingerprint = Fingerprint(isDirectory: bool, sizeBytes: nat, modifiedTicks: int)

  type Snapshot = map<Path, Fingerprint>

  /** The outcome of `snapshot_tree` on one root; `denied` counts unreadable entries. */
  datatype TreeResult =
    | TreeFailed(errorCode: int, denied: nat)
    | Tree(snapshot: Snapshot, denied: nat)

  /** A reported change; the new fingerprint rides along, so that changes can be replayed. */
  datatype Change =
    | Created(path: Path, now: Fingerprint)
    | Modified(path: Path, now: Fingerprint)
    | Deleted(path: Path)

  /** The union of the first `n` trees; where roots overlap, the earlier one wins. */
  function Assemble(roots: seq<Path>, trees: Path -> TreeResult, n: nat): Snapshot
    requires n <= |roots|
  {
    if n == 0 then map[]
    else
      var before := Assemble(roots, trees, n - 1);
      var tree := trees(roots[n - 1]);
      if tree.Tree? then tree.snapshot + before else before
  }

  /** Which root a path of the assembled snapshot comes from: the first readable one that has it. */
  lemma {:induction false} AssembledFromFirst(roots: seq<Path>, trees: Path -> TreeResult, n: nat, p: Path)
    requires n <= |roots|
    ensures p in Assemble(roots, trees, n) <==>
              exists i | 0 <= i < n :: trees(roots[i]).Tree? && p in trees(roots[i]).snapshot
    ensures forall i | 0 <= i < n && trees(roots[i]).Tree? && p in trees(roots[i]).snapshot
                       && (forall k | 0 <= k < i :: trees(roots[k]).Tree? ==> p !in trees(roots[k]).snapshot) ::
              Assemble(roots, trees, n)[p] == trees(roots[i]).snapshot[p]
  {
    if n > 0 {
      AssembledFromFirst(roots, trees, n - 1, p);
    }
  }

  /** Where the loop over the roots ends: at the first root before which a stop is seen. */
  function Reached(stopSeen: nat -> bool, from: nat, n: nat): (r: nat)
    requires from <= n
    ensures from <= r <= n
    ensures forall i | from <= i < r :: !stopSeen(i)
    ensures r < n ==> stopSeen(r)
    decreases n - from
  {
    if from == n || stopSeen(from) then from else Reached(stopSeen, from + 1, n)
  }

  predicate Agree(a: Snapshot, b: Snapshot, p: Path) {
    (p in a <==> p in b) && (p in a && p in b ==> a[p] == b[p])
  }

  /** The paths at which two snapshots differ. */
  function Differing(a: Snapshot, b: Snapshot): set<Path> {
    set p | p in a.Keys + b.Keys && !Agree(a, b, p)
  }

  function Updates(known: Snapshot, current: Snapshot): set<Change> {
    (set p | p in current && p !in known :: Created(p, current[p]))
    + (set p | p in current && p in known && known[p] != current[p] :: Modified(p, current[p]))
  }

  function Deletions(known: Snapshot, current: Snapshot): set<Change> {
    set p | p in known && p !in current :: Deleted(p)
  }

  /** What a polling scan reports. */
  function Diff(known: Snapshot, current: Snapshot): set<Change> {
    Updates(known, current) + Deletions(known, current)
  }

  /** A list of all elements of `s`, in any order, without repetition. */
  ghost predicate IsListingOf<T>(list: seq<T>, s: set<T>) {
    && NoDuplicates(list)
    && (forall x | x in list :: x in s)
    && (forall x | x in s :: x in list)
  }

  lemma {:induction false} ListingSize<T>(list: seq<T>, s: set<T>)
    requires IsListingOf(list, s)
    ensures |list| == |s|
  {
    if list == [] {
      assert s == {};
    } else {
      var n := |list| - 1;
      var rest := s - {list[n]};
      forall x | x in rest
        ensures x in list[..n]
      {
        var i :| 0 <= i < |list| && list[i] == x;
        assert list[..n][i] == x;
      }
      assert forall x | x in list[..n] :: x in list && x != list[n];
      ListingSize(list[..n], rest);
    }
  }

  lemma ListingUnion<T>(a: seq<T>, b: seq<T>, s: set<T>, t: set<T>)
    requires IsListingOf(a, s) && IsListingOf(b, t) && s !! t
    ensures IsListingOf(a + b, s + t)
  {
    forall i, j | 0 <= i < j < |a + b|
      ensures (a + b)[i] != (a + b)[j]
    {
      if i < |a| <= j {
        assert a[i] in a && b[j - |a|] in b;
      }
    }
  }

  function Apply(base: Snapshot, change: Change): Snapshot {
    match change
    case Created(p, now) => base[p := now]
    case Modified(p, now) => base[p := now]
    case Deleted(p) => base - {p}
  }

  function Replay(base: Snapshot, changes: seq<Change>): Snapshot {
    if changes == [] then base
    else Apply(Replay(base, changes[..|changes| - 1]), changes[|changes| - 1])
  }

  lemma {:induction false} ReplayComposes(base: Snapshot, a: seq<Change>, b: seq<Change>)
    ensures Replay(base, a + b) == Replay(Replay(base, a), b)
  {
    if b == [] {
      assert a + b == a;
    } else {
      ReplayComposes(base, a, b[..|b| - 1]);
      assert (a + b)[..|a + b| - 1] == a + b[..|b| - 1];
    }
  }

  predicate Touches(changes: seq<Change>, p: Path) {
    changes != [] && (changes[|changes| - 1].path == p || Touches(changes[..|changes| - 1], p))
  }

  lemma {:induction false} MemberTouches(changes: seq<Change>, c: Change)
    requires c in changes
    ensures Touches(changes, c.path)
  {
    var n := |changes| - 1;
    if changes[n] != c {
      assert changes == changes[..n] + [changes[n]];
      MemberTouches(changes[..n], c);
    }
  }

  lemma {:induction false} ReplayTouched(known: Snapshot, current: Snapshot, changes: seq<Change>, p: Path)
    requires forall c | c in changes :: c in Diff(known, current)
    ensures Agree(Replay(known, changes), if Touches(changes, p) then current else known, p)
  {
    if changes != [] {
      var n := |changes| - 1;
      assert changes[n] in changes;
      ReplayTouched(known, current, changes[..n], p);
    }
  }

  /** The change that a polling scan reports at a path where the snapshots differ. */
  function ChangeAt(known: Snapshot, current: Snapshot, p: Path): (c: Change)
    requires p in Differing(known, current)
    ensures c.path == p && c in Diff(known, current)
  {
    if p !in known then Created(p, current[p])
    else if p !in current then Deleted(p)
    else Modified(p, current[p])
  }

  /** Replaying the reports of a scan, in any order, rebuilds the snapshot it took. */
  lemma ReplayRebuilds(known: Snapshot, current: Snapshot, changes: seq<Change>)
    requires IsListingOf(changes, Diff(known, current))
    ensures Replay(known, changes) == current
  {
    var result := Replay(known, changes);
    forall p
      ensures Agree(result, current, p)
    {
      ReplayTouched(known, current, changes, p);
      if p in Differing(known, current) {
        MemberTouches(changes, ChangeAt(known, current, p));
      }
    }
    assert forall p | p in result :: Agree(result, current, p);
    assert forall p | p in current :: Agree(result, current, p);
  }

  /** The change speaks of a path as it is: missing, there with another fingerprint, or there. */
  predicate Legal(base: Snapshot, change: Change) {
    match change
    case Created(p, _) => p !in base
    case Modified(p, now) => p in base && base[p] != now
    case Deleted(p) => p in base
  }

  lemma {:induction false} OthersDoNotTouch(changes: seq<Change>, p: Path)
    requires forall i | 0 <= i < |changes| :: changes[i].path != p
    ensures !Touches(changes, p)
  {
    if changes != [] {
      OthersDoNotTouch(changes[..|changes| - 1], p);
    }
  }

  lemma DiffIsLegal(known: Snapshot, current: Snapshot)
    ensures forall c | c in Diff(known, current) :: Legal(known, c)
  {
  }

  lemma LegalByPath(a: Snapshot, b: Snapshot, change: Change)
    requires Agree(a, b, change.path)
    ensures Legal(a, change) == Legal(b, change)
  {
  }

  /** Each report says what happened: created, modified and deleted are never mistaken for one another. */
  lemma ReportsAreLegal(known: Snapshot, current: Snapshot, changes: seq<Change>, i: nat)
    requires IsListingOf(changes, Diff(known, current)) && i < |changes|
    ensures Legal(Replay(known, changes[..i]), changes[i])
  {
    var p := changes[i].path;
    ChangesDiffer(known, current);
    DiffIsLegal(known, current);
    hide Diff, Differing, Legal, Replay, Touches, Agree;
    assert changes[i] in changes;
    forall j | 0 <= j < i
      ensures changes[..i][j].path != p
    {
      assert changes[j] in changes && changes[j] != changes[i];
    }
    OthersDoNotTouch(changes[..i], p);
    assert forall c | c in changes[..i] :: c in changes;
    ReplayTouched(known, current, changes[..i], p);
    LegalByPath(Replay(known, changes[..i]), known, changes[i]);
  }

  function PathsOf(changes: seq<Change>): (paths: seq<Path>)
    ensures |paths| == |changes| && forall i | 0 <= i < |paths| :: paths[i] == changes[i].path
  {
    seq(|changes|, i requires 0 <= i < |changes| => changes[i].path)
  }

  lemma ChangesDiffer(known: Snapshot, current: Snapshot)
    ensures forall c | c in Diff(known, current) :: c.path in Differing(known, current)
    ensures forall c, d | c in Diff(known, current) && d in Diff(known, current) && c.path == d.path :: c == d
  {
  }

  /** The paths reported are exactly those that differ, each once. */
  lemma ReportsAreExact(known: Snapshot, current: Snapshot, changes: seq<Change>)
    requires IsListingOf(changes, Diff(known, current))
    ensures IsListingOf(PathsOf(changes), Differing(known, current))
    ensures |changes| == |Differing(known, current)|
  {
    ChangesDiffer(known, current);
    hide Diff, Differing;
    var paths := PathsOf(changes);
    forall i, j | 0 <= i < j < |paths|
      ensures paths[i] != paths[j]
    {
      assert changes[i] in changes && changes[j] in changes;
    }
    forall p | p in paths
      ensures p in Differing(known, current)
    {
      var i :| 0 <= i < |paths| && paths[i] == p;
      assert changes[i] in changes;
    }
    forall p | p in Differing(known, current)
      ensures p in paths
    {
      var c := ChangeAt(known, current, p);
      var i :| 0 <= i < |changes| && changes[i] == c;
      assert paths[i] == p;
    }
    ListingSize(paths, Differing(known, current));
  }
}

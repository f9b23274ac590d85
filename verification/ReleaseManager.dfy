/**
 Activating, rolling back and pruning releases (scripts/release_manager.py): a release is a directory
 that holds a completion marker, and the link named current points at the active one.
 */
module ReleaseManager {
  import opened TextOrder
  import opened Wrappers

  predicate IsAlphanumeric(c: char) { 'A' <= c <= 'Z' || 'a' <= c <= 'z' || '0' <= c <= '9' }

  predicate IsReleaseId(id: string) {
    id != "" && IsAlphanumeric(id[0]) && forall i :: 0 <= i < |id| ==> IsAlphanumeric(id[i]) || id[i] in "._-"
  }

  /** A name is one component of a path, of letters, digits, dots, underscores and hyphens in ASCII, and not hidden, "." or "..". */
  lemma ReleaseIdsAre(id: string)
    ensures IsReleaseId(id) <==>
            && id != "" && id[0] !in "._-"
            && forall c :: c in id ==> 48 <= c as int <= 57 || 65 <= c as int <= 90 || 97 <= c as int <= 122 || c as int in {45, 46, 95}
    ensures IsReleaseId(id) ==> '/' !in id && id != "." && id != ".."
  {
    assert id != "" ==> id[0] in id;
    assert forall i :: 0 <= i < |id| ==> id[i] in id;
  }

  datatype Release = Release(complete: bool, mtime: nat)

  /** What a link or a rollback target names: a directory directly under releases, or anything else. */
  datatype Link = ToRelease(id: string) | Elsewhere(path: string)

  /** The release directories, and the link if there is one. */
  datatype State = State(releases: map<string, Release>, current: Option<Link>)

  datatype Error = InvalidId | NoSuchRelease | Incomplete | InvalidTarget | RetentionTooSmall

  // ---------------------------------------------------------------- which releases stay

  /** Later by modification time; of the same time, by name. */
  predicate Newer(releases: map<string, Release>, a: string, b: string)
    requires a in releases && b in releases
  {
    releases[a].mtime > releases[b].mtime || (releases[a].mtime == releases[b].mtime && TextLess(b, a))
  }

  /** The active target, release or not, and the protected releases. */
  function Base(s: State, protected: seq<string>): set<Link> {
    (if s.current.Some? then {s.current.value} else {}) + set id | id in protected && id in s.releases :: ToRelease(id)
  }

  function Candidates(s: State, protected: seq<string>): set<string> {
    set id | id in s.releases && s.releases[id].complete && ToRelease(id) !in Base(s, protected)
  }

  function NewerThan(s: State, protected: seq<string>, id: string): set<string>
    requires id in s.releases
  {
    set c | c in Candidates(s, protected) && Newer(s.releases, c, id)
  }

  /** Complete releases fill, newest first, the places that the active and protected ones leave. */
  predicate Keeps(s: State, keep: nat, protected: seq<string>, id: string)
    requires id in s.releases
  {
    ToRelease(id) in Base(s, protected) ||
    (s.releases[id].complete && |Base(s, protected)| + |NewerThan(s, protected, id)| < keep)
  }

  function Pruned(s: State, keep: nat, protected: seq<string>): State {
    s.(releases := map id | id in s.releases && Keeps(s, keep, protected, id) :: s.releases[id])
  }

  predicate AllValid(ids: seq<string>) { forall i :: 0 <= i < |ids| ==> IsReleaseId(ids[i]) }

  predicate CanActivate(s: State, id: string) { IsReleaseId(id) && id in s.releases && s.releases[id].complete }

  // ---------------------------------------------------------------- the order of releases

  lemma NewerOrder(releases: map<string, Release>, a: string, b: string, c: string)
    requires a in releases && b in releases && c in releases
    ensures !(Newer(releases, a, b) && Newer(releases, b, a))
    ensures Newer(releases, a, b) || a == b || Newer(releases, b, a)
    ensures Newer(releases, a, b) && Newer(releases, b, c) ==> Newer(releases, a, c)
  {
    TextOrdered(b, a, c);
    TextOrdered(c, b, a);
    TextOrdered(a, b, c);
  }

  ghost predicate IsNewest(releases: map<string, Release>, ids: set<string>, id: string)
    requires forall i :: i in ids ==> i in releases
  {
    id in ids && forall other :: other in ids && other != id ==> Newer(releases, id, other)
  }

  ghost predicate IsOldest(releases: map<string, Release>, ids: set<string>, id: string)
    requires forall i :: i in ids ==> i in releases
  {
    id in ids && forall other :: other in ids && other != id ==> Newer(releases, other, id)
  }

  lemma {:induction false} Ends(releases: map<string, Release>, ids: set<string>) returns (newest: string, oldest: string)
    requires ids != {} && forall i :: i in ids ==> i in releases
    ensures IsNewest(releases, ids, newest) && IsOldest(releases, ids, oldest)
    decreases |ids|
  {
    var id :| id in ids;
    var rest := ids - {id};
    newest, oldest := id, id;
    if rest == {} {
      assert forall other :: other in ids && other != id ==> other in rest;
    } else {
      newest, oldest := Ends(releases, rest);
      var n, o := newest, oldest;
      NewerOrder(releases, id, n, n);
      NewerOrder(releases, o, id, id);
      newest := if Newer(releases, id, n) then id else n;
      oldest := if Newer(releases, o, id) then id else o;
      forall other | other in ids
        ensures other != newest ==> Newer(releases, newest, other)
        ensures other != oldest ==> Newer(releases, other, oldest)
      {
        assert other == id || other in rest;
        NewerOrder(releases, id, n, other);
        NewerOrder(releases, other, o, id);
      }
    }
  }

  ghost predicate Sorted(releases: map<string, Release>, ids: seq<string>)
    requires forall i :: 0 <= i < |ids| ==> ids[i] in releases
  {
    forall i, j :: 0 <= i < j < |ids| ==> Newer(releases, ids[i], ids[j])
  }

  /** Python's sorted with reverse, on the complete releases. */
  method NewestFirst(releases: map<string, Release>, ids: set<string>) returns (r: seq<string>)
    requires forall i :: i in ids ==> i in releases
    ensures forall id :: id in r <==> id in ids
    ensures forall i :: 0 <= i < |r| ==> r[i] in ids
    ensures Sorted(releases, r)
  {
    r := [];
    var left := ids;
    while left != {}
      invariant left <= ids && (forall id :: id in r <==> id in ids - left)
      invariant forall i :: 0 <= i < |r| ==> r[i] in ids
      invariant Sorted(releases, r)
      invariant forall i, id :: 0 <= i < |r| && id in left ==> Newer(releases, r[i], id)
      decreases left
    {
      ghost var n, o := Ends(releases, left);
      var id :| id in left && forall other :: other in left && other != id ==> Newer(releases, id, other);
      r, left := r + [id], left - {id};
    }
  }

  // ---------------------------------------------------------------- the deployment

  function Links(ids: seq<string>): set<Link> { set id | id in ids :: ToRelease(id) }

  lemma LinksGrow(ids: seq<string>, n: nat)
    requires n < |ids|
    ensures Links(ids[..n + 1]) == Links(ids[..n]) + {ToRelease(ids[n])}
  {
    assert ids[..n + 1] == ids[..n] + [ids[n]];
  }

  ghost function Filled(base: set<Link>, sorted: seq<string>, n: nat): set<Link>
    requires n <= |sorted|
  {
    if n == 0 then base else Filled(base, sorted, n - 1) + {ToRelease(sorted[n - 1])}
  }

  lemma {:induction false} FilledIs(base: set<Link>, sorted: seq<string>, n: nat)
    requires n <= |sorted|
    ensures Filled(base, sorted, n) == base + Links(sorted[..n])
  {
    if n > 0 {
      FilledIs(base, sorted, n - 1);
      LinksGrow(sorted, n - 1);
    }
  }

  lemma {:induction false} FilledGrows(base: set<Link>, sorted: seq<string>, m: nat, n: nat)
    requires m <= n <= |sorted|
    ensures Filled(base, sorted, m) <= Filled(base, sorted, n) && |Filled(base, sorted, m)| <= |Filled(base, sorted, n)|
    decreases n
  {
    if m < n {
      FilledGrows(base, sorted, m, n - 1);
      Fits(Filled(base, sorted, n - 1), Filled(base, sorted, n));
    }
  }

  /** Among the complete releases, those looked at have a place, and the others only if they had one before. */
  lemma HasPlace(releases: map<string, Release>, base: set<Link>, sorted: seq<string>, n: nat, k: nat)
    requires (forall i :: 0 <= i < |sorted| ==> sorted[i] in releases) && Sorted(releases, sorted)
    requires n <= |sorted| && k < |sorted|
    ensures ToRelease(sorted[k]) in Filled(base, sorted, n) <==> k < n || ToRelease(sorted[k]) in base
  {
    FilledIs(base, sorted, n);
    if k < n {
      assert sorted[..n][k] == sorted[k];
    } else {
      NotBefore(releases, sorted, n, k);
    }
  }

  lemma CandidateKept(s: State, keep: nat, protected: seq<string>, sorted: seq<string>, n: nat, k: nat)
    requires (forall id :: id in sorted <==> id in s.releases && s.releases[id].complete)
    requires (forall i :: 0 <= i < |sorted| ==> sorted[i] in s.releases) && Sorted(s.releases, sorted)
    requires n <= |sorted| && k < |sorted| && ToRelease(sorted[k]) !in Base(s, protected)
    requires n > 0 ==> |Filled(Base(s, protected), sorted, n - 1)| < keep
    requires n < |sorted| ==> |Filled(Base(s, protected), sorted, n)| >= keep
    ensures k < n <==> Keeps(s, keep, protected, sorted[k])
  {
    var base := Base(s, protected);
    PlacesBefore(s, protected, sorted, k);
    if k < n {
      FilledGrows(base, sorted, k, n - 1);
    } else {
      FilledGrows(base, sorted, n, k);
    }
  }

  /** Filling the places in order keeps exactly the releases with too few newer candidates before them. */
  lemma FilledKeeps(s: State, keep: nat, protected: seq<string>, sorted: seq<string>, n: nat, retained: set<Link>)
    requires (forall id :: id in sorted <==> id in s.releases && s.releases[id].complete)
    requires (forall i :: 0 <= i < |sorted| ==> sorted[i] in s.releases) && Sorted(s.releases, sorted)
    requires n <= |sorted| && retained == Filled(Base(s, protected), sorted, n)
    requires n > 0 ==> |Filled(Base(s, protected), sorted, n - 1)| < keep
    requires n < |sorted| ==> |retained| >= keep
    ensures forall id :: id in s.releases ==> (ToRelease(id) in retained <==> Keeps(s, keep, protected, id))
  {
    forall id | id in s.releases
      ensures ToRelease(id) in retained <==> Keeps(s, keep, protected, id)
    {
      FilledIs(Base(s, protected), sorted, n);
      if s.releases[id].complete && ToRelease(id) !in Base(s, protected) {
        var k :| 0 <= k < |sorted| && sorted[k] == id;
        HasPlace(s.releases, Base(s, protected), sorted, n, k);
        CandidateKept(s, keep, protected, sorted, n, k);
      } else {
        assert forall i :: i in sorted[..n] ==> i in sorted;
      }
    }
  }

  lemma NotBefore(releases: map<string, Release>, sorted: seq<string>, n: nat, k: nat)
    requires (forall i :: 0 <= i < |sorted| ==> sorted[i] in releases) && Sorted(releases, sorted) && n <= k < |sorted|
    ensures sorted[k] !in sorted[..n]
  {
    forall i | 0 <= i < n
      ensures sorted[..n][i] != sorted[k]
    {
      NewerOrder(releases, sorted[i], sorted[k], sorted[k]);
    }
  }

  lemma Fits<T>(a: set<T>, b: set<T>)
    requires a <= b
    ensures |a| <= |b|
  {
    assert b == a + (b - a);
  }

  lemma {:induction false} AsManyLinks(ids: set<string>, links: set<Link>)
    requires links == set id | id in ids :: ToRelease(id)
    ensures |links| == |ids|
    decreases |ids|
  {
    if ids != {} {
      var id :| id in ids;
      var rest := set i | i in ids - {id} :: ToRelease(i);
      AsManyLinks(ids - {id}, rest);
      assert links == rest + {ToRelease(id)};
    } else {
      assert links == {};
    }
  }

  /** Before a candidate come the active and protected ones and the newer candidates. */
  lemma PlacesBefore(s: State, protected: seq<string>, sorted: seq<string>, k: nat)
    requires (forall id :: id in sorted <==> id in s.releases && s.releases[id].complete)
    requires (forall i :: 0 <= i < |sorted| ==> sorted[i] in s.releases) && Sorted(s.releases, sorted) && k < |sorted|
    ensures |Filled(Base(s, protected), sorted, k)| == |Base(s, protected)| + |NewerThan(s, protected, sorted[k])|
  {
    FilledIs(Base(s, protected), sorted, k);
    var base, newer := Base(s, protected), NewerThan(s, protected, sorted[k]);
    var links := set id | id in newer :: ToRelease(id);
    AsManyLinks(newer, links);
    forall id | id in s.releases && s.releases[id].complete
      ensures id in sorted[..k] <==> Newer(s.releases, id, sorted[k])
    {
      var j :| 0 <= j < |sorted| && sorted[j] == id;
      NewerOrder(s.releases, sorted[j], sorted[k], id);
      assert j < k ==> sorted[..k][j] == id;
    }
    assert forall id :: id in sorted[..k] ==> id in sorted;
    assert base + Links(sorted[..k]) == base + links;
    assert base !! links;
  }

  lemma SortedIsDistinct(releases: map<string, Release>, sorted: seq<string>)
    requires (forall i :: 0 <= i < |sorted| ==> sorted[i] in releases) && Sorted(releases, sorted)
    ensures forall i, j :: 0 <= i < j < |sorted| ==> sorted[i] != sorted[j]
  {
    forall i, j | 0 <= i < j < |sorted|
      ensures sorted[i] != sorted[j]
    {
      NewerOrder(releases, sorted[i], sorted[j], sorted[j]);
    }
  }

  /** Adds releases in order until the limit is reached; n of them were looked at. */
  method Fill(keep: nat, base: set<Link>, sorted: seq<string>) returns (retained: set<Link>, n: nat)
    ensures n <= |sorted| && retained == Filled(base, sorted, n)
    ensures n > 0 ==> |Filled(base, sorted, n - 1)| < keep
    ensures n < |sorted| ==> |retained| >= keep
  {
    retained, n := base, 0;
    while n < |sorted| && |retained| < keep
      invariant n <= |sorted| && retained == Filled(base, sorted, n)
      invariant n > 0 ==> |Filled(base, sorted, n - 1)| < keep
    {
      retained := retained + {ToRelease(sorted[n])};
      n := n + 1;
    }
  }

  lemma PrunedIs(s: State, keep: nat, protected: seq<string>, retained: set<Link>)
    requires forall id :: id in s.releases ==> (ToRelease(id) in retained <==> Keeps(s, keep, protected, id))
    ensures Pruned(s, keep, protected).releases == map id | id in s.releases && ToRelease(id) in retained :: s.releases[id]
  {
  }

  class Deployment {
    var releases: map<string, Release>
    var current: Option<Link>

    function Current(): State reads this { State(releases, current) }

    method ActivateRelease(id: string) returns (r: Result<Option<Link>, Error>)
      modifies this`current
      ensures r.Ok? <==> CanActivate(old(Current()), id)
      ensures r.Ok? ==> r.value == old(current) && current == Some(ToRelease(id))
      ensures r.Err? ==> current == old(current)
    {
      if !IsReleaseId(id) {
        return Err(InvalidId);
      }
      if id !in releases {
        return Err(NoSuchRelease);
      }
      if !releases[id].complete {
        return Err(Incomplete);
      }
      r := Ok(current);
      current := Some(ToRelease(id));
    }

    method RollbackRelease(target: Link) returns (r: Result<(), Error>)
      modifies this`current
      ensures r.Ok? <==> target.ToRelease? && CanActivate(old(Current()), target.id)
      ensures current == if r.Ok? then Some(target) else old(current)
    {
      if !target.ToRelease? {
        return Err(InvalidTarget);
      }
      if !IsReleaseId(target.id) {
        return Err(InvalidId);
      }
      if target.id !in releases {
        return Err(NoSuchRelease);
      }
      if !releases[target.id].complete {
        return Err(Incomplete);
      }
      current := Some(target);
      return Ok(());
    }

    method PruneReleases(keep: nat, protected: seq<string>) returns (r: Result<seq<string>, Error>)
      modifies this`releases
      ensures r.Ok? <==> keep >= 2 && forall id :: id in protected ==> IsReleaseId(id)
      ensures Current() == if r.Ok? then Pruned(old(Current()), keep, protected) else old(Current())
      ensures r.Ok? ==> forall id :: id in r.value <==> id in old(releases) && id !in releases
    {
      if keep < 2 {
        return Err(RetentionTooSmall);
      }
      var retained := RetainProtected(protected);
      if retained.None? {
        return Err(InvalidId);
      }
      var complete := set id | id in releases && releases[id].complete;
      var sorted := NewestFirst(releases, complete);
      var filled, n := Fill(keep, retained.value, sorted);
      FilledKeeps(Current(), keep, protected, sorted, n, filled);
      PrunedIs(Current(), keep, protected, filled);
      SortedIsDistinct(releases, sorted);
      var removed := Remove(filled, sorted);
      return Ok(removed);
    }

    method RetainProtected(protected: seq<string>) returns (r: Option<set<Link>>)
      ensures r.Some? <==> AllValid(protected)
      ensures r.Some? ==> r.value == Base(Current(), protected)
    {
      var retained: set<Link> := if current.Some? then {current.value} else {};
      for i := 0 to |protected|
        invariant AllValid(protected[..i]) && retained == Base(Current(), protected[..i])
      {
        if !IsReleaseId(protected[i]) {
          return None;
        }
        if protected[i] in releases {
          retained := retained + {ToRelease(protected[i])};
        }
        assert protected[..i + 1] == protected[..i] + [protected[i]];
      }
      assert protected[..|protected|] == protected;
      return Some(retained);
    }

    /** Removes what is not retained, the incomplete releases first. */
    method Remove(retained: set<Link>, sorted: seq<string>) returns (removed: seq<string>)
      requires forall id :: id in sorted <==> id in releases && releases[id].complete
      requires forall i, j :: 0 <= i < j < |sorted| ==> sorted[i] != sorted[j]
      modifies this`releases
      ensures releases == map id | id in old(releases) && ToRelease(id) in retained :: old(releases)[id]
      ensures forall id :: id in removed <==> id in old(releases) && id !in releases
    {
      removed := [];
      var incomplete := set id | id in releases && !releases[id].complete;
      ghost var before := releases;
      while incomplete != {}
        invariant forall id :: id in incomplete ==> id in before && !before[id].complete && id in releases
        invariant forall id :: id in releases ==> id in before && releases[id] == before[id]
        invariant forall id :: id in before ==>
                    (id in releases <==> before[id].complete || id in incomplete || ToRelease(id) in retained)
        invariant forall id :: id in removed <==> id in before && id !in releases
        decreases incomplete
      {
        var id :| id in incomplete;
        incomplete := incomplete - {id};
        if ToRelease(id) !in retained {
          releases := releases - {id};
          removed := removed + [id];
        }
      }
      for i := 0 to |sorted|
        invariant forall id :: id in releases ==> id in before && releases[id] == before[id]
        invariant forall id :: id in before ==>
                    (id in releases <==> id in sorted[i..] || ToRelease(id) in retained)
        invariant forall id :: id in removed <==> id in before && id !in releases
      {
        var id := sorted[i];
        assert sorted[i..] == [id] + sorted[i + 1..];
        if ToRelease(id) !in retained {
          releases := releases - {id};
          removed := removed + [id];
        }
      }
    }
  }

  // ---------------------------------------------------------------- what pruning keeps

  /** The active and the protected releases stay, with all that is known of them, and current is not touched. */
  lemma PruneKeepsProtected(s: State, keep: nat, protected: seq<string>, id: string)
    requires id in s.releases && (s.current == Some(ToRelease(id)) || id in protected)
    ensures id in Pruned(s, keep, protected).releases && Pruned(s, keep, protected).releases[id] == s.releases[id]
    ensures Pruned(s, keep, protected).current == s.current
  {
  }

  /** No complete release is removed that is newer than one kept only for its age. */
  lemma PruneKeepsNewer(s: State, keep: nat, protected: seq<string>, kept: string, newer: string)
    requires kept in s.releases && newer in s.releases && s.releases[newer].complete
    requires s.releases[newer].mtime > s.releases[kept].mtime || (s.releases[newer].mtime == s.releases[kept].mtime && TextLess(kept, newer))
    requires ToRelease(kept) !in Base(s, protected) && kept in Pruned(s, keep, protected).releases
    ensures newer in Pruned(s, keep, protected).releases
  {
    forall c | c in NewerThan(s, protected, newer)
      ensures c in NewerThan(s, protected, kept)
    {
      NewerOrder(s.releases, c, newer, kept);
    }
    Fits(NewerThan(s, protected, newer), NewerThan(s, protected, kept));
  }

  /** Of a set in order, those with fewer than n before them are the first n, or all. */
  lemma FirstFew(releases: map<string, Release>, all: set<string>, n: nat, few: set<string>)
    requires forall id :: id in all ==> id in releases
    requires few == set id | id in all && |set c | c in all && Newer(releases, c, id)| < n
    ensures |few| == if |all| < n then |all| else n
  {
    Fits(few, all);
    if few != {} {
      var _, oldest := Ends(releases, few);
      var before := set c | c in all && Newer(releases, c, oldest);
      Fits(few - {oldest}, before);
    }
    var others := all - few;
    if others != {} {
      var newest, _ := Ends(releases, others);
      var before := set c | c in all && Newer(releases, c, newest);
      forall c | c in before
        ensures c in few
      {
        NewerOrder(releases, c, newest, newest);
      }
      Fits(before, few);
    } else {
      assert few == all;
    }
  }

  /**
   Pruning leaves the active, the protected, and as many of the newest other complete releases as fit:
   never more than the larger of the limit and the number of active and protected ones.
   */
  lemma PruneLeavesFew(s: State, keep: nat, protected: seq<string>)
    ensures |Pruned(s, keep, protected).releases| <=
            (if |Base(s, protected)| > keep then |Base(s, protected)| else keep)
    ensures var kept := set id | id in Candidates(s, protected) && id in Pruned(s, keep, protected).releases;
            var places := if |Base(s, protected)| > keep then 0 else keep - |Base(s, protected)|;
            |kept| == if |Candidates(s, protected)| < places then |Candidates(s, protected)| else places
  {
    var base, candidates := Base(s, protected), Candidates(s, protected);
    var places := if |base| > keep then 0 else keep - |base|;
    var kept := set id | id in candidates && |set c | c in candidates && Newer(s.releases, c, id)| < places;
    FirstFew(s.releases, candidates, places, kept);
    forall id | id in candidates
      ensures id in kept <==> id in Pruned(s, keep, protected).releases
    {
      assert NewerThan(s, protected, id) == set c | c in candidates && Newer(s.releases, c, id);
    }
    assert kept == set id | id in Candidates(s, protected) && id in Pruned(s, keep, protected).releases;
    var left := Pruned(s, keep, protected).releases.Keys;
    var links := set id | id in left :: ToRelease(id);
    var keptLinks := set id | id in kept :: ToRelease(id);
    AsManyLinks(left, links);
    AsManyLinks(kept, keptLinks);
    assert links <= base + keptLinks;
    Fits(links, base + keptLinks);
  }

  /** Pruning again removes nothing more. */
  lemma PruneTwice(s: State, keep: nat, protected: seq<string>)
    ensures Pruned(Pruned(s, keep, protected), keep, protected) == Pruned(s, keep, protected)
  {
    var once := Pruned(s, keep, protected);
    assert Base(once, protected) == Base(s, protected);
    forall id | id in once.releases
      ensures Keeps(once, keep, protected, id)
    {
      if ToRelease(id) !in Base(s, protected) {
        Fits(NewerThan(once, protected, id), NewerThan(s, protected, id));
      }
    }
  }

  /**
   After activating a release and pruning with the previous one protected, rolling back restores the
   previous target: exactly when that was a complete release with a valid name.
   */
  lemma RollbackRestores(s: State, id: string, previous: string, keep: nat, protected: seq<string>)
    requires s.current == Some(ToRelease(previous)) && CanActivate(s, id) && previous in protected
    ensures CanActivate(Pruned(s.(current := Some(ToRelease(id))), keep, protected), previous) <==> CanActivate(s, previous)
    ensures var after := Pruned(s.(current := Some(ToRelease(id))), keep, protected);
            after.current == Some(ToRelease(id)) && CanActivate(after, id)
  {
    PruneKeepsProtected(s.(current := Some(ToRelease(id))), keep, protected, id);
    if previous in s.releases {
      PruneKeepsProtected(s.(current := Some(ToRelease(id))), keep, protected, previous);
    }
  }

  /** The three steps as they are run, one after the other. */
  method ActivatePruneRollBack(d: Deployment, id: string, keep: nat) returns (ok: bool)
    requires keep >= 2 && d.current.Some? && d.current.value.ToRelease?
    requires CanActivate(d.Current(), id) && CanActivate(d.Current(), d.current.value.id)
    modifies d
    ensures ok && d.current == old(d.current)
  {
    var previous := d.ActivateRelease(id);
    label activated:
    var pruned := d.PruneReleases(keep, [previous.value.value.id]);
    RollbackRestores(old(d.Current()), id, previous.value.value.id, keep, [previous.value.value.id]);
    var r := d.RollbackRelease(previous.value.value);
    ok := r.Ok?;
  }
}

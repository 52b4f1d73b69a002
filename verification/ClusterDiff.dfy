/** The change detector that decides whether a reported cluster state replaces the cached one. */
module ClusterDiff {
  import opened Wrappers
  import opened Entities

  /** The order in which texts sort: character by character, a prefix first. */
  predicate TextLeq(a: string, b: string) {
    a == "" || (b != "" && (a[0] < b[0] || (a[0] == b[0] && TextLeq(a[1..], b[1..]))))
  }

  lemma {:induction false} TextLeqAntisymmetric(a: string, b: string)
    requires TextLeq(a, b) && TextLeq(b, a)
    ensures a == b
  {
    if a != "" {
      TextLeqAntisymmetric(a[1..], b[1..]);
      assert a == [a[0]] + a[1..] && b == [b[0]] + b[1..];
    }
  }

  lemma {:induction false} TextLeqTransitive(a: string, b: string, c: string)
    requires TextLeq(a, b) && TextLeq(b, c)
    ensures TextLeq(a, c)
  {
    if a != "" && a[0] == b[0] == c[0] {
      TextLeqTransitive(a[1..], b[1..], c[1..]);
    }
  }

  lemma {:induction false} TextLeqTotal(a: string, b: string)
    ensures TextLeq(a, b) || TextLeq(b, a)
  {
    if a != "" && b != "" && a[0] == b[0] {
      TextLeqTotal(a[1..], b[1..]);
    }
  }

  ghost predicate IsSorted(s: seq<string>) {
    forall i, j :: 0 <= i <= j < |s| ==> TextLeq(s[i], s[j])
  }

  function Insert(x: string, s: seq<string>): seq<string> {
    if s == [] then [x]
    else if TextLeq(x, s[0]) then [x] + s
    else [s[0]] + Insert(x, s[1..])
  }

  /** The library's sort, which is known only by its result. */
  function Sorted(s: seq<string>): seq<string> {
    if s == [] then [] else Insert(s[0], Sorted(s[1..]))
  }

  lemma {:induction false} InsertKeeps(x: string, s: seq<string>)
    ensures multiset(Insert(x, s)) == multiset(s) + multiset{x}
  {
    if s != [] && !TextLeq(x, s[0]) {
      InsertKeeps(x, s[1..]);
      assert s == [s[0]] + s[1..];
    }
  }

  lemma {:induction false} InsertSorted(x: string, s: seq<string>)
    requires IsSorted(s)
    ensures IsSorted(Insert(x, s))
  {
    TextLeqTotal(x, x);
    if s == [] {
    } else if TextLeq(x, s[0]) {
      forall j | 0 <= j < |s| ensures TextLeq(x, s[j]) {
        TextLeqTransitive(x, s[0], s[j]);
      }
    } else {
      TextLeqTotal(x, s[0]);
      TextLeqTotal(s[0], s[0]);
      InsertSorted(x, s[1..]);
      var t := Insert(x, s[1..]);
      InsertKeeps(x, s[1..]);
      forall j | 0 <= j < |t| ensures TextLeq(s[0], t[j]) {
        assert t[j] in multiset(t);
        assert t[j] == x || t[j] in s[1..];
      }
    }
  }

  lemma {:induction false} SortedIsSorted(s: seq<string>)
    ensures IsSorted(Sorted(s))
    ensures multiset(Sorted(s)) == multiset(s)
  {
    if s != [] {
      SortedIsSorted(s[1..]);
      InsertSorted(s[0], Sorted(s[1..]));
      InsertKeeps(s[0], Sorted(s[1..]));
      assert s == [s[0]] + s[1..];
    }
  }

  lemma SortedHeadLeast(s: seq<string>, x: string)
    requires IsSorted(s) && x in multiset(s)
    ensures TextLeq(s[0], x)
  {
    var i :| 0 <= i < |s| && s[i] == x;
  }

  lemma TailBag(s: seq<string>)
    requires s != []
    ensures multiset(s[1..]) == multiset(s) - multiset{s[0]} && s[0] in multiset(s)
  {
    assert s == [s[0]] + s[1..];
  }

  lemma {:induction false} SortedUnique(s: seq<string>, t: seq<string>)
    requires IsSorted(s) && IsSorted(t) && multiset(s) == multiset(t)
    ensures s == t
  {
    assert |multiset(s)| == |s| && |multiset(t)| == |t|;
    if s != [] {
      TailBag(s);
      TailBag(t);
      SortedHeadLeast(t, s[0]);
      SortedHeadLeast(s, t[0]);
      TextLeqAntisymmetric(s[0], t[0]);
      TailSorted(s);
      TailSorted(t);
      SortedUnique(s[1..], t[1..]);
    }
  }

  lemma TailSorted(s: seq<string>)
    requires s != [] && IsSorted(s)
    ensures IsSorted(s[1..])
  {
  }

  function WireIds(ws: seq<Server>): seq<string> {
    seq(|ws|, i requires 0 <= i < |ws| => ws[i].id)
  }

  /** `servers_differ`: both id vectors are sorted, then compared. */
  method ServersDiffer(a: seq<Server>, b: seq<Server>) returns (differ: bool)
    ensures differ <==> multiset(WireIds(a)) != multiset(WireIds(b))
  {
    var aIds, bIds := WireIds(a), WireIds(b);
    SortedIsSorted(aIds);
    SortedIsSorted(bIds);
    aIds, bIds := Sorted(aIds), Sorted(bIds);
    if multiset(aIds) == multiset(bIds) {
      SortedUnique(aIds, bIds);
    }
    differ := aIds != bIds;
  }

  predicate GroupDiffers(a: Group, b: Group) {
    a.scheduler.Some? && b.scheduler.Some? && a.scheduler.value.id != b.scheduler.value.id
  }

  /** What `cluster_differs` answers. Instances are compared by their number only. */
  ghost predicate Differs(a: ClusterState, b: ClusterState) {
    || (if a.group.Some? && b.group.Some? then GroupDiffers(a.group.value, b.group.value)
        else a.group == b.group)
    || multiset(WireIds(a.servers)) != multiset(WireIds(b.servers))
    || |a.instances| != |b.instances|
  }

  method ClusterDiffers(a: ClusterState, b: ClusterState) returns (differ: bool)
    ensures differ <==> Differs(a, b)
  {
    var groupChanged := match (a.group, b.group) {
      case (Some(ga), Some(gb)) => GroupDiffers(ga, gb)
      case (None, None) => true
      case (_, _) => false
    };
    var serversChanged := ServersDiffer(a.servers, b.servers);
    differ := groupChanged || serversChanged || |a.instances| != |b.instances|;
  }

  /** What the detector can see of a state. */
  datatype Fingerprint = Fingerprint(scheduler: string, ids: multiset<string>, instances: nat)

  /** States made from a cluster always name a group and its scheduler. */
  predicate NamesScheduler(w: ClusterState) {
    w.group.Some? && w.group.value.scheduler.Some?
  }

  ghost function FingerprintOf(w: ClusterState): Fingerprint
    requires NamesScheduler(w)
  {
    Fingerprint(w.group.value.scheduler.value.id, multiset(WireIds(w.servers)), |w.instances|)
  }

  /** On states that name a scheduler the detector compares fingerprints, so "no difference" is an
      equivalence there. */
  lemma DiffersIsFingerprint(a: ClusterState, b: ClusterState)
    requires NamesScheduler(a) && NamesScheduler(b)
    ensures Differs(a, b) <==> FingerprintOf(a) != FingerprintOf(b)
  {
  }

  /** Elsewhere it is not: a state without a group differs from itself, and only such a state does. */
  lemma DiffersFromItself(a: ClusterState)
    ensures Differs(a, a) <==> a.group.None?
  {
  }

  /** A state without a group is equal to two states that differ from each other. */
  lemma GrouplessBreaksTransitivity(a: ClusterState, b: ClusterState)
    requires NamesScheduler(a) && NamesScheduler(b)
    requires a.servers == b.servers && a.instances == b.instances
    ensures var none := a.(group := None);
            !Differs(a, none) && !Differs(none, b)
            && (Differs(a, b) <==> a.group.value.scheduler.value.id != b.group.value.scheduler.value.id)
  {
  }

  // ----- the reporter's cache -----

  /** `put_cluster`: keep the cached state unless the detector sees a change. */
  ghost function Put(last: Option<ClusterState>, current: Option<ClusterState>): Option<ClusterState> {
    if (last.Some? && current.Some? && !Differs(last.value, current.value)) || last == current == None
    then last else current
  }

  /** The cache after a sequence of report responses, starting empty. */
  ghost function CacheAfter(responses: seq<Option<ClusterState>>): Option<ClusterState> {
    if responses == [] then None
    else Put(CacheAfter(responses[..|responses| - 1]), responses[|responses| - 1])
  }

  /** The cache is one of the responses, and the detector cannot tell it from the latest one. */
  lemma {:induction false} CacheRefinesLatest(responses: seq<Option<ClusterState>>)
    requires responses != []
    requires forall r :: r in responses && r.Some? ==> NamesScheduler(r.value)
    ensures var cache, latest := CacheAfter(responses), responses[|responses| - 1];
            && cache in responses
            && (cache.Some? <==> latest.Some?)
            && (latest.Some? ==> FingerprintOf(cache.value) == FingerprintOf(latest.value))
  {
    if |responses| > 1 {
      CacheRefinesLatest(responses[..|responses| - 1]);
    }
  }

  /** Two responses the detector cannot tell apart. */
  ghost predicate Same(a: Option<ClusterState>, b: Option<ClusterState>) {
    if a.Some? && b.Some? then !Differs(a.value, b.value) else a == b
  }

  /** From position i on, all responses look the same, and the one before i does not. */
  ghost predicate LastStretch(responses: seq<Option<ClusterState>>, i: nat) {
    && i < |responses|
    && (forall j :: i <= j < |responses| ==> Same(responses[i], responses[j]))
    && (i > 0 ==> !Same(responses[i - 1], responses[i]))
  }

  /** The cache is the oldest response of the last stretch in which the detector saw no change. */
  lemma {:induction false} CacheStartsStretch(responses: seq<Option<ClusterState>>) returns (i: nat)
    requires responses != []
    requires forall r :: r in responses && r.Some? ==> NamesScheduler(r.value)
    ensures LastStretch(responses, i) && CacheAfter(responses) == responses[i]
  {
    var n := |responses| - 1;
    if n == 0 {
      i := 0;
    } else {
      i := CacheStartsStretch(responses[..n]);
      assert responses[n - 1] in responses && responses[i] in responses && responses[n] in responses;
      assert Same(responses[i], responses[n - 1]) by { assert responses[..n][n - 1] == responses[n - 1]; }
      if !Same(responses[i], responses[n]) {
        i := n;
      }
    }
  }
}

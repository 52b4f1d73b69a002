/** Electing from the cache and electing from the latest response: the cache may hold an older response,
    and the outcome is the same. */
module CacheElections {
  import opened Wrappers
  import opened Identifiers
  import opened Entities
  import opened ClusterDiff
  import opened Clusters

  function Mapped<T, U>(f: T -> U, s: seq<T>): seq<U> {
    if s == [] then [] else Mapped(f, s[..|s| - 1]) + [f(s[|s| - 1])]
  }

  lemma {:induction false} MappedConcat<T, U>(f: T -> U, a: seq<T>, b: seq<T>)
    ensures Mapped(f, a + b) == Mapped(f, a) + Mapped(f, b)
  {
    if b == [] {
      assert a + b == a;
    } else {
      MappedConcat(f, a, b[..|b| - 1]);
      assert (a + b)[..|a + b| - 1] == a + b[..|b| - 1];
    }
  }

  lemma TakeOut<T, U>(f: T -> U, s: seq<T>, x: T) returns (rest: seq<T>)
    requires x in s
    ensures |rest| < |s|
    ensures multiset(s) == multiset(rest) + multiset{x}
    ensures multiset(Mapped(f, s)) == multiset(Mapped(f, rest)) + multiset{f(x)}
  {
    var i :| 0 <= i < |s| && s[i] == x;
    var a, b := s[..i], s[i + 1..];
    rest := a + b;
    assert s == a + ([x] + b);
    MappedConcat(f, a, [x] + b);
    MappedConcat(f, [x], b);
    MappedConcat(f, a, b);
  }

  /** Equal bags of inputs give equal bags of results. */
  lemma {:induction false} MappedBags<T, U>(f: T -> U, a: seq<T>, b: seq<T>)
    requires multiset(a) == multiset(b)
    ensures multiset(Mapped(f, a)) == multiset(Mapped(f, b))
    decreases |a|
  {
    if a == [] {
      assert |multiset(b)| == |b|;
    } else {
      assert a[0] in multiset(a);
      assert a[0] in multiset(b);
      var restA := TakeOut(f, a, a[0]);
      var restB := TakeOut(f, b, a[0]);
      assert multiset(restA) == multiset(a) - multiset{a[0]} == multiset(restB);
      MappedBags(f, restA, restB);
    }
  }

  /** The identifier a text stands for; 0 for a text that is none. */
  function IdIn(text: string): Uuid {
    match ParseUuid(text)
    case Some(id) => id
    case None => 0
  }

  lemma {:induction false} ServersParsed(ws: seq<Server>)
    requires ServersFromWire(ws).Success?
    ensures Mapped(IdIn, WireIds(ws)) == Ids(ServersFromWire(ws).value)
  {
    if ws != [] {
      ServersParsed(ws[..|ws| - 1]);
      assert WireIds(ws)[..|ws| - 1] == WireIds(ws[..|ws| - 1]);
    }
  }

  /** States that the detector cannot tell apart elect the same id, or both leave nobody. */
  lemma SameElection(v: ClusterState, w: ClusterState)
    requires ClusterFromWire(v).Success? && ClusterFromWire(w).Success?
    requires NamesScheduler(v) && NamesScheduler(w) && FingerprintOf(v) == FingerprintOf(w)
    ensures var c, d := ClusterFromWire(v).value, ClusterFromWire(w).value;
            && (AfterLoss(c).Some? <==> AfterLoss(d).Some?)
            && (AfterLoss(c).Some? ==>
                AfterLoss(c).value.group.scheduler.id == AfterLoss(d).value.group.scheduler.id)
  {
    ServersParsed(v.servers);
    ServersParsed(w.servers);
    MappedBags(IdIn, WireIds(v.servers), WireIds(w.servers));
    ElectionByFingerprint(ClusterFromWire(v).value, ClusterFromWire(w).value);
  }

  ghost predicate Readable(r: Option<ClusterState>) {
    r.Some? ==> ClusterFromWire(r.value).Success?
  }

  /** Whatever readable responses came, in whatever notation their ids are written: the cache is readable
      when the latest response is there, and electing from it picks the id that electing from the latest
      response would, although the cache may be an older one. */
  lemma CacheElectsLatest(responses: seq<Option<ClusterState>>)
    requires responses != [] && responses[|responses| - 1].Some?
    requires forall r :: r in responses ==> Readable(r)
    ensures CacheAfter(responses).Some? && Readable(CacheAfter(responses))
    ensures Readable(responses[|responses| - 1])
    ensures var c := ClusterFromWire(CacheAfter(responses).value).value;
            var d := ClusterFromWire(responses[|responses| - 1].value).value;
            && (AfterLoss(c).Some? <==> AfterLoss(d).Some?)
            && (AfterLoss(c).Some? ==>
                AfterLoss(c).value.group.scheduler.id == AfterLoss(d).value.group.scheduler.id)
  {
    forall r | r in responses && r.Some? ensures NamesScheduler(r.value) {
      assert Readable(r);
    }
    CacheRefinesLatest(responses);
    assert responses[|responses| - 1] in responses;
    SameElection(CacheAfter(responses).value, responses[|responses| - 1].value);
  }
}

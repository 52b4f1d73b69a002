/** Looking up: which host a client is sent to. */
module Lookups {
  import opened Identifiers
  import opened Entities
  import opened Clusters
  import opened SchedulerRuns
  import opened SchedulerInvariants
  import opened Scheduling

  lemma HostsLater(a: ClusterValue, b: ClusterValue, d: Uuid, id: Uuid)
    requires Earlier(a, b) && id in Ids(Hosts(a.instances, d))
    ensures d in b.instances && id in Ids(Hosts(b.instances, d))
  {
    var i :| 0 <= i < |Ids(Hosts(a.instances, d))| && Ids(Hosts(a.instances, d))[i] == id;
    assert a.instances[d].servers <= b.instances[d].servers;
    assert Ids(b.instances[d].servers)[i] == id;
  }

  /** A lookup has no candidates exactly when none of the hosts has statistics. */
  lemma CandidatesByHosts(q: Query)
    ensures forall k :: k in Candidates(q) ==>
      k in Ids(Hosts(q.seen.instances, q.deployment)) && k in q.seen.stats
    ensures Candidates(q) == map[] <==>
      forall h :: h in Hosts(q.seen.instances, q.deployment) ==> h.id !in q.seen.stats
  {
    var hosts := Hosts(q.seen.instances, q.deployment);
    forall h | h in hosts ensures h.id in Ids(hosts) {
      var i :| 0 <= i < |hosts| && hosts[i] == h;
      assert Ids(hosts)[i] == h.id;
    }
    if h :| h in hosts && h.id in q.seen.stats {
      assert h.id in Candidates(q);
    }
    if Candidates(q) != map[] {
      assert Candidates(q).Keys != {};
      var k :| k in Candidates(q);
      var i :| 0 <= i < |Ids(hosts)| && Ids(hosts)[i] == k;
      assert hosts[i] in hosts;
    }
  }

  /** An answer computed from a copy of the cluster whose statistics hold what was reported: which of the
      three it is, and which host is the target. */
  lemma AnswerMeans(q: Query, listing: seq<Uuid>, es: seq<Event>)
    requires ClusterInv(q.seen) && IsListing(listing, Candidates(q).Keys) && HoldsReports(q.seen.stats, es)
    ensures var a, hosts := AnswerTo(q, listing), Hosts(q.seen.instances, q.deployment);
            && (a == NotFound <==> q.deployment !in q.seen.instances)
            && (a == CannotSchedule <==>
                q.deployment in q.seen.instances && forall h :: h in hosts ==> h.id !in q.seen.stats)
            && (a.Target? ==> Scheduled(es, listing, a.server)
                              && a.server.id in q.seen.stats && a.server.id in Ids(hosts))
  {
    ChoiceFrom(Candidates(q), listing);
    CandidatesByHosts(q);
    if q.deployment in q.seen.instances && listing != [] {
      ChoiceIsScheduled(Candidates(q), listing, es);
    }
  }

  lemma ReadStep(s: System, es: seq<Event>, at: nat, ticket: nat, d: Uuid)
    requires IsRun(s, es)
    requires at < |es| && es[at] == ReadLookup(ticket, d)
    ensures IsRun(s, es[..at]) && IsRun(s, es[..at + 1])
    ensures var queries := After(s, es[..at + 1]).queries;
            ticket in queries && queries[ticket] == Query(d, After(s, es[..at]).cluster)
  {
    RunGrows(s, es, at + 1);
    assert es[..at + 1][..at] == es[..at];
  }

  lemma ReplyStep(s: System, ticket: nat, listing: seq<Uuid>)
    requires Enabled(s, ReplyLookup(ticket, listing))
    ensures var now := Apply(s, ReplyLookup(ticket, listing));
            && IsListing(listing, Candidates(s.queries[ticket]).Keys)
            && ticket in now.answers && now.answers[ticket] == AnswerTo(s.queries[ticket], listing)
  {
  }

  /** A lookup replies from the state at its read, whatever happens in between. */
  lemma LookupReadsOnce(s: System, es: seq<Event>, at: nat, ticket: nat, d: Uuid, listing: seq<Uuid>)
    requires IsRun(s, es)
    requires at < |es| - 1 && es[at] == ReadLookup(ticket, d)
    requires es[|es| - 1] == ReplyLookup(ticket, listing)
    ensures IsRun(s, es[..at])
    ensures var q := Query(d, After(s, es[..at]).cluster);
            && IsListing(listing, Candidates(q).Keys)
            && ticket in After(s, es).answers
            && After(s, es).answers[ticket] == AnswerTo(q, listing)
  {
    var front := es[..|es| - 1];
    ReadStep(s, front, at, ticket, d);
    assert front[..at] == es[..at];
    RunGrows(s, front, at + 1);
    assert front[..at + 1] == es[..at + 1];
    ReplyStep(After(s, front), ticket, listing);
  }

  /** For every interleaving of a lookup's two sections with anything else: the answer is "not found"
      exactly when the deployment had no instances at the read, and "cannot schedule" exactly when it had
      but none of its hosts had reported by then. Otherwise it is the server that the reports up to the read
      decide for among the hosts that had reported, and it still hosts the deployment at the reply. */
  lemma LookupSound(s: System, es: seq<Event>, at: nat, ticket: nat, d: Uuid, listing: seq<Uuid>)
    requires Inv(s) && s.cluster.stats == map[] && IsRun(s, es)
    requires at < |es| - 1 && es[at] == ReadLookup(ticket, d)
    requires es[|es| - 1] == ReplyLookup(ticket, listing)
    ensures IsRun(s, es[..at])
    ensures var read, now := After(s, es[..at]).cluster, After(s, es);
            && ticket in now.answers
            && (forall id :: id in listing <==>
                  id in Ids(Hosts(read.instances, d)) && HasReported(es[..at], id))
            && (now.answers[ticket] == NotFound <==> d !in read.instances)
            && (now.answers[ticket] == CannotSchedule <==>
                d in read.instances
                && forall h :: h in read.instances[d].servers ==> !HasReported(es[..at], h.id))
            && (now.answers[ticket].Target? ==>
                var t := now.answers[ticket].server;
                && Scheduled(es[..at], listing, t)
                && t.id in Ids(Hosts(read.instances, d))
                && t.id in Ids(Hosts(now.cluster.instances, d)))
  {
    LookupReadsOnce(s, es, at, ticket, d, listing);
    RunGrows(s, es, at);
    RunInv(s, es[..at]);
    var read := After(s, es[..at]).cluster;
    StatsHoldReports(s, es[..at]);
    AnswerMeans(Query(d, read), listing, es[..at]);
    forall id: Uuid ensures id in read.stats <==> HasReported(es[..at], id) {
      StatsAreReporters(s, es[..at], id);
    }
    var answer := After(s, es).answers[ticket];
    if answer.Target? {
      HostsLater(read, After(s, es).cluster, d, answer.server.id);
    }
  }
}

/**
 What creating a job computes from the prepared payloads, what its frozen snapshot holds, and what an
 idempotent replay reads back from that snapshot.
 */
module JobPlan {
  import opened Options

  /** A version-5 identifier of an agent and a check; it is injective in the pair. */
  datatype RecordId = RecordId(agent: string, check: string)

  datatype Frozen = Frozen(record: RecordId, metricId: string, version: nat, checkId: string,
                           priority: int, maxAttempts: Option<nat>)

  datatype Prepared = Prepared(file: string, agent: string, metrics: seq<Frozen>)

  datatype NewTicket = NewTicket(file: string, record: RecordId, metricId: string, version: nat, checkId: string,
                                 agent: string, priority: int, maxAttempts: nat)

  datatype MetricEntry = MetricEntry(record: RecordId, metricId: string, version: nat, checkId: string)

  datatype Snapshot = Snapshot(payloads: seq<(string, string)>, agents: seq<(string, seq<MetricEntry>)>)

  datatype Created = Created(ticketCount: nat, payloadCount: nat, dataset: string, metricIds: seq<string>,
                             profiles: seq<string>, byAgent: map<string, nat>)

  // ---------------------------------------------------------------- tickets

  function TicketOf(p: Prepared, f: Frozen, priority: Option<int>, fallback: nat): NewTicket {
    NewTicket(p.file, f.record, f.metricId, f.version, f.checkId, p.agent,
              if priority.Some? then priority.value else f.priority,
              if f.maxAttempts.Some? then f.maxAttempts.value else fallback)
  }

  function TicketsOfPayload(p: Prepared, n: nat, priority: Option<int>, fallback: nat): (ts: seq<NewTicket>)
    requires n <= |p.metrics|
    ensures |ts| == n && forall i :: 0 <= i < n ==> ts[i] == TicketOf(p, p.metrics[i], priority, fallback)
  {
    if n == 0 then []
    else TicketsOfPayload(p, n - 1, priority, fallback) + [TicketOf(p, p.metrics[n - 1], priority, fallback)]
  }

  /** One ticket per payload file and metric, payload by payload. */
  function TicketsFor(prepared: seq<Prepared>, priority: Option<int>, fallback: nat): seq<NewTicket> {
    if prepared == [] then []
    else
      var last := prepared[|prepared| - 1];
      TicketsFor(prepared[..|prepared| - 1], priority, fallback)
      + TicketsOfPayload(last, |last.metrics|, priority, fallback)
  }

  predicate DistinctFiles(prepared: seq<Prepared>) {
    forall i, k :: 0 <= i < k < |prepared| ==> prepared[i].file != prepared[k].file
  }

  predicate DistinctRecords(metrics: seq<Frozen>) {
    forall i, k :: 0 <= i < k < |metrics| ==> metrics[i].record != metrics[k].record
  }

  predicate NoSharedWork(tickets: seq<NewTicket>) {
    forall i, k :: 0 <= i < k < |tickets| ==>
      tickets[i].file != tickets[k].file || tickets[i].record != tickets[k].record
  }

  lemma {:induction false} TicketsNameTheirFile(prepared: seq<Prepared>, priority: Option<int>, fallback: nat,
                                                t: NewTicket)
    requires t in TicketsFor(prepared, priority, fallback)
    ensures exists p :: p in prepared && p.file == t.file
  {
    var last := prepared[|prepared| - 1];
    if t in TicketsFor(prepared[..|prepared| - 1], priority, fallback) {
      TicketsNameTheirFile(prepared[..|prepared| - 1], priority, fallback, t);
    } else {
      assert t in TicketsOfPayload(last, |last.metrics|, priority, fallback);
      assert last in prepared;
    }
  }

  /** No two tickets of a job evaluate the same metric record on the same payload file. */
  lemma {:induction false} TicketsShareNoWork(prepared: seq<Prepared>, priority: Option<int>, fallback: nat)
    requires DistinctFiles(prepared) && forall p :: p in prepared ==> DistinctRecords(p.metrics)
    ensures NoSharedWork(TicketsFor(prepared, priority, fallback))
  {
    if prepared != [] {
      var init, last := prepared[..|prepared| - 1], prepared[|prepared| - 1];
      TicketsShareNoWork(init, priority, fallback);
      var before := TicketsFor(init, priority, fallback);
      var added := TicketsOfPayload(last, |last.metrics|, priority, fallback);
      assert last in prepared;
      var all: seq<NewTicket> := before + added;
      forall i, k | 0 <= i < k < |all|
        ensures all[i].file != all[k].file || all[i].record != all[k].record
      {
        if i < |before| <= k {
          TicketsNameTheirFile(init, priority, fallback, before[i]);
        } else if |before| <= i {
          assert last.metrics[i - |before|].record != last.metrics[k - |before|].record;
        }
      }
    }
  }

  /** The number of tickets is the number of payload and metric pairs. */
  function PairCount(prepared: seq<Prepared>): nat {
    if prepared == [] then 0 else PairCount(prepared[..|prepared| - 1]) + |prepared[|prepared| - 1].metrics|
  }

  lemma {:induction false} OneTicketPerPair(prepared: seq<Prepared>, priority: Option<int>, fallback: nat)
    ensures |TicketsFor(prepared, priority, fallback)| == PairCount(prepared)
  {
    if prepared != [] {
      OneTicketPerPair(prepared[..|prepared| - 1], priority, fallback);
    }
  }

  /** Every frozen metric carries its own attempt limit, so the limit in the request changes no ticket. */
  lemma {:induction false} RequestedLimitIsUnused(prepared: seq<Prepared>, priority: Option<int>, a: nat, b: nat)
    requires forall p, f :: p in prepared && f in p.metrics ==> f.maxAttempts.Some?
    ensures TicketsFor(prepared, priority, a) == TicketsFor(prepared, priority, b)
  {
    if prepared != [] {
      var last := prepared[|prepared| - 1];
      RequestedLimitIsUnused(prepared[..|prepared| - 1], priority, a, b);
      assert last in prepared;
      var ta := TicketsOfPayload(last, |last.metrics|, priority, a);
      var tb := TicketsOfPayload(last, |last.metrics|, priority, b);
      forall i | 0 <= i < |last.metrics|
        ensures ta[i] == tb[i]
      {
        assert last.metrics[i] in last.metrics;
      }
      assert ta == tb;
    }
  }

  // ---------------------------------------------------------------- first occurrences

  function AddNew(found: seq<string>, x: string): seq<string> {
    if x in found then found else found + [x]
  }

  /** `found` followed by the entries of `more` that are new, each once, in order of first occurrence. */
  function Extend(found: seq<string>, more: seq<string>): seq<string> {
    if more == [] then found else AddNew(Extend(found, more[..|more| - 1]), more[|more| - 1])
  }

  function Unique(s: seq<string>): seq<string> {
    Extend([], s)
  }

  lemma {:induction false} ExtendAppend(found: seq<string>, a: seq<string>, b: seq<string>)
    ensures Extend(found, a + b) == Extend(Extend(found, a), b)
  {
    if b == [] {
      assert a + b == a;
    } else {
      assert (a + b)[..|a + b| - 1] == a + b[..|b| - 1];
      ExtendAppend(found, a, b[..|b| - 1]);
    }
  }

  lemma {:induction false} ExtendByKnown(found: seq<string>, more: seq<string>)
    requires forall x :: x in more ==> x in found
    ensures Extend(found, more) == found
  {
    if more != [] {
      ExtendByKnown(found, more[..|more| - 1]);
    }
  }

  lemma {:induction false} ExtendHas(found: seq<string>, more: seq<string>)
    ensures forall x :: x in Extend(found, more) <==> x in found || x in more
  {
    if more != [] {
      ExtendHas(found, more[..|more| - 1]);
      assert more == more[..|more| - 1] + [more[|more| - 1]];
    }
  }

  // ---------------------------------------------------------------- the snapshot

  function Ids(metrics: seq<Frozen>): (ids: seq<string>)
    ensures |ids| == |metrics| && forall i :: 0 <= i < |ids| ==> ids[i] == metrics[i].metricId
  {
    EntryIds(Entries(metrics))
  }

  function Entries(metrics: seq<Frozen>): (entries: seq<MetricEntry>)
    ensures |entries| == |metrics|
    ensures forall i :: 0 <= i < |entries| ==>
              entries[i] == MetricEntry(metrics[i].record, metrics[i].metricId, metrics[i].version, metrics[i].checkId)
  {
    seq(|metrics|, i requires 0 <= i < |metrics| =>
      MetricEntry(metrics[i].record, metrics[i].metricId, metrics[i].version, metrics[i].checkId))
  }

  function EntryIds(entries: seq<MetricEntry>): (ids: seq<string>)
    ensures |ids| == |entries| && forall i :: 0 <= i < |ids| ==> ids[i] == entries[i].metricId
  {
    seq(|entries|, i requires 0 <= i < |entries| => entries[i].metricId)
  }

  predicate HasAgent(agents: seq<(string, seq<MetricEntry>)>, agent: string) {
    exists i :: 0 <= i < |agents| && agents[i].0 == agent
  }

  function EntriesOf(agents: seq<(string, seq<MetricEntry>)>, agent: string): seq<MetricEntry> {
    if agents == [] then []
    else if agents[|agents| - 1].0 == agent then agents[|agents| - 1].1
    else EntriesOf(agents[..|agents| - 1], agent)
  }

  function AddPayload(s: Snapshot, p: Prepared): Snapshot {
    Snapshot(s.payloads + [(p.file, p.agent)],
             if HasAgent(s.agents, p.agent) then s.agents else s.agents + [(p.agent, Entries(p.metrics))])
  }

  function SnapshotOf(prepared: seq<Prepared>): Snapshot {
    if prepared == [] then Snapshot([], [])
    else AddPayload(SnapshotOf(prepared[..|prepared| - 1]), prepared[|prepared| - 1])
  }

  // ---------------------------------------------------------------- creation and replay

  function MetricIdsOf(prepared: seq<Prepared>): seq<string> {
    if prepared == [] then [] else MetricIdsOf(prepared[..|prepared| - 1]) + Ids(prepared[|prepared| - 1].metrics)
  }

  function AgentsOf(prepared: seq<Prepared>): (agents: seq<string>)
    ensures |agents| == |prepared| && forall i :: 0 <= i < |agents| ==> agents[i] == prepared[i].agent
  {
    seq(|prepared|, i requires 0 <= i < |prepared| => prepared[i].agent)
  }

  function Plus(counts: map<string, nat>, agent: string, n: nat): map<string, nat> {
    counts[agent := (if agent in counts then counts[agent] else 0) + n]
  }

  function CountTickets(tickets: seq<NewTicket>): map<string, nat> {
    if tickets == [] then map[] else Plus(CountTickets(tickets[..|tickets| - 1]), tickets[|tickets| - 1].agent, 1)
  }

  /** What creation returns, computed from the ticket list. */
  function CreatedFrom(dataset: string, prepared: seq<Prepared>, priority: Option<int>, fallback: nat): Created {
    var tickets := TicketsFor(prepared, priority, fallback);
    Created(|tickets|, |prepared|, dataset, Unique(MetricIdsOf(prepared)), Unique(AgentsOf(prepared)),
            CountTickets(tickets))
  }

  function SnapshotIds(agents: seq<(string, seq<MetricEntry>)>): seq<string> {
    if agents == [] then []
    else Extend(SnapshotIds(agents[..|agents| - 1]), EntryIds(agents[|agents| - 1].1))
  }

  function SnapshotAgents(agents: seq<(string, seq<MetricEntry>)>): (names: seq<string>)
    ensures |names| == |agents| && forall i :: 0 <= i < |names| ==> names[i] == agents[i].0
  {
    seq(|agents|, i requires 0 <= i < |agents| => agents[i].0)
  }

  function SnapshotCounts(payloads: seq<(string, string)>, agents: seq<(string, seq<MetricEntry>)>): map<string, nat> {
    if payloads == [] then map[]
    else
      var agent := payloads[|payloads| - 1].1;
      Plus(SnapshotCounts(payloads[..|payloads| - 1], agents), agent, |EntriesOf(agents, agent)|)
  }

  /** What a replay returns, computed from the stored totals and the snapshot alone. */
  function ReplayedFrom(dataset: string, total: nat, payloadCount: nat, s: Snapshot): Created {
    Created(total, payloadCount, dataset, SnapshotIds(s.agents), SnapshotAgents(s.agents),
            SnapshotCounts(s.payloads, s.agents))
  }

  // ---------------------------------------------------------------- replay rebuilds creation

  /** Payloads of one agent carry the same metrics, and every payload carries some. */
  predicate Consistent(prepared: seq<Prepared>) {
    && (forall i :: 0 <= i < |prepared| ==> prepared[i].metrics != [])
    && (forall i, k :: 0 <= i < |prepared| && 0 <= k < |prepared| && prepared[i].agent == prepared[k].agent ==>
          prepared[i].metrics == prepared[k].metrics)
  }

  /** The snapshot lists the agents by first occurrence, each with the metrics of its payloads. */
  lemma {:induction false} SnapshotAgentsAreUnique(prepared: seq<Prepared>)
    ensures SnapshotAgents(SnapshotOf(prepared).agents) == Unique(AgentsOf(prepared))
    ensures |SnapshotOf(prepared).payloads| == |prepared|
    ensures forall i :: 0 <= i < |prepared| ==>
              SnapshotOf(prepared).payloads[i] == (prepared[i].file, prepared[i].agent)
  {
    if prepared != [] {
      var init, last := prepared[..|prepared| - 1], prepared[|prepared| - 1];
      var agents := SnapshotOf(init).agents;
      SnapshotAgentsAreUnique(init);
      assert AgentsOf(prepared)[..|prepared| - 1] == AgentsOf(init);
      assert HasAgent(agents, last.agent) <==> last.agent in SnapshotAgents(agents) by {
        if last.agent in SnapshotAgents(agents) {
          var i :| 0 <= i < |agents| && SnapshotAgents(agents)[i] == last.agent;
          assert agents[i].0 == last.agent;
        }
        if HasAgent(agents, last.agent) {
          var i :| 0 <= i < |agents| && agents[i].0 == last.agent;
          assert SnapshotAgents(agents)[i] == last.agent;
        }
      }
      assert SnapshotAgents(agents + [(last.agent, Entries(last.metrics))]) == SnapshotAgents(agents) + [last.agent];
    }
  }

  lemma {:induction false} EntriesFound(prepared: seq<Prepared>, p: Prepared)
    requires Consistent(prepared) && p in prepared
    ensures HasAgent(SnapshotOf(prepared).agents, p.agent)
    ensures EntriesOf(SnapshotOf(prepared).agents, p.agent) == Entries(p.metrics)
  {
    var init, last := prepared[..|prepared| - 1], prepared[|prepared| - 1];
    var agents := SnapshotOf(init).agents;
    if HasAgent(agents, last.agent) {
      if p !in init {
        KnownAgentHasPayload(init, last.agent);
        var q :| q in init && q.agent == last.agent;
        EntriesFound(init, q);
      } else {
        EntriesFound(init, p);
      }
    } else {
      var grown := agents + [(last.agent, Entries(last.metrics))];
      assert grown[..|grown| - 1] == agents;
      assert grown[|agents|].0 == last.agent;
      if p.agent != last.agent {
        assert p in init;
        EntriesFound(init, p);
        var i :| 0 <= i < |agents| && agents[i].0 == p.agent;
        assert grown[i].0 == p.agent;
      }
    }
  }

  lemma {:induction false} KnownAgentHasPayload(prepared: seq<Prepared>, agent: string)
    requires HasAgent(SnapshotOf(prepared).agents, agent)
    ensures exists p :: p in prepared && p.agent == agent
  {
    var init, last := prepared[..|prepared| - 1], prepared[|prepared| - 1];
    assert last in prepared;
    if agent != last.agent {
      var grown := SnapshotOf(prepared).agents;
      var i :| 0 <= i < |grown| && grown[i].0 == agent;
      assert i < |SnapshotOf(init).agents| && SnapshotOf(init).agents[i].0 == agent;
      KnownAgentHasPayload(init, agent);
    }
  }

  lemma {:induction false} IdsOfPayload(prepared: seq<Prepared>, p: Prepared)
    requires p in prepared
    ensures forall x :: x in Ids(p.metrics) ==> x in Unique(MetricIdsOf(prepared))
  {
    var init, last := prepared[..|prepared| - 1], prepared[|prepared| - 1];
    ExtendHas([], MetricIdsOf(prepared));
    if p in init {
      IdsOfPayload(init, p);
      ExtendHas([], MetricIdsOf(init));
    }
  }

  /** The metric ids of the snapshot, agent by agent, are those of the tickets, each once and in the same order. */
  lemma {:induction false} SnapshotIdsAreUnique(prepared: seq<Prepared>)
    requires Consistent(prepared)
    ensures SnapshotIds(SnapshotOf(prepared).agents) == Unique(MetricIdsOf(prepared))
  {
    if prepared != [] {
      var init, last := prepared[..|prepared| - 1], prepared[|prepared| - 1];
      var agents := SnapshotOf(init).agents;
      SnapshotIdsAreUnique(init);
      ExtendAppend([], MetricIdsOf(init), Ids(last.metrics));
      if HasAgent(agents, last.agent) {
        KnownAgentHasPayload(init, last.agent);
        var q :| q in init && q.agent == last.agent;
        assert q in prepared && q.metrics == last.metrics;
        IdsOfPayload(init, q);
        ExtendByKnown(Unique(MetricIdsOf(init)), Ids(last.metrics));
      } else {
        var grown := agents + [(last.agent, Entries(last.metrics))];
        assert grown[..|grown| - 1] == agents;
        assert EntryIds(Entries(last.metrics)) == Ids(last.metrics);
      }
    }
  }

  lemma CountOne(tickets: seq<NewTicket>, t: NewTicket)
    ensures CountTickets(tickets + [t]) == Plus(CountTickets(tickets), t.agent, 1)
  {
    assert (tickets + [t])[..|tickets + [t]| - 1] == tickets;
  }

  lemma PlusTwice(counts: map<string, nat>, agent: string, n: nat)
    ensures Plus(Plus(counts, agent, n), agent, 1) == Plus(counts, agent, n + 1)
  {
  }

  lemma {:induction false} CountsOfOneAgent(before: seq<NewTicket>, added: seq<NewTicket>, agent: string)
    requires added != [] && forall t :: t in added ==> t.agent == agent
    ensures CountTickets(before + added) == Plus(CountTickets(before), agent, |added|)
  {
    var init, last := added[..|added| - 1], added[|added| - 1];
    assert before + added == (before + init) + [last];
    CountOne(before + init, last);
    assert last in added;
    if init == [] {
      assert before + init == before;
    } else {
      CountsOfOneAgent(before, init, agent);
      PlusTwice(CountTickets(before), agent, |init|);
    }
  }

  lemma {:induction false} SnapshotCountsOf(all: seq<Prepared>, prepared: seq<Prepared>, priority: Option<int>,
                                            fallback: nat)
    requires Consistent(all) && prepared <= all
    ensures SnapshotCounts(SnapshotOf(prepared).payloads, SnapshotOf(all).agents)
            == CountTickets(TicketsFor(prepared, priority, fallback))
    decreases |prepared|
  {
    if prepared != [] {
      var init, last := prepared[..|prepared| - 1], prepared[|prepared| - 1];
      SnapshotCountsOf(all, init, priority, fallback);
      assert all[|prepared| - 1] == last;
      CountsOfOneAgent(TicketsFor(init, priority, fallback),
                       TicketsOfPayload(last, |last.metrics|, priority, fallback), last.agent);
      EntriesFound(all, last);
      var payloads := SnapshotOf(prepared).payloads;
      assert payloads[..|payloads| - 1] == SnapshotOf(init).payloads;
    }
  }

  /** A replay from the stored totals and the frozen snapshot returns what creation returned. */
  lemma ReplayRebuildsCreation(dataset: string, prepared: seq<Prepared>, priority: Option<int>, fallback: nat)
    requires Consistent(prepared)
    ensures ReplayedFrom(dataset, |TicketsFor(prepared, priority, fallback)|, |prepared|, SnapshotOf(prepared))
            == CreatedFrom(dataset, prepared, priority, fallback)
  {
    SnapshotAgentsAreUnique(prepared);
    SnapshotIdsAreUnique(prepared);
    SnapshotCountsOf(prepared, prepared, priority, fallback);
  }
}

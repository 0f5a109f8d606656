/** What a created job consists of: the columns of every ticket and every part of the answer, from the configuration. */
module CreationLaws {
  import opened Options
  import Json
  import opened JobPlan
  import opened JobCreation

  // ---------------------------------------------------------------- tickets

  function IsOn(): RawMetric -> bool {
    (m: RawMetric) => m.NotAnObject? || !m.disabled
  }

  lemma {:induction false} FilterLast(metrics: seq<RawMetric>)
    requires metrics != []
    ensures Json.Filter(IsOn(), metrics)
            == Json.Filter(IsOn(), metrics[..|metrics| - 1])
               + if IsOn()(metrics[|metrics| - 1]) then [metrics[|metrics| - 1]] else []
  {
    if |metrics| > 1 {
      FilterLast(metrics[1..]);
      assert metrics[1..][..|metrics| - 2] == metrics[..|metrics| - 1][1..];
    }
  }

  /** Only metrics that are switched off are left out; an entry of the wrong form is not. */
  lemma {:induction false} EnabledAreOn(metrics: seq<RawMetric>)
    ensures Enabled(metrics) == Json.Filter(IsOn(), metrics)
  {
    if metrics != [] {
      EnabledAreOn(metrics[..|metrics| - 1]);
      FilterLast(metrics);
    }
  }

  /** The ticket of one payload and one of its metrics, after those of the payloads before. */
  lemma {:induction false} TicketStandsAt(prepared: seq<Prepared>, priority: Option<int>, fallback: nat, i: nat, k: nat)
    requires i < |prepared| && k < |prepared[i].metrics|
    ensures var tickets := TicketsFor(prepared, priority, fallback);
            var at := PairCount(prepared[..i]) + k;
            at < |tickets| && tickets[at] == TicketOf(prepared[i], prepared[i].metrics[k], priority, fallback)
  {
    var n := |prepared| - 1;
    var init := prepared[..n];
    OneTicketPerPair(init, priority, fallback);
    assert init[..i] == prepared[..i];
    if i < n {
      TicketStandsAt(init, priority, fallback, i, k);
    }
  }

  /** The columns of the ticket that evaluates configured metric `m` on a payload file. */
  predicate Evaluates(t: NewTicket, f: PayloadFile, m: RawMetric, priority: Option<int>, settings: Settings) {
    && Usable(m) && f.agent.Some? && t.file == f.file && t.agent == Json.Strip(f.agent.value)
    && t.checkId == m.definition.value.checkId && t.metricId == t.checkId && t.record == RecordId(t.agent, t.checkId)
    && Some(t.version) == m.version
    && (if priority.Some? then t.priority == priority.value else t.priority == m.definition.value.priority)
    && (match m.definition.value.maxAttempts
        case Some(limit) => t.maxAttempts == limit
        case None => t.maxAttempts == settings.maxAttempts)
  }

  lemma FrozenEvaluates(settings: Settings, f: PayloadFile, m: RawMetric, priority: Option<int>,
                        fallback: nat)
    requires AgentOf(f).Some? && Usable(m)
    ensures forall metrics ::
              Evaluates(TicketOf(Prepared(f.file, AgentOf(f).value, metrics), Freeze(settings, AgentOf(f).value, m),
                                 priority, fallback), f, m, priority, settings)
  {
  }

  lemma PreparedParts(settings: Settings, config: Config, files: seq<PayloadFile>, prepared: seq<Prepared>)
    requires PreparedFrom(settings, config, files, prepared)
    ensures forall p :: p in prepared ==> |p.metrics| == EnabledCount(config)
    ensures forall i :: 0 <= i < |prepared| ==>
              Acceptable(settings, config, files[i])
              && prepared[i].metrics == FreezeAll(settings, AgentOf(files[i]).value, Enabled(config.metrics.value))
  {
    forall i | 0 <= i < |prepared|
      ensures |prepared[i].metrics| == EnabledCount(config)
    {
      assert Acceptable(settings, config, files[i]);
    }
  }

  lemma PairsBefore(prepared: seq<Prepared>, each: nat, i: nat)
    requires i <= |prepared| && forall p :: p in prepared ==> |p.metrics| == each
    ensures PairCount(prepared[..i]) == i * each
  {
    EqualPairs(prepared[..i], each);
  }

  /** Payload by payload, and metric by metric in the configured order, there is the ticket that evaluates the pair. */
  lemma TicketsEvaluateEveryPair(settings: Settings, config: Config, files: seq<PayloadFile>, prepared: seq<Prepared>,
                                 priority: Option<int>, fallback: nat, i: nat, k: nat)
    requires PreparedFrom(settings, config, files, prepared) && i < |files|
    requires config.metrics.Some? && k < |Json.Filter(IsOn(), config.metrics.value)|
    ensures var tickets := TicketsFor(prepared, priority, fallback);
            var on := Json.Filter(IsOn(), config.metrics.value);
            && i * |on| + k < |tickets|
            && Evaluates(tickets[i * |on| + k], files[i], on[k], priority, settings)
  {
    EnabledAreOn(config.metrics.value);
    PreparedParts(settings, config, files, prepared);
    assert Acceptable(settings, config, files[i]);
    assert prepared[i] in prepared;
    PairsBefore(prepared, EnabledCount(config), i);
    TicketStandsAt(prepared, priority, fallback, i, k);
    FrozenEvaluates(settings, files[i], Enabled(config.metrics.value)[k], priority, fallback);
  }

  // ---------------------------------------------------------------- the answer

  lemma {:induction false} DistinctIsUnique(s: seq<string>)
    requires forall i, k :: 0 <= i < k < |s| ==> s[i] != s[k]
    ensures Unique(s) == s
  {
    if s != [] {
      var init := s[..|s| - 1];
      DistinctIsUnique(init);
      assert s == init + [s[|s| - 1]];
    }
  }

  lemma OneName(names: seq<string>, name: string)
    requires names != [] && forall x :: x in names ==> x == name
    ensures Unique(names) == [name]
  {
    assert names[0] in names && names == [name] + names[1..];
    ExtendAppend([], [name], names[1..]);
    DistinctIsUnique([name]);
    assert forall x :: x in names[1..] ==> x in names;
    ExtendByKnown([name], names[1..]);
  }

  lemma {:induction false} SameMetrics(prepared: seq<Prepared>, metrics: seq<Frozen>)
    requires prepared != [] && forall i :: 0 <= i < |prepared| ==> prepared[i].metrics == metrics
    requires forall i, k :: 0 <= i < k < |metrics| ==> metrics[i].metricId != metrics[k].metricId
    ensures Unique(MetricIdsOf(prepared)) == Ids(metrics)
  {
    var init := prepared[..|prepared| - 1];
    ExtendAppend([], MetricIdsOf(init), Ids(metrics));
    if init == [] {
      assert MetricIdsOf(init) == [] && [] + Ids(metrics) == Ids(metrics);
      DistinctIsUnique(Ids(metrics));
    } else {
      SameMetrics(init, metrics);
      ExtendByKnown(Ids(metrics), Ids(metrics));
    }
  }

  lemma {:induction false} TicketsNameTheirAgent(prepared: seq<Prepared>, priority: Option<int>, fallback: nat,
                                                 agent: string)
    requires forall i :: 0 <= i < |prepared| ==> prepared[i].agent == agent
    ensures forall t :: t in TicketsFor(prepared, priority, fallback) ==> t.agent == agent
  {
    if prepared != [] {
      TicketsNameTheirAgent(prepared[..|prepared| - 1], priority, fallback, agent);
    }
  }

  /** The metric ids the configuration gives its agent, in order. */
  lemma ConfiguredIds(settings: Settings, agent: string, on: seq<RawMetric>, prepared: seq<Prepared>)
    requires AllUsable(on) && DistinctChecks(on) && prepared != []
    requires forall i :: 0 <= i < |prepared| ==> prepared[i].metrics == FreezeAll(settings, agent, on)
    ensures var ids := Unique(MetricIdsOf(prepared));
            |ids| == |on| && forall k :: 0 <= k < |on| ==> ids[k] == on[k].definition.value.checkId
  {
    var metrics := FreezeAll(settings, agent, on);
    forall i, k | 0 <= i < k < |metrics|
      ensures metrics[i].metricId != metrics[k].metricId
    {
      assert CheckId(on[i]) != CheckId(on[k]);
    }
    SameMetrics(prepared, metrics);
  }

  lemma OneAgentCounts(prepared: seq<Prepared>, priority: Option<int>, fallback: nat, agent: string)
    requires prepared != [] && forall i :: 0 <= i < |prepared| ==> prepared[i].agent == agent
    requires TicketsFor(prepared, priority, fallback) != []
    ensures Unique(AgentsOf(prepared)) == [agent]
    ensures CountTickets(TicketsFor(prepared, priority, fallback))
            == map[agent := |TicketsFor(prepared, priority, fallback)|]
  {
    var tickets := TicketsFor(prepared, priority, fallback);
    OneName(AgentsOf(prepared), agent);
    TicketsNameTheirAgent(prepared, priority, fallback, agent);
    assert [] + tickets == tickets;
    CountsOfOneAgent([], tickets, agent);
  }

  lemma AgentsAreConfigured(settings: Settings, config: Config, files: seq<PayloadFile>, prepared: seq<Prepared>)
    requires PreparedFrom(settings, config, files, prepared) && files != []
    ensures config.agentId.Some? && config.metrics.Some? && Enabled(config.metrics.value) != []
            && AllUsable(Enabled(config.metrics.value)) && DistinctChecks(Enabled(config.metrics.value))
    ensures forall i :: 0 <= i < |prepared| ==> prepared[i].agent == Json.Strip(config.agentId.value)
  {
    assert Acceptable(settings, config, files[0]);
    forall i | 0 <= i < |prepared|
      ensures prepared[i].agent == Json.Strip(config.agentId.value)
    {
      assert Acceptable(settings, config, files[i]);
      AgentIsStripped(files[i]);
    }
  }

  /** The answer counts all tickets for the one agent and lists the configured metrics once, in their order. */
  lemma AnswerFollowsConfiguration(settings: Settings, config: Config, files: seq<PayloadFile>, prepared: seq<Prepared>,
                                   priority: Option<int>, fallback: nat, dataset: string)
    requires PreparedFrom(settings, config, files, prepared) && files != []
    ensures var created := CreatedFrom(dataset, prepared, priority, fallback);
            && config.agentId.Some? && config.metrics.Some?
            && var agent, on := Json.Strip(config.agentId.value), Json.Filter(IsOn(), config.metrics.value);
               && created.dataset == dataset && created.payloadCount == |files|
               && created.ticketCount == |files| * |on| && created.profiles == [agent]
               && created.byAgent == map[agent := created.ticketCount] && |created.metricIds| == |on|
               && forall k :: 0 <= k < |on| ==> Usable(on[k]) && created.metricIds[k] == on[k].definition.value.checkId
  {
    assert Acceptable(settings, config, files[0]);
    var on := Enabled(config.metrics.value);
    EnabledAreOn(config.metrics.value);
    PreparedParts(settings, config, files, prepared);
    AgentsAreConfigured(settings, config, files, prepared);
    OneTicketPerPair(prepared, priority, fallback);
    EqualPairs(prepared, |on|);
    assert |files| * |on| > 0;
    OneAgentCounts(prepared, priority, fallback, Json.Strip(config.agentId.value));
    ConfiguredIds(settings, Json.Strip(config.agentId.value), on, prepared);
  }
}

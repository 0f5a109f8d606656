/**
 Creating a job from a dataset folder: freezing the configured metrics, preparing the payloads, building
 tickets and snapshot in loops, and answering a repeated request from the stored job.
 */
module JobCreation {
  import opened Options
  import Json
  import opened JobPlan

  datatype CreationError =
    | EmptyKey | KeyTooLong | KeyConflict | NoTickets
    | DatasetUnreadable | InvalidPayload | InvalidConfig | UnknownAgent

  datatype Definition = Definition(checkId: string, priority: int, maxAttempts: Option<nat>)

  /** One entry of the configured metrics; the definition and the version are absent when they are malformed. */
  datatype RawMetric = NotAnObject | RawMetric(disabled: bool, definition: Option<Definition>, version: Option<nat>)

  datatype Config = Config(oldForm: bool, agentId: Option<string>, metrics: Option<seq<RawMetric>>)

  datatype PayloadFile = PayloadFile(file: string, valid: bool, agent: Option<string>)

  datatype Folder = Folder(config: Config, payloads: seq<PayloadFile>)

  datatype Settings = Settings(isUuid: string -> bool, maxAttempts: nat, maxKeyLength: nat)

  // ---------------------------------------------------------------- freezing the configured metrics

  /** The entries that are not switched off. */
  function Enabled(metrics: seq<RawMetric>): seq<RawMetric> {
    if metrics == [] then []
    else
      var init, last := Enabled(metrics[..|metrics| - 1]), metrics[|metrics| - 1];
      if last.RawMetric? && last.disabled then init else init + [last]
  }

  lemma {:induction false} EnabledPrefix(metrics: seq<RawMetric>, n: nat)
    requires n <= |metrics|
    ensures Enabled(metrics[..n]) <= Enabled(metrics)
  {
    if n == |metrics| {
      assert metrics[..n] == metrics;
    } else {
      assert metrics[..|metrics| - 1][..n] == metrics[..n];
      EnabledPrefix(metrics[..|metrics| - 1], n);
    }
  }

  function EnabledCount(config: Config): nat {
    if config.metrics.Some? then |Enabled(config.metrics.value)| else 0
  }

  predicate Usable(m: RawMetric) {
    m.RawMetric? && m.definition.Some? && m.definition.value.checkId != "" && m.version.Some?
  }

  predicate AllUsable(metrics: seq<RawMetric>) {
    forall i :: 0 <= i < |metrics| ==> Usable(metrics[i])
  }

  function CheckId(m: RawMetric): string
    requires Usable(m)
  {
    m.definition.value.checkId
  }

  predicate DistinctChecks(metrics: seq<RawMetric>)
    requires AllUsable(metrics)
  {
    forall i, k :: 0 <= i < k < |metrics| ==> CheckId(metrics[i]) != CheckId(metrics[k])
  }

  function Freeze(settings: Settings, agent: string, m: RawMetric): Frozen
    requires Usable(m)
  {
    var d := m.definition.value;
    Frozen(RecordId(agent, d.checkId), d.checkId, m.version.value, d.checkId, d.priority,
           Some(if d.maxAttempts.Some? then d.maxAttempts.value else settings.maxAttempts))
  }

  function FreezeAll(settings: Settings, agent: string, metrics: seq<RawMetric>): (frozen: seq<Frozen>)
    requires AllUsable(metrics)
    ensures |frozen| == |metrics| && forall i :: 0 <= i < |frozen| ==> frozen[i] == Freeze(settings, agent, metrics[i])
  {
    seq(|metrics|, i requires 0 <= i < |metrics| => Freeze(settings, agent, metrics[i]))
  }

  predicate NamesAgent(settings: Settings, config: Config, agent: string) {
    !config.oldForm && config.agentId.Some? && settings.isUuid(config.agentId.value) && settings.isUuid(agent)
  }

  /** The configuration has metrics for this agent: usable, distinctly named, at least one of them enabled. */
  predicate Serves(settings: Settings, config: Config, agent: string) {
    && NamesAgent(settings, config, agent) && Json.Strip(config.agentId.value) == Json.Strip(agent)
    && config.metrics.Some? && Enabled(config.metrics.value) != []
    && AllUsable(Enabled(config.metrics.value)) && DistinctChecks(Enabled(config.metrics.value))
  }

  ghost predicate AreSeen(seen: set<string>, snapshots: seq<Frozen>) {
    forall c :: c in seen <==> exists k :: 0 <= k < |snapshots| && snapshots[k].checkId == c
  }

  lemma SeenExtends(seen: set<string>, snapshots: seq<Frozen>, next: Frozen)
    requires AreSeen(seen, snapshots)
    ensures AreSeen(seen + {next.checkId}, snapshots + [next])
  {
    var more := snapshots + [next];
    assert more[|snapshots|] == next && forall k :: 0 <= k < |snapshots| ==> more[k] == snapshots[k];
  }

  /** The enabled ones of these entries are usable, distinctly named and frozen in order. */
  ghost predicate FrozenSoFar(settings: Settings, agent: string, metrics: seq<RawMetric>, snapshots: seq<Frozen>) {
    && AllUsable(Enabled(metrics)) && DistinctChecks(Enabled(metrics))
    && snapshots == FreezeAll(settings, agent, Enabled(metrics))
  }

  lemma EnabledNext(metrics: seq<RawMetric>, i: nat)
    requires i < |metrics|
    ensures var before := Enabled(metrics[..i]);
            Enabled(metrics[..i + 1])
            == if metrics[i].RawMetric? && metrics[i].disabled then before else before + [metrics[i]]
    ensures Enabled(metrics[..i + 1]) <= Enabled(metrics)
  {
    assert metrics[..i + 1][..i] == metrics[..i];
    EnabledPrefix(metrics, i + 1);
  }

  /** A usable entry with a new check id is frozen behind the others. */
  lemma FreezesNext(settings: Settings, agent: string, metrics: seq<RawMetric>, i: nat, snapshots: seq<Frozen>,
                    seen: set<string>)
    requires i < |metrics| && FrozenSoFar(settings, agent, metrics[..i], snapshots) && AreSeen(seen, snapshots)
    requires Usable(metrics[i]) && !metrics[i].disabled && CheckId(metrics[i]) !in seen
    ensures FrozenSoFar(settings, agent, metrics[..i + 1], snapshots + [Freeze(settings, agent, metrics[i])])
  {
    var before := Enabled(metrics[..i]);
    var all := before + [metrics[i]];
    EnabledNext(metrics, i);
    forall k | 0 <= k < |before|
      ensures CheckId(all[k]) != CheckId(metrics[i])
    {
      assert snapshots[k].checkId == CheckId(before[k]);
    }
  }

  /** An enabled entry that is not usable or repeats a check id spoils the list. */
  lemma RefusesNext(settings: Settings, agent: string, metrics: seq<RawMetric>, i: nat, snapshots: seq<Frozen>,
                    seen: set<string>)
    requires i < |metrics| && FrozenSoFar(settings, agent, metrics[..i], snapshots) && AreSeen(seen, snapshots)
    requires metrics[i].NotAnObject? || !metrics[i].disabled
    requires Usable(metrics[i]) ==> CheckId(metrics[i]) in seen
    ensures !(AllUsable(Enabled(metrics)) && DistinctChecks(Enabled(metrics)))
  {
    var before, all := Enabled(metrics[..i]), Enabled(metrics);
    EnabledNext(metrics, i);
    assert all[|before|] == metrics[i];
    if Usable(metrics[i]) {
      var k :| 0 <= k < |snapshots| && snapshots[k].checkId == CheckId(metrics[i]);
      assert all[k] == before[k];
    }
  }

  /** Freeze the enabled metrics in order, refusing malformed entries and repeated check ids. */
  method MetricsForAgent(settings: Settings, config: Config, agent: string)
    returns (r: Outcome<seq<Frozen>, CreationError>)
    ensures r.Ok? <==> Serves(settings, config, agent)
    ensures r.Ok? ==> r.value == FreezeAll(settings, Json.Strip(agent), Enabled(config.metrics.value))
    ensures r == Err(UnknownAgent) <==>
              NamesAgent(settings, config, agent) && Json.Strip(config.agentId.value) != Json.Strip(agent)
    ensures r.Ok? || r.error == UnknownAgent || r.error == InvalidConfig
  {
    if config.oldForm || config.agentId.None? || !settings.isUuid(config.agentId.value) || !settings.isUuid(agent) {
      return Err(InvalidConfig);
    }
    var configured := Json.Strip(config.agentId.value);
    if configured != Json.Strip(agent) {
      return Err(UnknownAgent);
    }
    if config.metrics.None? || config.metrics.value == [] {
      return Err(InvalidConfig);
    }
    var metrics := config.metrics.value;
    var snapshots: seq<Frozen> := [];
    var seen: set<string> := {};
    for i := 0 to |metrics|
      invariant FrozenSoFar(settings, configured, metrics[..i], snapshots) && AreSeen(seen, snapshots)
    {
      var raw := metrics[i];
      EnabledNext(metrics, i);
      if raw.NotAnObject? {
        RefusesNext(settings, configured, metrics, i, snapshots, seen);
        return Err(InvalidConfig);
      }
      if !raw.disabled {
        if raw.definition.None? || raw.definition.value.checkId == "" {
          RefusesNext(settings, configured, metrics, i, snapshots, seen);
          return Err(InvalidConfig);
        }
        var checkId := raw.definition.value.checkId;
        if checkId in seen || raw.version.None? {
          RefusesNext(settings, configured, metrics, i, snapshots, seen);
          return Err(InvalidConfig);
        }
        FreezesNext(settings, configured, metrics, i, snapshots, seen);
        SeenExtends(seen, snapshots, Freeze(settings, configured, raw));
        seen := seen + {checkId};
        snapshots := snapshots + [Freeze(settings, configured, raw)];
      }
    }
    assert metrics[..|metrics|] == metrics;
    if snapshots == [] {
      return Err(InvalidConfig);
    }
    return Ok(snapshots);
  }

  /** Distinct check ids give distinct metric records. */
  lemma FrozenRecordsAreDistinct(settings: Settings, agent: string, metrics: seq<RawMetric>)
    requires AllUsable(metrics) && DistinctChecks(metrics)
    ensures DistinctRecords(FreezeAll(settings, agent, metrics))
  {
    var frozen := FreezeAll(settings, agent, metrics);
    forall i, k | 0 <= i < k < |frozen|
      ensures frozen[i].record != frozen[k].record
    {
      assert CheckId(metrics[i]) != CheckId(metrics[k]);
    }
  }

  // ---------------------------------------------------------------- preparing the payloads

  function AgentOf(f: PayloadFile): Option<string> {
    if f.agent.None? || Json.Strip(f.agent.value) == "" then None else Some(Json.Strip(f.agent.value))
  }

  predicate Acceptable(settings: Settings, config: Config, f: PayloadFile) {
    f.valid && AgentOf(f).Some? && Serves(settings, config, AgentOf(f).value)
  }

  /**
   What a prepared list owes to its folder: one agent, the frozen metrics of the configuration, the files in
   order.
   */
  predicate PreparedFrom(settings: Settings, config: Config, files: seq<PayloadFile>, prepared: seq<Prepared>) {
    && |prepared| == |files|
    && forall i :: 0 <= i < |files| ==>
         Acceptable(settings, config, files[i])
         && prepared[i] == Prepared(files[i].file, AgentOf(files[i]).value,
                                    FreezeAll(settings, AgentOf(files[i]).value, Enabled(config.metrics.value)))
  }

  lemma AgentIsStripped(f: PayloadFile)
    requires AgentOf(f).Some?
    ensures Json.Strip(AgentOf(f).value) == AgentOf(f).value
  {
    Json.StripTwice(f.agent.value);
  }

  /** The metrics looked up so far are those of their agents. */
  ghost predicate Cached(settings: Settings, config: Config, cache: map<string, seq<Frozen>>) {
    forall a :: a in cache ==>
      Serves(settings, config, a)
      && cache[a] == FreezeAll(settings, Json.Strip(a), Enabled(config.metrics.value))
  }

  lemma PreparedExtends(settings: Settings, config: Config, files: seq<PayloadFile>, i: nat, prepared: seq<Prepared>,
                        metrics: seq<Frozen>)
    requires i < |files| && PreparedFrom(settings, config, files[..i], prepared)
             && Acceptable(settings, config, files[i])
    requires metrics == FreezeAll(settings, AgentOf(files[i]).value, Enabled(config.metrics.value))
    ensures var grown := prepared + [Prepared(files[i].file, AgentOf(files[i]).value, metrics)];
            && PreparedFrom(settings, config, files[..i + 1], grown)
            && AgentsOf(grown)[..|grown| - 1] == AgentsOf(prepared)
  {
    var grown := prepared + [Prepared(files[i].file, AgentOf(files[i]).value, metrics)];
    forall k | 0 <= k <= i
      ensures Acceptable(settings, config, files[..i + 1][k])
      ensures grown[k] == Prepared(files[..i + 1][k].file, AgentOf(files[..i + 1][k]).value,
                                   FreezeAll(settings, AgentOf(files[..i + 1][k]).value, Enabled(config.metrics.value)))
    {
      if k < i {
        assert files[..i + 1][k] == files[..i][k];
      }
    }
    assert AgentsOf(grown)[..|grown| - 1] == AgentsOf(prepared);
  }

  method Prepare(settings: Settings, folder: Folder)
    returns (r: Outcome<seq<Prepared>, CreationError>, profiles: seq<string>)
    ensures r.Ok? <==> forall i :: 0 <= i < |folder.payloads| ==>
              Acceptable(settings, folder.config, folder.payloads[i])
    ensures r.Ok? ==> PreparedFrom(settings, folder.config, folder.payloads, r.value)
    ensures r.Ok? ==> profiles == Unique(AgentsOf(r.value))
  {
    var metricsByAgent: map<string, seq<Frozen>> := map[];
    var prepared: seq<Prepared> := [];
    profiles := [];
    for i := 0 to |folder.payloads|
      invariant PreparedFrom(settings, folder.config, folder.payloads[..i], prepared)
      invariant profiles == Unique(AgentsOf(prepared))
      invariant forall a :: a in metricsByAgent <==> a in profiles
      invariant Cached(settings, folder.config, metricsByAgent)
    {
      var file := folder.payloads[i];
      if !file.valid {
        return Err(InvalidPayload), profiles;
      }
      if AgentOf(file).None? {
        return Err(InvalidConfig), profiles;
      }
      var agent := AgentOf(file).value;
      AgentIsStripped(file);
      if agent !in metricsByAgent {
        var found := MetricsForAgent(settings, folder.config, agent);
        if found.Err? {
          return Err(found.error), profiles;
        }
        metricsByAgent := metricsByAgent[agent := found.value];
        profiles := profiles + [agent];
      }
      PreparedExtends(settings, folder.config, folder.payloads, i, prepared, metricsByAgent[agent]);
      prepared := prepared + [Prepared(file.file, agent, metricsByAgent[agent])];
    }
    r := Ok(prepared);
  }

  /** As in any folder listing. */
  predicate DistinctNames(files: seq<PayloadFile>) {
    forall i, k :: 0 <= i < k < |files| ==> files[i].file != files[k].file
  }

  lemma PreparedIsSound(settings: Settings, config: Config, files: seq<PayloadFile>, prepared: seq<Prepared>)
    requires PreparedFrom(settings, config, files, prepared)
    requires DistinctNames(files)
    ensures Consistent(prepared) && DistinctFiles(prepared)
    ensures forall p :: p in prepared ==> DistinctRecords(p.metrics)
    ensures forall i, k :: 0 <= i < |prepared| && 0 <= k < |prepared| ==> prepared[i].agent == prepared[k].agent
  {
    forall p | p in prepared
      ensures DistinctRecords(p.metrics)
    {
      var i :| 0 <= i < |prepared| && prepared[i] == p;
      assert Acceptable(settings, config, files[i]);
      FrozenRecordsAreDistinct(settings, p.agent, Enabled(config.metrics.value));
    }
    forall i | 0 <= i < |prepared|
      ensures prepared[i].agent == Json.Strip(config.agentId.value)
    {
      assert Acceptable(settings, config, files[i]);
      AgentIsStripped(files[i]);
    }
  }

  // ---------------------------------------------------------------- building tickets and snapshot

  /** The inner loop: one ticket and one metric id per frozen metric of the payload. */
  method AddTickets(p: Prepared, priority: Option<int>, fallback: nat, before: seq<NewTicket>, idsBefore: seq<string>)
    returns (tickets: seq<NewTicket>, metricIds: seq<string>)
    ensures tickets == before + TicketsOfPayload(p, |p.metrics|, priority, fallback)
    ensures metricIds == idsBefore + Ids(p.metrics)
  {
    tickets, metricIds := before, idsBefore;
    for k := 0 to |p.metrics|
      invariant tickets == before + TicketsOfPayload(p, k, priority, fallback)
      invariant metricIds == idsBefore + Ids(p.metrics)[..k]
    {
      metricIds := metricIds + [p.metrics[k].metricId];
      tickets := tickets + [TicketOf(p, p.metrics[k], priority, fallback)];
    }
    assert Ids(p.metrics)[..|p.metrics|] == Ids(p.metrics);
  }

  method BuildTickets(prepared: seq<Prepared>, priority: Option<int>, fallback: nat)
    returns (tickets: seq<NewTicket>, snapshot: Snapshot, metricIds: seq<string>)
    ensures tickets == TicketsFor(prepared, priority, fallback)
    ensures snapshot == SnapshotOf(prepared)
    ensures metricIds == MetricIdsOf(prepared)
  {
    tickets, metricIds := [], [];
    var payloads: seq<(string, string)> := [];
    var agents: seq<(string, seq<MetricEntry>)> := [];
    for i := 0 to |prepared|
      invariant tickets == TicketsFor(prepared[..i], priority, fallback)
      invariant Snapshot(payloads, agents) == SnapshotOf(prepared[..i])
      invariant metricIds == MetricIdsOf(prepared[..i])
    {
      var p := prepared[i];
      assert prepared[..i + 1][..i] == prepared[..i];
      payloads := payloads + [(p.file, p.agent)];
      if !HasAgent(agents, p.agent) {
        agents := agents + [(p.agent, Entries(p.metrics))];
      }
      tickets, metricIds := AddTickets(p, priority, fallback, tickets, metricIds);
    }
    assert prepared[..|prepared|] == prepared;
    snapshot := Snapshot(payloads, agents);
  }

  method CountByAgent(tickets: seq<NewTicket>) returns (counts: map<string, nat>)
    ensures counts == CountTickets(tickets)
  {
    counts := map[];
    for i := 0 to |tickets|
      invariant counts == CountTickets(tickets[..i])
    {
      assert tickets[..i + 1][..i] == tickets[..i];
      counts := Plus(counts, tickets[i].agent, 1);
    }
    assert tickets[..|tickets|] == tickets;
  }

  // ---------------------------------------------------------------- the stored jobs

  datatype Request = Request(dataset: string, name: Option<string>, priority: Option<int>, maxAttempts: Option<nat>)

  datatype StoredJob = StoredJob(key: Option<string>, request: Option<Request>, dataset: string, snapshot: Snapshot,
                                 total: nat, payloadCount: nat)

  predicate Named(s: Snapshot) {
    && (forall i :: 0 <= i < |s.payloads| ==> s.payloads[i].1 != "")
    && (forall i, k :: 0 <= i < |s.agents| && 0 <= k < |s.agents[i].1| ==> s.agents[i].1[k].metricId != "")
  }

  /** Rebuild the answer from a stored job. */
  method ReplayJob(job: StoredJob) returns (created: Created)
    requires Named(job.snapshot)
    ensures created == ReplayedFrom(job.dataset, job.total, job.payloadCount, job.snapshot)
  {
    var agents, payloads := job.snapshot.agents, job.snapshot.payloads;
    var metricIds: seq<string> := [];
    for i := 0 to |agents|
      invariant metricIds == SnapshotIds(agents[..i])
    {
      assert agents[..i + 1][..i] == agents[..i];
      var entries := agents[i].1;
      ghost var before := metricIds;
      for k := 0 to |entries|
        invariant metricIds == Extend(before, EntryIds(entries)[..k])
      {
        assert EntryIds(entries)[..k + 1][..k] == EntryIds(entries)[..k];
        var id := entries[k].metricId;
        if id != "" && id !in metricIds {
          metricIds := metricIds + [id];
        }
      }
      assert EntryIds(entries)[..|entries|] == EntryIds(entries);
    }
    assert agents[..|agents|] == agents;
    var byAgent: map<string, nat> := map[];
    for i := 0 to |payloads|
      invariant byAgent == SnapshotCounts(payloads[..i], agents)
    {
      assert payloads[..i + 1][..i] == payloads[..i];
      var agent := payloads[i].1;
      if agent != "" {
        byAgent := Plus(byAgent, agent, |EntriesOf(agents, agent)|);
      }
    }
    assert payloads[..|payloads|] == payloads;
    created := Created(job.total, job.payloadCount, job.dataset, metricIds, SnapshotAgents(agents), byAgent);
  }

  lemma {:induction false} SnapshotIsNamed(prepared: seq<Prepared>)
    requires forall p :: p in prepared ==> p.agent != "" && forall f :: f in p.metrics ==> f.metricId != ""
    ensures Named(SnapshotOf(prepared))
  {
    if prepared != [] {
      var init, last := prepared[..|prepared| - 1], prepared[|prepared| - 1];
      SnapshotIsNamed(init);
      assert last in prepared;
      forall k | 0 <= k < |Entries(last.metrics)|
        ensures Entries(last.metrics)[k].metricId != ""
      {
        assert last.metrics[k] in last.metrics;
      }
    }
  }

  /** The attempt limit given in the request reaches no ticket: frozen metrics always carry their own. */
  lemma RequestedLimitHasNoEffect(settings: Settings, config: Config, files: seq<PayloadFile>, prepared: seq<Prepared>,
                                  priority: Option<int>, requested: nat)
    requires PreparedFrom(settings, config, files, prepared)
    ensures TicketsFor(prepared, priority, requested) == TicketsFor(prepared, priority, settings.maxAttempts)
  {
    forall p, f | p in prepared && f in p.metrics
      ensures f.maxAttempts.Some?
    {
      var i :| 0 <= i < |prepared| && prepared[i] == p;
      assert Acceptable(settings, config, files[i]);
      var k :| 0 <= k < |p.metrics| && p.metrics[k] == f;
    }
    RequestedLimitIsUnused(prepared, priority, requested, settings.maxAttempts);
  }

  /** The row of a new job: the request is kept with its key, the totals are those of the tickets and payloads. */
  function JobOf(request: Request, key: Option<string>, prepared: seq<Prepared>, tickets: seq<NewTicket>): StoredJob {
    StoredJob(key, if key.Some? then Some(request) else None, request.dataset, SnapshotOf(prepared), |tickets|,
              |prepared|)
  }

  /** Freeze, prepare and build; nothing is stored yet. */
  method PlanJob(settings: Settings, folder: Folder, request: Request, key: Option<string>)
    returns (r: Outcome<(StoredJob, seq<NewTicket>, Created), CreationError>, ghost prepared: seq<Prepared>)
    requires DistinctNames(folder.payloads)
    ensures r.Ok? <==> folder.payloads != []
                       && forall i :: 0 <= i < |folder.payloads| ==>
                            Acceptable(settings, folder.config, folder.payloads[i])
    ensures r.Ok? ==> var (job, tickets, created) := r.value;
              && PreparedFrom(settings, folder.config, folder.payloads, prepared)
              && tickets == TicketsFor(prepared, request.priority, settings.maxAttempts)
              && Sound(job, tickets, created)
              && job == JobOf(request, key, prepared, tickets)
              && created == CreatedFrom(request.dataset, prepared, request.priority, settings.maxAttempts)
              && created.payloadCount == |folder.payloads|
              && created.ticketCount == |folder.payloads| * EnabledCount(folder.config)
  {
    var fallback := if request.maxAttempts.Some? && request.maxAttempts.value > 0 then request.maxAttempts.value
                    else settings.maxAttempts;
    var outcome, profiles := Prepare(settings, folder);
    if outcome.Err? {
      return Err(outcome.error), [];
    }
    var listed := outcome.value;
    prepared := listed;
    var tickets, snapshot, metricIds := BuildTickets(listed, request.priority, fallback);
    RequestedLimitHasNoEffect(settings, folder.config, folder.payloads, prepared, request.priority, fallback);
    OneTicketPerPair(prepared, request.priority, fallback);
    if prepared != [] {
      assert Acceptable(settings, folder.config, folder.payloads[0]);
      EqualPairs(prepared, EnabledCount(folder.config));
    }
    if tickets == [] {
      return Err(NoTickets), prepared;
    }
    var byAgent := CountByAgent(tickets);
    var created := Created(|tickets|, |listed|, request.dataset, Unique(metricIds), profiles, byAgent);
    var kept := if key.Some? then Some(request) else None;
    var job := StoredJob(key, kept, request.dataset, snapshot, |tickets|, |listed|);
    CreationIsSound(settings, folder, prepared, request.priority, fallback, job, created);
    r := Ok((job, tickets, created));
  }

  predicate UniqueKeys(jobs: seq<StoredJob>) {
    forall i, k :: 0 <= i < k < |jobs| && jobs[i].key.Some? ==> jobs[i].key != jobs[k].key
  }

  ghost predicate AllSound(jobs: seq<StoredJob>, tickets: seq<seq<NewTicket>>, made: seq<Created>) {
    && |jobs| == |tickets| == |made| && UniqueKeys(jobs)
    && forall i :: 0 <= i < |jobs| ==> Sound(jobs[i], tickets[i], made[i])
  }

  lemma AppendedIsSound(jobs: seq<StoredJob>, tickets: seq<seq<NewTicket>>, made: seq<Created>,
                        job: StoredJob, newTickets: seq<NewTicket>, created: Created)
    requires AllSound(jobs, tickets, made) && Sound(job, newTickets, created)
    requires job.key.None? || forall i :: 0 <= i < |jobs| ==> jobs[i].key != job.key
    ensures AllSound(jobs + [job], tickets + [newTickets], made + [created])
  {
  }

  class JobStore {
    var jobs: seq<StoredJob>
    var tickets: seq<seq<NewTicket>>
    ghost var made: seq<Created>

    /** Every stored job replays to what its creation returned, and has that many tickets, no two alike. */
    ghost predicate Valid()
      reads this
    {
      AllSound(jobs, tickets, made)
    }

    constructor ()
      ensures Valid() && jobs == []
    {
      jobs, tickets, made := [], [], [];
    }

    method FindByKey(key: string) returns (at: Option<nat>)
      ensures at.Some? ==> at.value < |jobs| && jobs[at.value].key == Some(key)
      ensures at.None? ==> forall i :: 0 <= i < |jobs| ==> jobs[i].key != Some(key)
    {
      for i := 0 to |jobs|
        invariant forall k :: 0 <= k < i ==> jobs[k].key != Some(key)
      {
        if jobs[i].key == Some(key) {
          return Some(i);
        }
      }
      return None;
    }

    /**
     Create a job, or answer a repeated request. A repeated key gives exactly what the first call returned,
     whatever the folder holds now; the same key with a different request is refused; a failure stores nothing.
     */
    method CreateJob(settings: Settings, folder: Outcome<Folder, ()>, request: Request, rawKey: Option<string>)
      returns (r: Outcome<Created, CreationError>, replayed: bool, ghost prepared: seq<Prepared>)
      requires Valid()
      requires folder.Ok? ==> DistinctNames(folder.value.payloads)
      modifies this
      ensures Valid()
      ensures r.Err? || replayed ==> jobs == old(jobs) && tickets == old(tickets) && made == old(made)
      ensures forall i :: 0 <= i < old(|jobs|) && UsableKey(settings, rawKey) && old(jobs)[i].key == KeyOf(rawKey) ==>
                if old(jobs)[i].request == Some(request)
                then r == Ok(old(made)[i]) && replayed
                else r == Err(KeyConflict)
      ensures rawKey.Some? && !UsableKey(settings, rawKey) ==>
                r == Err(if Json.Strip(rawKey.value) == "" then EmptyKey else KeyTooLong)
      ensures IsFirstRequest(settings, old(jobs), rawKey) ==>
                && !replayed && (folder.Err? ==> r == Err(DatasetUnreadable))
                && (r.Ok? <==> folder.Ok? && folder.value.payloads != []
                               && forall i :: 0 <= i < |folder.value.payloads| ==>
                                    Acceptable(settings, folder.value.config, folder.value.payloads[i]))
      ensures r.Ok? && !replayed ==>
                folder.Ok? && Stores(old(jobs), old(tickets), old(made), settings, folder.value, request, KeyOf(rawKey),
                                     prepared, r.value)
    {
      replayed, prepared := false, [];
      var key: Option<string> := None;
      if rawKey.Some? {
        var stripped := Json.Strip(rawKey.value);
        if stripped == "" {
          return Err(EmptyKey), false, [];
        }
        if |stripped| > settings.maxKeyLength {
          return Err(KeyTooLong), false, [];
        }
        key := Some(stripped);
        var at := FindByKey(stripped);
        if at.Some? {
          assert Sound(jobs[at.value], tickets[at.value], made[at.value]);
          if jobs[at.value].request != Some(request) {
            return Err(KeyConflict), false, [];
          }
          var again := ReplayJob(jobs[at.value]);
          return Ok(again), true, [];
        }
      }
      if folder.Err? {
        return Err(DatasetUnreadable), false, [];
      }
      r, prepared := CreateNew(settings, folder.value, request, key);
    }

    /** The tables have one job more, with what was prepared from the folder, and its tickets. */
    ghost predicate Stores(jobsBefore: seq<StoredJob>, ticketsBefore: seq<seq<NewTicket>>, madeBefore: seq<Created>,
                           settings: Settings, folder: Folder, request: Request, key: Option<string>,
                           prepared: seq<Prepared>, created: Created)
      reads this
    {
      var newTickets := TicketsFor(prepared, request.priority, settings.maxAttempts);
      && PreparedFrom(settings, folder.config, folder.payloads, prepared)
      && jobs == jobsBefore + [JobOf(request, key, prepared, newTickets)]
      && tickets == ticketsBefore + [newTickets] && made == madeBefore + [created]
      && created == CreatedFrom(request.dataset, prepared, request.priority, settings.maxAttempts)
    }

    /** Plan the job and store it with its tickets, or store nothing. */
    method CreateNew(settings: Settings, folder: Folder, request: Request, key: Option<string>)
      returns (r: Outcome<Created, CreationError>, ghost prepared: seq<Prepared>)
      requires Valid() && DistinctNames(folder.payloads)
      requires key.None? || forall i :: 0 <= i < |jobs| ==> jobs[i].key != key
      modifies this
      ensures Valid()
      ensures r.Err? ==> jobs == old(jobs) && tickets == old(tickets) && made == old(made)
      ensures r.Ok? <==> folder.payloads != []
                         && forall i :: 0 <= i < |folder.payloads| ==>
                              Acceptable(settings, folder.config, folder.payloads[i])
      ensures r.Ok? ==> Stores(old(jobs), old(tickets), old(made), settings, folder, request, key, prepared, r.value)
    {
      var planned;
      planned, prepared := PlanJob(settings, folder, request, key);
      if planned.Err? {
        return Err(planned.error), prepared;
      }
      var (job, newTickets, created) := planned.value;
      AppendedIsSound(jobs, tickets, made, job, newTickets, created);
      jobs, tickets, made := jobs + [job], tickets + [newTickets], made + [created];
      r := Ok(created);
    }
  }

  function KeyOf(rawKey: Option<string>): Option<string> {
    if rawKey.Some? then Some(Json.Strip(rawKey.value)) else None
  }

  /** No key was sent, or one that no stored job has. */
  predicate IsFirstRequest(settings: Settings, jobs: seq<StoredJob>, rawKey: Option<string>) {
    rawKey.None? || (UsableKey(settings, rawKey) && forall i :: 0 <= i < |jobs| ==> jobs[i].key != KeyOf(rawKey))
  }

  predicate UsableKey(settings: Settings, rawKey: Option<string>) {
    rawKey.Some? && 0 < |Json.Strip(rawKey.value)| <= settings.maxKeyLength
  }

  predicate Sound(job: StoredJob, tickets: seq<NewTicket>, created: Created) {
    && Named(job.snapshot)
    && created == ReplayedFrom(job.dataset, job.total, job.payloadCount, job.snapshot)
    && created.ticketCount == |tickets| && NoSharedWork(tickets)
  }

  lemma CreationIsSound(settings: Settings, folder: Folder, prepared: seq<Prepared>, priority: Option<int>,
                        fallback: nat, job: StoredJob, created: Created)
    requires PreparedFrom(settings, folder.config, folder.payloads, prepared)
    requires DistinctNames(folder.payloads)
    requires created == CreatedFrom(job.dataset, prepared, priority, fallback)
    requires job.snapshot == SnapshotOf(prepared) && job.payloadCount == |prepared|
    requires job.total == |TicketsFor(prepared, priority, fallback)|
    ensures Sound(job, TicketsFor(prepared, priority, fallback), created)
  {
    PreparedIsSound(settings, folder.config, folder.payloads, prepared);
    TicketsShareNoWork(prepared, priority, fallback);
    ReplayRebuildsCreation(job.dataset, prepared, priority, fallback);
    PreparedIsNamed(settings, folder.config, folder.payloads, prepared);
    SnapshotIsNamed(prepared);
  }

  lemma PreparedIsNamed(settings: Settings, config: Config, files: seq<PayloadFile>, prepared: seq<Prepared>)
    requires PreparedFrom(settings, config, files, prepared)
    ensures forall p :: p in prepared ==> p.agent != "" && forall f :: f in p.metrics ==> f.metricId != ""
  {
    forall p, f | p in prepared && f in p.metrics
      ensures f.metricId != ""
    {
      var i :| 0 <= i < |prepared| && prepared[i] == p;
      assert Acceptable(settings, config, files[i]);
      var k :| 0 <= k < |p.metrics| && p.metrics[k] == f;
      assert Usable(Enabled(config.metrics.value)[k]);
    }
    forall p | p in prepared
      ensures p.agent != ""
    {
      var i :| 0 <= i < |prepared| && prepared[i] == p;
      assert Acceptable(settings, config, files[i]);
    }
  }

  lemma {:induction false} EqualPairs(prepared: seq<Prepared>, n: nat)
    requires forall p :: p in prepared ==> |p.metrics| == n
    ensures PairCount(prepared) == |prepared| * n
  {
    if prepared != [] {
      assert prepared[|prepared| - 1] in prepared;
      EqualPairs(prepared[..|prepared| - 1], n);
    }
  }
}

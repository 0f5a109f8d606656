/** The spans a metric may see, collected from its own paths and names, and what narrowing to them keeps. */
module MetricScope {
  import opened Options
  import opened Json
  import opened NamedTraces
  import opened Paths
  import opened Spans
  import opened Resolver
  import opened Scoping

  type Path = seq<string>

  datatype Metric = Metric(
    spanNames: seq<string>,
    mapping: seq<(string, MappingSpec)>,
    equals: seq<(Path, Json)>,
    requiredSpans: seq<string>,
    expectedOrder: seq<string>,
    paramSpans: seq<string>,
    paramAgents: seq<string>)

  function BaseNames(m: Metric): seq<string> {
    if m.spanNames != [] then m.spanNames else m.requiredSpans
  }

  /** The paths of a metric: those of its mapping, then those its guard compares. */
  predicate OwnPath(m: Metric, path: Path) {
    || (exists i :: 0 <= i < |m.mapping| && TokensOf(m.mapping[i].1) == Some(path))
    || (exists i :: 0 <= i < |m.equals| && m.equals[i].0 == path)
  }

  /** Everything a metric names: listed names, the span of each own path, and the names in its parameters. */
  ghost predicate Names(m: Metric, name: string) {
    || name in BaseNames(m)
    || (exists path: Path :: OwnPath(m, path) && SpanToken(path) == Some(name) && name != "")
    || name in m.expectedOrder || name in m.paramSpans || name in m.paramAgents
  }

  ghost predicate NamesCleaned(m: Metric, cleaned: string) {
    cleaned != "" && exists name :: Names(m, name) && Strip(name) == cleaned
  }

  /** The scope of a metric, as the method below computes it. */
  ghost predicate IsScope(m: Metric, wanted: set<string>) {
    forall w :: w in wanted <==> NamesCleaned(m, w)
  }

  /** A metric without paths and parameters sees its span names, or without any the spans its guard requires. */
  lemma ScopeOfListedNames(m: Metric, wanted: set<string>, name: string)
    requires IsScope(m, wanted) && m.mapping == [] && m.equals == []
    requires m.expectedOrder == [] && m.paramSpans == [] && m.paramAgents == []
    ensures name in wanted <==>
            name != "" && exists listed :: (listed in m.spanNames || (m.spanNames == [] && listed in m.requiredSpans))
                                           && Strip(listed) == name
  {
    assert forall path :: !OwnPath(m, path);
    assert name in wanted <==> NamesCleaned(m, name);
    if listed :| (listed in m.spanNames || (m.spanNames == [] && listed in m.requiredSpans)) && Strip(listed) == name {
      assert Names(m, listed);
    }
  }

  predicate Distinct(s: seq<string>) {
    forall i, k :: 0 <= i < k < |s| ==> s[i] != s[k]
  }

  /** Span tokens of a list of paths, empty ones left out. */
  method CollectTokens(paths: seq<Path>) returns (tokens: seq<string>)
    ensures forall t :: t in tokens <==>
              t != "" && exists i :: 0 <= i < |paths| && SpanToken(paths[i]) == Some(t)
  {
    tokens := [];
    for i := 0 to |paths|
      invariant forall t :: t in tokens <==>
                  t != "" && exists k :: 0 <= k < i && SpanToken(paths[k]) == Some(t)
    {
      var token := SpanToken(paths[i]);
      if token.Some? && token.value != "" {
        tokens := tokens + [token.value];
      }
    }
  }

  method MappingPaths(mapping: seq<(string, MappingSpec)>) returns (paths: seq<Path>)
    ensures forall p :: p in paths <==> exists i :: 0 <= i < |mapping| && TokensOf(mapping[i].1) == Some(p)
  {
    paths := [];
    for i := 0 to |mapping|
      invariant forall p :: p in paths <==> exists k :: 0 <= k < i && TokensOf(mapping[k].1) == Some(p)
    {
      match mapping[i].1 {
        case PathOnly(tokens) => paths := paths + [tokens];
        case WithOptions(path, _, _, _, _) =>
          if path.Some? {
            paths := paths + [path.value];
          }
        case NotAMapping =>
      }
    }
  }

  /** Strip every name, drop empty and repeated ones. */
  method CleanNames(found: seq<string>) returns (unique: seq<string>)
    ensures Distinct(unique)
    ensures forall w :: w in unique <==> w != "" && exists i :: 0 <= i < |found| && Strip(found[i]) == w
  {
    var seen: set<string> := {};
    unique := [];
    for i := 0 to |found|
      invariant Distinct(unique)
      invariant forall w :: w in seen <==> w in unique
      invariant forall w :: w in unique <==> w != "" && exists k :: 0 <= k < i && Strip(found[k]) == w
    {
      var cleaned := Strip(found[i]);
      if cleaned != "" && cleaned !in seen {
        seen := seen + {cleaned};
        unique := unique + [cleaned];
      }
    }
  }

  /** The span names of a metric: each once, none empty, and exactly the stripped names it mentions. */
  method MetricSpanNames(m: Metric) returns (unique: seq<string>)
    ensures Distinct(unique)
    ensures forall w :: w in unique <==> NamesCleaned(m, w)
  {
    var paths := MappingPaths(m.mapping);
    for i := 0 to |m.equals|
      invariant forall p :: p in paths <==>
                  || (exists k :: 0 <= k < |m.mapping| && TokensOf(m.mapping[k].1) == Some(p))
                  || (exists k :: 0 <= k < i && m.equals[k].0 == p)
    {
      paths := paths + [m.equals[i].0];
    }
    assert forall p :: p in paths <==> OwnPath(m, p);
    var tokens := CollectTokens(paths);
    assert forall t :: t in tokens <==> t != "" && exists p: Path :: OwnPath(m, p) && SpanToken(p) == Some(t);
    var found := BaseNames(m) + tokens + m.expectedOrder + m.paramSpans + m.paramAgents;
    assert forall n :: n in found <==> Names(m, n);
    unique := CleanNames(found);
    forall w
      ensures w in unique <==> NamesCleaned(m, w)
    {
      if NamesCleaned(m, w) {
        var n :| Names(m, n) && Strip(n) == w;
        assert n in found;
      }
    }
  }

  // ---------------------------------------------------------------- what narrowing keeps

  /** A path that selects a span by a trimmed identity, or leads into the document beside the spans. */
  predicate SafePath(path: Path) {
    || (Selector(path).Some? && var name := SplitSelector(Selector(path).value).1; Strip(name) == name)
    || path == []
    || TurnsAway(path)
  }

  lemma SelectorIsSpanToken(path: Path)
    requires Selector(path).Some? && SplitSelector(Selector(path).value).1 != ""
    ensures SpanToken(path) == Some(SplitSelector(Selector(path).value).1)
  {
    if path[0] == "spans" {
      SpansIsNoSelector();
    }
  }

  /** A metric's own safe paths resolve to the same value or error on the narrowed payload. */
  lemma OwnPathsKeepTheirMeaning(host: Host, payload: Payload, m: Metric, wanted: set<string>, path: Path)
    requires IsScope(m, wanted) && OwnPath(m, path) && SafePath(path)
    ensures Resolve(host, Scope(host, payload, wanted), path) == Resolve(host, payload, path)
  {
    if Selector(path).Some? {
      var name := SplitSelector(Selector(path).value).1;
      if name != "" && Strip(name) == name {
        SelectorIsSpanToken(path);
        assert Names(m, name) && NamesCleaned(m, name);
      }
      ScopingPreservesPath(host, payload, wanted, path);
    } else if path != [] {
      ScopingPreservesDocument(host, payload, wanted, path);
    }
  }

  predicate MappingIsSafe(m: Metric) {
    forall i :: 0 <= i < |m.mapping| && TokensOf(m.mapping[i].1).Some? ==> SafePath(TokensOf(m.mapping[i].1).value)
  }

  predicate EqualsAreSafe(m: Metric) {
    forall i :: 0 <= i < |m.equals| ==> SafePath(m.equals[i].0)
  }

  lemma EntryUnchanged(host: Host, payload: Payload, m: Metric, wanted: set<string>, i: nat)
    requires IsScope(m, wanted) && MappingIsSafe(m) && i < |m.mapping|
    ensures EntryValue(host, Scope(host, payload, wanted), m.mapping[i].1) == EntryValue(host, payload, m.mapping[i].1)
  {
    if TokensOf(m.mapping[i].1).Some? {
      OwnPathsKeepTheirMeaning(host, payload, m, wanted, TokensOf(m.mapping[i].1).value);
    }
  }

  lemma {:induction false} MappedPrefixUnchanged(host: Host, payload: Payload, m: Metric, wanted: set<string>, n: nat)
    requires n <= |m.mapping|
    requires forall i :: 0 <= i < n ==>
               EntryValue(host, Scope(host, payload, wanted), m.mapping[i].1)
               == EntryValue(host, payload, m.mapping[i].1)
    ensures MapInput(host, Scope(host, payload, wanted), m.mapping[..n]) == MapInput(host, payload, m.mapping[..n])
  {
    if n > 0 {
      var prefix := m.mapping[..n];
      assert prefix[..n - 1] == m.mapping[..n - 1] && prefix[n - 1] == m.mapping[n - 1];
      MappedPrefixUnchanged(host, payload, m, wanted, n - 1);
    }
  }

  /** When the mapped paths are safe, the whole evaluator input, errors and missing keys included, is the same. */
  lemma MappedInputUnchanged(host: Host, payload: Payload, m: Metric, wanted: set<string>)
    requires IsScope(m, wanted) && MappingIsSafe(m)
    ensures MapInput(host, Scope(host, payload, wanted), m.mapping) == MapInput(host, payload, m.mapping)
  {
    forall i | 0 <= i < |m.mapping|
      ensures EntryValue(host, Scope(host, payload, wanted), m.mapping[i].1)
              == EntryValue(host, payload, m.mapping[i].1)
    {
      EntryUnchanged(host, payload, m, wanted, i);
    }
    MappedPrefixUnchanged(host, payload, m, wanted, |m.mapping|);
    assert m.mapping[..|m.mapping|] == m.mapping;
  }

  /** A name inside the scope is carried by a span of the narrowed payload exactly when by one of the full payload. */
  lemma AvailabilityUnchanged(host: Host, payload: Payload, wanted: set<string>, name: string)
    requires wanted == {} || name in wanted
    ensures Available(host, Scope(host, payload, wanted), name) == Available(host, payload, name)
  {
    ScopeIsFilter(host, payload, wanted);
    if wanted != {} {
      var full := Extract(host, payload);
      var kept := Filter(Keeps(host, wanted), full);
      if Available(host, payload, name) {
        var span :| span in full && HasIdentity(host, span, name);
        assert Wanted(host, wanted, span) && span in kept;
      }
    }
  }

  predicate AllAvailable(host: Host, payload: Payload, names: seq<string>) {
    forall i :: 0 <= i < |names| ==> Available(host, payload, names[i])
  }

  /** The required spans are found on the narrowed payload exactly when on the full one. */
  ghost predicate RequirementIsSafe(host: Host, wanted: set<string>, names: seq<string>) {
    forall payload: Payload ::
      AllAvailable(host, Scope(host, payload, wanted), names) == AllAvailable(host, payload, names)
  }

  /** The guard decides the same when the paths it compares are safe and its required spans are in the scope. */
  lemma GuardUnchanged(host: Host, payload: Payload, m: Metric, wanted: set<string>)
    requires IsScope(m, wanted) && EqualsAreSafe(m) && InScope(wanted, m.requiredSpans)
    ensures Applies(host, Scope(host, payload, wanted), m.equals, m.requiredSpans)
            == Applies(host, payload, m.equals, m.requiredSpans)
  {
    var scoped := Scope(host, payload, wanted);
    forall i | 0 <= i < |m.equals|
      ensures Resolve(host, scoped, m.equals[i].0) == Resolve(host, payload, m.equals[i].0)
    {
      OwnPathsKeepTheirMeaning(host, payload, m, wanted, m.equals[i].0);
    }
    RequirementUnchanged(host, payload, wanted, m.requiredSpans);
  }

  lemma RequirementUnchanged(host: Host, payload: Payload, wanted: set<string>, names: seq<string>)
    requires InScope(wanted, names)
    ensures AllAvailable(host, Scope(host, payload, wanted), names) == AllAvailable(host, payload, names)
  {
    if "" in names {
      var i :| 0 <= i < |names| && names[i] == "";
      assert !Available(host, payload, names[i]) && !Available(host, Scope(host, payload, wanted), names[i]);
    } else {
      forall i | 0 <= i < |names|
        ensures Available(host, Scope(host, payload, wanted), names[i]) == Available(host, payload, names[i])
      {
        assert names[i] in names;
        AvailabilityUnchanged(host, payload, wanted, names[i]);
      }
    }
  }

  /** The guard of a configured metric: it compares no path, and requires its span names with their outer spaces off. */
  predicate Configured(m: Metric) {
    && m.equals == [] && |m.requiredSpans| == |m.spanNames|
    && forall i :: 0 <= i < |m.spanNames| ==> m.requiredSpans[i] == Strip(m.spanNames[i])
  }

  /** Such a guard never depends on narrowing. */
  lemma ConfiguredGuardUnchanged(host: Host, payload: Payload, m: Metric, wanted: set<string>)
    requires IsScope(m, wanted) && Configured(m)
    ensures Applies(host, Scope(host, payload, wanted), m.equals, m.requiredSpans)
            == Applies(host, payload, m.equals, m.requiredSpans)
  {
    forall name | name in m.requiredSpans && name != ""
      ensures name in wanted
    {
      var i :| 0 <= i < |m.requiredSpans| && m.requiredSpans[i] == name;
      assert Names(m, m.spanNames[i]) && NamesCleaned(m, name);
    }
    GuardUnchanged(host, payload, m, wanted);
  }

  /** The requirement is safe on every payload exactly under that condition. */
  lemma RequirementSafeIff(host: Host, wanted: set<string>, names: seq<string>)
    ensures RequirementIsSafe(host, wanted, names) <==> InScope(wanted, names)
  {
    if InScope(wanted, names) {
      forall payload: Payload
        ensures AllAvailable(host, Scope(host, payload, wanted), names) == AllAvailable(host, payload, names)
      {
        RequirementUnchanged(host, payload, wanted, names);
      }
    } else {
      var k :| 0 <= k < |names| && names[k] !in wanted;
      NarrowingLosesName(host, wanted, names, k);
    }
  }

  lemma NarrowingLosesName(host: Host, wanted: set<string>, names: seq<string>, k: nat)
    requires wanted != {} && "" !in names && k < |names| && names[k] !in wanted
    ensures AllAvailable(host, PayloadOf(SpansNamed(names)), names)
    ensures !AllAvailable(host, Scope(host, PayloadOf(SpansNamed(names)), wanted), names)
  {
    var payload := PayloadOf(SpansNamed(names));
    NamedSpansExtracted(host, names);
    ScopeIsFilter(host, payload, wanted);
    forall i | 0 <= i < |names|
      ensures Available(host, payload, names[i])
    {
      assert names[i] in names;
      NameIsAvailable(host, payload, names, names[i]);
    }
    UnwantedIsLost(host, Scope(host, payload, wanted), wanted, names, names[k]);
  }

  lemma UnwantedIsLost(host: Host, narrowed: Payload, wanted: set<string>, names: seq<string>, name: string)
    requires name !in wanted && "" !in names
    requires Extract(host, narrowed) == Filter(Keeps(host, wanted), SpansNamed(names))
    ensures !Available(host, narrowed, name)
  {
    forall span | span in Filter(Keeps(host, wanted), SpansNamed(names))
      ensures !HasIdentity(host, span, name)
    {
      var i :| 0 <= i < |names| && SpansNamed(names)[i] == span;
      assert names[i] in names && Wanted(host, wanted, SpanNamed(names[i]));
      NamedSpanWanted(host, wanted, names[i]);
      NamedHasIdentity(host, names[i], name);
    }
  }

  /**
   A position under `spans` is taken for the name of a span. A metric whose only path is such a position
   therefore resolves to a missing span on every trace in which no span carries that name.
   */
  lemma PositionIsTakenForAName(host: Host, payload: Payload, token: string, tail: Path, key: string,
                                wanted: set<string>)
    requires StartsWith(token, "order:") && Strip(token) == token
    requires IsScope(Metric([], [(key, PathOnly(SpanPath(token, tail)))], [], [], [], [], []), wanted)
    requires !Available(host, payload, token)
    ensures Resolve(host, Scope(host, payload, wanted), SpanPath(token, tail)) == Err(MissingSpan)
  {
    var path := SpanPath(token, tail);
    var m := Metric([], [(key, PathOnly(path))], [], [], [], [], []);
    assert TokensOf(m.mapping[0].1) == Some(path) && OwnPath(m, path);
    OrderSelectsNoIdentity(token, tail);
    assert SpanToken(path) == Some(token);
    assert forall p :: OwnPath(m, p) ==> p == path;
    assert Names(m, token) && NamesCleaned(m, token);
    assert wanted == {token};
    ScopeIsFilter(host, payload, wanted);
    var full := Extract(host, payload);
    var kept := Filter(Keeps(host, wanted), full);
    assert forall k :: 0 <= k < |kept| ==> kept[k] in full && Wanted(host, wanted, kept[k]) by {
      forall k | 0 <= k < |kept|
        ensures kept[k] in full && Wanted(host, wanted, kept[k])
      {
        assert kept[k] in kept;
      }
    }
    forall span | span in full
      ensures !Wanted(host, wanted, span)
    {
      assert !HasIdentity(host, span, token);
    }
    assert path[1..] == [token] + tail && path[1..][0] == token;
  }

  lemma OrderSelectsNoIdentity(token: string, tail: Path)
    requires StartsWith(token, "order:")
    ensures SplitSelector(token) == (None, token) && !IsDigits(token) && token != "*"
    ensures SpanToken(SpanPath(token, tail)) == Some(token)
  {
    assert token[0] == 'o' && |token| >= 6;
    assert "name:"[0] == 'n' && "agent_id:"[0] == 'a' && "agent_type:"[0] == 'a' && "span_id:"[0] == 's';
    assert "spans"[4] == 's' && "span_id:"[4] == '_';
    assert SplitSelector("spans").0 == None;
  }
}

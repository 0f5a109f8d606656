/**
 Exactly when narrowing a payload leaves the workflow-order verdict alone. The scope strips the expected names, the
 evaluator compares them as they are written.
 */
module OrderScope {
  import opened Options
  import opened Json
  import opened MetricScope
  import opened NamedTraces
  import opened Resolver
  import opened Scoping
  import opened Spans
  import opened WorkflowOrder

  predicate AllTrimmed(names: seq<string>) {
    forall n :: n in names ==> Strip(n) == n
  }

  /** The listed identities of the trace, and of the narrowed one. */
  function FullLabels(host: Host, payload: Payload): seq<string> {
    Labels(host, Extract(host, payload))
  }

  function NarrowedLabels(host: Host, payload: Payload, wanted: set<string>): seq<string> {
    Labels(host, Extract(host, Scope(host, payload, wanted)))
  }

  // ---------------------------------------------------------------- the three verdicts

  /** The subsequence verdict is the same on every payload. */
  ghost predicate SubsequenceIsSafe(host: Host, wanted: set<string>, expected: seq<string>) {
    forall payload: Payload ::
      Embeds(expected, NarrowedLabels(host, payload, wanted)) <==> Embeds(expected, FullLabels(host, payload))
  }

  /** So is the verdict that ignores missing names. */
  ghost predicate IgnoringIsSafe(host: Host, wanted: set<string>, expected: seq<string>) {
    forall payload: Payload :: SameIgnoring(host, payload, wanted, expected)
  }

  ghost predicate SameIgnoring(host: Host, payload: Payload, wanted: set<string>, expected: seq<string>) {
    var full, narrowed := Extract(host, payload), Extract(host, Scope(host, payload, wanted));
    Embeds(Present(host, narrowed, expected), Labels(host, narrowed))
    <==> Embeds(Present(host, full, expected), Labels(host, full))
  }

  /** So is the strict verdict. */
  ghost predicate StrictIsSafe(host: Host, wanted: set<string>, expected: seq<string>) {
    forall payload: Payload ::
      expected <= NarrowedLabels(host, payload, wanted) <==> expected <= FullLabels(host, payload)
  }

  // ---------------------------------------------------------------- traces of named spans

  lemma {:induction false} LabelsOfNamed(host: Host, names: seq<string>)
    requires "" !in names
    ensures Labels(host, SpansNamed(names)) == names
  {
    if names != [] {
      assert names[0] in names && names == [names[0]] + names[1..];
      assert SpansNamed(names)[1..] == SpansNamed(names[1..]);
      NamedLabel(host, names[0]);
      LabelsOfNamed(host, names[1..]);
    }
  }

  lemma NamedLabel(host: Host, name: string)
    requires name != ""
    ensures Label(host, SpanNamed(name)) == Some(name)
  {
  }

  /** Narrowing a trace of named spans keeps the wanted names. */
  lemma {:induction false} KeptNames(host: Host, wanted: set<string>, names: seq<string>)
    requires "" !in names
    ensures Filter(Keeps(host, wanted), SpansNamed(names)) == SpansNamed(Filter(In(wanted), names))
  {
    if names != [] {
      assert names[0] in names;
      assert SpansNamed(names)[0] == SpanNamed(names[0]) && SpansNamed(names)[1..] == SpansNamed(names[1..]);
      NamedSpanWanted(host, wanted, names[0]);
      KeptNames(host, wanted, names[1..]);
      var kept := Filter(In(wanted), names[1..]);
      assert ([names[0]] + kept)[1..] == kept;
    }
  }

  lemma NamedTraceLabels(host: Host, wanted: set<string>, names: seq<string>)
    requires wanted != {} && "" !in names
    ensures FullLabels(host, PayloadOf(SpansNamed(names))) == names
    ensures NarrowedLabels(host, PayloadOf(SpansNamed(names)), wanted) == Filter(In(wanted), names)
  {
    NamedSpansExtracted(host, names);
    ScopeIsFilter(host, PayloadOf(SpansNamed(names)), wanted);
    KeptNames(host, wanted, names);
    LabelsOfNamed(host, names);
    LabelsOfNamed(host, Filter(In(wanted), names));
  }

  lemma EmbedsItself(names: seq<string>)
    ensures Embeds(names, names)
  {
    var at: seq<nat> := seq(|names|, i => i);
    assert Places(names, names, at);
  }

  /** A name outside the scope is lost: the trace of the expected names passes whole, and fails narrowed. */
  lemma NarrowingLosesTheOrder(host: Host, wanted: set<string>, expected: seq<string>, n: string)
    requires wanted != {} && "" !in expected && n in expected && n !in wanted
    ensures var payload := PayloadOf(SpansNamed(expected));
            && Embeds(expected, FullLabels(host, payload)) && expected <= FullLabels(host, payload)
            && !Embeds(expected, NarrowedLabels(host, payload, wanted))
            && !(expected <= NarrowedLabels(host, payload, wanted))
  {
    var kept := Filter(In(wanted), expected);
    NamedTraceLabels(host, wanted, expected);
    EmbedsItself(expected);
    FilterAll(In(wanted), expected);
    assert n !in kept;
    if Embeds(expected, kept) {
      EmbeddedNamesAreListed(expected, kept, n);
    }
    assert |kept| < |expected| by {
      if |kept| >= |expected| {
        FullLengthKeepsAll(In(wanted), expected);
      }
    }
  }

  lemma {:induction false} FullLengthKeepsAll(p: string -> bool, s: seq<string>)
    requires |Filter(p, s)| >= |s|
    ensures Filter(p, s) == s
  {
    if s != [] {
      FilterAll(p, s[1..]);
      assert p(s[0]);
      FullLengthKeepsAll(p, s[1..]);
      assert s == [s[0]] + s[1..];
    }
  }

  /** The subsequence verdict survives narrowing on every payload exactly when the scope has the names as written. */
  lemma SubsequenceSafeIff(host: Host, wanted: set<string>, expected: seq<string>)
    requires Faithful(host)
    ensures SubsequenceIsSafe(host, wanted, expected) <==> InScope(wanted, expected)
  {
    if InScope(wanted, expected) {
      forall payload: Payload
        ensures Embeds(expected, NarrowedLabels(host, payload, wanted)) <==> Embeds(expected, FullLabels(host, payload))
      {
        ScopingKeepsTheOrderVerdict(host, payload, wanted, expected);
      }
    } else {
      var n :| n in expected && n !in wanted;
      NarrowingLosesTheOrder(host, wanted, expected, n);
      assert !SubsequenceIsSafe(host, wanted, expected);
    }
  }

  // ---------------------------------------------------------------- ignoring missing names

  lemma {:induction false} LongerThanAll(names: set<string>) returns (n: nat)
    ensures forall s :: s in names ==> |s| < n
    decreases |names|
  {
    if names == {} {
      n := 0;
    } else {
      var s :| s in names;
      var rest := LongerThanAll(names - {s});
      n := if |s| < rest then rest else |s| + 1;
      assert names == (names - {s}) + {s};
    }
  }

  /** A name that is none of these. */
  lemma OtherName(names: set<string>) returns (x: string)
    ensures x !in names && x != ""
  {
    var n := LongerThanAll(names);
    x := seq(n + 1, _ => 'x');
  }

  /** A span listed under one name that carries another as its agent. */
  function SpanOfAgent(name: string, agent: string): Span {
    map["name" := Str(name), "agent_id" := Str(agent)]
  }

  lemma AgentSpanIdentities(host: Host, name: string, agent: string)
    requires name != "" && agent != ""
    ensures Label(host, SpanOfAgent(name, agent)) == Some(name)
    ensures forall w :: HasIdentity(host, SpanOfAgent(name, agent), w) <==> w == name || w == agent
  {
    var span := SpanOfAgent(name, agent);
    assert Get(span, "name") == Str(name) && Get(span, "agent_id") == Str(agent);
    assert Get(span, "agent_type") == Null && Get(span, "span_id") == Null;
  }

  lemma LoneAgentExtracted(host: Host, name: string, agent: string, wanted: set<string>)
    requires name != "" && agent != "" && wanted != {} && name !in wanted && agent !in wanted
    ensures var payload := PayloadOf([SpanOfAgent(name, agent)]);
            Extract(host, payload) == [SpanOfAgent(name, agent)] && Extract(host, Scope(host, payload, wanted)) == []
  {
    var span := SpanOfAgent(name, agent);
    assert "name" in span;
    ExtractedAsTheyStand(host, [span]);
    ScopeIsFilter(host, PayloadOf([span]), wanted);
    AgentSpanIdentities(host, name, agent);
    FilterOfOne(Keeps(host, wanted), span);
  }

  /** The name is present under another listing, so the order fails; with its span dropped nothing is left to order. */
  lemma NarrowingHidesTheFailure(host: Host, wanted: set<string>, expected: seq<string>, n: string)
    requires wanted != {} && n in expected && n != "" && n !in wanted
    ensures !IgnoringIsSafe(host, wanted, expected)
  {
    var x := OtherName(wanted + {n} + (set e | e in expected));
    var span := SpanOfAgent(x, n);
    var payload := PayloadOf([span]);
    LoneAgentExtracted(host, x, n, wanted);
    AgentSpanIdentities(host, x, n);
    assert [span][1..] == [] && Labels(host, [span]) == [x];
    assert span in [span] && n in Present(host, [span], expected);
    if Embeds(Present(host, [span], expected), [x]) {
      EmbeddedNamesAreListed(Present(host, [span], expected), [x], n);
    }
    NothingPresent(host, expected);
    EmbedsItself([]);
    assert !SameIgnoring(host, payload, wanted, expected);
  }

  lemma {:induction false} NothingPresent(host: Host, names: seq<string>)
    ensures Present(host, [], names) == []
  {
    if names != [] {
      NothingPresent(host, names[1..]);
    }
  }

  /** With missing names ignored the verdict survives exactly when the scope has every name that is not empty. */
  lemma IgnoringSafeIff(host: Host, wanted: set<string>, expected: seq<string>)
    requires Faithful(host)
    ensures IgnoringIsSafe(host, wanted, expected) <==>
            wanted == {} || forall n :: n in expected ==> n == "" || n in wanted
  {
    if wanted == {} || forall n :: n in expected ==> n == "" || n in wanted {
      forall payload: Payload
        ensures SameIgnoring(host, payload, wanted, expected)
      {
        ScopingKeepsTheVerdictOnPresent(host, payload, wanted, expected);
      }
    } else {
      var n :| n in expected && n != "" && n !in wanted;
      NarrowingHidesTheFailure(host, wanted, expected, n);
    }
  }

  // ---------------------------------------------------------------- strict order

  /** With every name in the scope, a foreign span in front fails the whole trace and is gone from the narrowed one. */
  lemma NarrowingDropsTheIntruder(host: Host, wanted: set<string>, expected: seq<string>)
    requires wanted != {} && expected != [] && "" !in expected && forall n :: n in expected ==> n in wanted
    ensures !StrictIsSafe(host, wanted, expected)
  {
    var x := OtherName(wanted);
    var names := [x] + expected;
    NamedTraceLabels(host, wanted, names);
    FilterStep(In(wanted), x, expected);
    FilterAll(In(wanted), expected);
    assert expected[0] in expected && names[0] == x;
    var payload := PayloadOf(SpansNamed(names));
    assert expected <= NarrowedLabels(host, payload, wanted);
    assert !(expected <= FullLabels(host, payload));
  }

  /** The strict verdict survives narrowing on every payload only when nothing is narrowed or it is the same always. */
  lemma StrictSafeIff(host: Host, wanted: set<string>, expected: seq<string>)
    requires Faithful(host)
    ensures StrictIsSafe(host, wanted, expected) <==> wanted == {} || expected == [] || "" in expected
  {
    if wanted == {} || expected == [] {
    } else if "" in expected {
      forall payload: Payload
        ensures expected <= NarrowedLabels(host, payload, wanted) <==> expected <= FullLabels(host, payload)
      {
        EmptyNameNeverEmbeds(host, Extract(host, payload), expected);
        EmptyNameNeverEmbeds(host, Extract(host, Scope(host, payload, wanted)), expected);
      }
    } else if n :| n in expected && n !in wanted {
      NarrowingLosesTheOrder(host, wanted, expected, n);
    } else {
      NarrowingDropsTheIntruder(host, wanted, expected);
    }
  }

  // ---------------------------------------------------------------- the scope of the metric itself

  /** The scope a metric gets has its expected names exactly as far as they are trimmed. */
  lemma ExpectedInScopeIff(m: Metric, wanted: set<string>, n: string)
    requires IsScope(m, wanted) && n in m.expectedOrder && n != ""
    ensures n in wanted <==> Strip(n) == n
  {
    if Strip(n) == n {
      assert Names(m, n) && NamesCleaned(m, n);
    }
    if n in wanted {
      var name :| Names(m, name) && Strip(name) == n;
      StripTwice(name);
    }
  }

  /** So the order verdict of a metric survives its own narrowing exactly when its expected names are trimmed. */
  lemma OwnOrderSafeIff(host: Host, m: Metric, wanted: set<string>)
    requires Faithful(host) && IsScope(m, wanted)
    ensures SubsequenceIsSafe(host, wanted, m.expectedOrder) <==>
            wanted == {} || "" in m.expectedOrder || AllTrimmed(m.expectedOrder)
    ensures IgnoringIsSafe(host, wanted, m.expectedOrder) <==> wanted == {} || AllTrimmed(m.expectedOrder)
  {
    SubsequenceSafeIff(host, wanted, m.expectedOrder);
    IgnoringSafeIff(host, wanted, m.expectedOrder);
    assert Strip("") == "";
    forall n | n in m.expectedOrder && n != ""
      ensures n in wanted <==> Strip(n) == n
    {
      ExpectedInScopeIff(m, wanted, n);
    }
  }

  const SPACED := " a "

  /** A metric that expects `" a "`, on a trace with one span of that name: it passes whole and fails narrowed. */
  lemma SpacedNameIsLost(host: Host)
    ensures var m := Metric([], [], [], [], [SPACED], [], []);
            var payload := PayloadOf(SpansNamed([SPACED]));
            && IsScope(m, {"a"})
            && Embeds([SPACED], FullLabels(host, payload)) && [SPACED] <= FullLabels(host, payload)
            && !Embeds([SPACED], NarrowedLabels(host, payload, {"a"}))
            && !([SPACED] <= NarrowedLabels(host, payload, {"a"}))
  {
    var m := Metric([], [], [], [], [SPACED], [], []);
    assert Strip(SPACED) == "a" by {
      assert SPACED[1..] == "a " && StripLeft(SPACED) == "a ";
      assert "a "[..1] == "a" && StripRight("a ") == "a";
    }
    assert Names(m, SPACED) && NamesCleaned(m, "a");
    assert forall p :: !OwnPath(m, p);
    assert SPACED in [SPACED] && SPACED !in {"a"} by {
      assert |SPACED| == 3;
    }
    NarrowingLosesTheOrder(host, {"a"}, [SPACED], SPACED);
  }
}

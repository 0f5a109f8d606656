/** The check that agents ran in the configured order, and what the greedy scan decides. */
module WorkflowOrder {
  import opened Options
  import opened Json
  import opened Spans
  import opened Resolver
  import opened Scoping

  datatype Mode = Subsequence | Strict

  /** The identity a span is listed under: its first field that has a value. */
  function Label(host: Host, span: Span): Option<string> {
    if Truthy(Get(span, "name")) then Some(Identity(host, span, "name"))
    else if Truthy(Get(span, "agent_id")) then Some(Identity(host, span, "agent_id"))
    else if Truthy(Get(span, "agent_type")) then Some(Identity(host, span, "agent_type"))
    else if Truthy(Get(span, "span_id")) then Some(Identity(host, span, "span_id"))
    else None
  }

  /** A span is listed under the first of these keys that has a value. */
  lemma LabelIsFirst(host: Host, span: Span)
    ensures var keys := ["name", "agent_id", "agent_type", "span_id"];
            && (Label(host, span).None? ==> forall k :: 0 <= k < |keys| ==> !Truthy(Get(span, keys[k])))
            && forall k :: 0 <= k < |keys| && Truthy(Get(span, keys[k]))
                           && (forall n :: 0 <= n < k ==> !Truthy(Get(span, keys[n]))) ==>
                 Label(host, span) == Some(Text(host, Get(span, keys[k])))
  {
    var keys := ["name", "agent_id", "agent_type", "span_id"];
    assert keys[0] == "name" && keys[1] == "agent_id" && keys[2] == "agent_type" && keys[3] == "span_id";
  }

  function Labels(host: Host, spans: seq<Span>): seq<string> {
    if spans == [] then []
    else if Label(host, spans[0]).Some? then [Label(host, spans[0]).value] + Labels(host, spans[1..])
    else Labels(host, spans[1..])
  }

  lemma {:induction false} LabelsAppend(host: Host, a: seq<Span>, b: seq<Span>)
    ensures Labels(host, a + b) == Labels(host, a) + Labels(host, b)
  {
    if a == [] {
      assert a + b == b;
    } else {
      assert (a + b)[1..] == a[1..] + b;
      LabelsAppend(host, a[1..], b);
    }
  }

  method SpanIdentities(host: Host, spans: seq<Span>) returns (identities: seq<string>)
    ensures identities == Labels(host, spans)
  {
    identities := [];
    for i := 0 to |spans|
      invariant identities == Labels(host, spans[..i])
    {
      var span := spans[i];
      assert spans[..i + 1] == spans[..i] + [span];
      LabelsAppend(host, spans[..i], [span]);
      assert [span][1..] == [];
      var k := 0;
      while k < |IDENTITY_KEYS| && !Truthy(Get(span, IDENTITY_KEYS[k]))
        invariant 0 <= k <= |IDENTITY_KEYS|
        invariant forall j :: 0 <= j < k ==> !Truthy(Get(span, IDENTITY_KEYS[j]))
      {
        k := k + 1;
      }
      assert IDENTITY_KEYS[0] == "name" && IDENTITY_KEYS[1] == "agent_id";
      assert IDENTITY_KEYS[2] == "agent_type" && IDENTITY_KEYS[3] == "span_id";
      if k < |IDENTITY_KEYS| {
        identities := identities + [Text(host, Get(span, IDENTITY_KEYS[k]))];
      }
    }
    assert spans[..|spans|] == spans;
  }

  // ---------------------------------------------------------------- embedding

  /** `at` places the names of `x` at increasing positions of `y`. */
  predicate Places(x: seq<string>, y: seq<string>, at: seq<nat>) {
    && |at| == |x|
    && (forall i :: 0 <= i < |at| ==> at[i] < |y| && y[at[i]] == x[i])
    && (forall i, k :: 0 <= i < k < |at| ==> at[i] < at[k])
  }

  ghost predicate Embeds(x: seq<string>, y: seq<string>) {
    exists at: seq<nat> :: Places(x, y, at)
  }

  /** Take every name at its first occurrence after the one before. */
  predicate Scan(x: seq<string>, y: seq<string>)
    decreases |y|
  {
    if x == [] then true
    else if y == [] then false
    else if x[0] == y[0] then Scan(x[1..], y[1..])
    else Scan(x, y[1..])
  }

  function Shift(at: seq<nat>): (up: seq<nat>)
    ensures |up| == |at| && forall i :: 0 <= i < |at| ==> up[i] == at[i] + 1
  {
    seq(|at|, i requires 0 <= i < |at| => at[i] + 1)
  }

  lemma PlacesLater(x: seq<string>, y: seq<string>, at: seq<nat>)
    requires y != [] && Places(x, y[1..], at)
    ensures Places(x, y, Shift(at))
  {
  }

  lemma PlacesFirst(x: seq<string>, y: seq<string>, at: seq<nat>)
    requires x != [] && y != [] && x[0] == y[0] && Places(x[1..], y, at)
    requires forall i :: 0 <= i < |at| ==> at[i] > 0
    ensures Places(x, y, [0] + at)
  {
  }

  lemma {:induction false} ScanPlaces(x: seq<string>, y: seq<string>)
    requires Scan(x, y)
    ensures Embeds(x, y)
    decreases |y|
  {
    if x == [] {
      assert Places(x, y, []);
    } else {
      var rest := if x[0] == y[0] then x[1..] else x;
      ScanPlaces(rest, y[1..]);
      var at: seq<nat> :| Places(rest, y[1..], at);
      PlacesLater(rest, y, at);
      if x[0] == y[0] {
        PlacesFirst(x, y, Shift(at));
      }
    }
  }

  lemma {:induction false} PlacedIsScanned(x: seq<string>, y: seq<string>, at: seq<nat>)
    requires Places(x, y, at)
    ensures Scan(x, y)
    decreases |y|
  {
    if x != [] {
      assert at[0] < |y|;
      if x[0] == y[0] {
        var down: seq<nat> := seq(|at| - 1, i requires 0 <= i < |at| - 1 => at[i + 1] - 1);
        assert Places(x[1..], y[1..], down);
        PlacedIsScanned(x[1..], y[1..], down);
      } else {
        assert at[0] > 0;
        var down: seq<nat> := seq(|at|, i requires 0 <= i < |at| => at[i] - 1);
        assert Places(x, y[1..], down);
        PlacedIsScanned(x, y[1..], down);
      }
    }
  }

  /** Greedy choice is complete: it succeeds whenever any order-preserving placement exists. */
  lemma ScanIffEmbeds(x: seq<string>, y: seq<string>)
    ensures Scan(x, y) <==> Embeds(x, y)
  {
    if Scan(x, y) {
      ScanPlaces(x, y);
    } else if at: seq<nat> :| Places(x, y, at) {
      PlacedIsScanned(x, y, at);
    }
  }

  /** The cursor loop: move past other names, then past the one sought. */
  method InOrder(expected: seq<string>, actual: seq<string>) returns (ok: bool)
    ensures ok <==> Embeds(expected, actual)
  {
    ScanIffEmbeds(expected, actual);
    var cursor := 0;
    for i := 0 to |expected|
      invariant 0 <= cursor <= |actual|
      invariant Scan(expected[i..], actual[cursor..]) == Scan(expected, actual)
    {
      var name := expected[i];
      assert expected[i..][0] == name && expected[i..][1..] == expected[i + 1..];
      while cursor < |actual| && actual[cursor] != name
        invariant 0 <= cursor <= |actual|
        invariant Scan(expected[i..], actual[cursor..]) == Scan(expected, actual)
      {
        assert actual[cursor..][0] != name && actual[cursor..][1..] == actual[cursor + 1..];
        cursor := cursor + 1;
      }
      if cursor == |actual| {
        return false;
      }
      assert actual[cursor..][0] == name && actual[cursor..][1..] == actual[cursor + 1..];
      cursor := cursor + 1;
    }
    return true;
  }

  // ---------------------------------------------------------------- the check

  predicate Carried(host: Host, spans: seq<Span>, name: string) {
    exists span :: span in spans && HasIdentity(host, span, name)
  }

  function Present(host: Host, spans: seq<Span>, names: seq<string>): (kept: seq<string>)
    ensures forall n :: n in kept <==> n in names && Carried(host, spans, n)
  {
    if names == [] then []
    else if Carried(host, spans, names[0]) then [names[0]] + Present(host, spans, names[1..])
    else Present(host, spans, names[1..])
  }

  function IsCarried(host: Host, spans: seq<Span>): string -> bool {
    (name: string) => Carried(host, spans, name)
  }

  /** The present names are the expected ones that some span carries, in the expected order. */
  lemma {:induction false} PresentAreCarried(host: Host, spans: seq<Span>, names: seq<string>)
    ensures Present(host, spans, names) == Filter(IsCarried(host, spans), names)
  {
    if names != [] {
      PresentAreCarried(host, spans, names[1..]);
    }
  }

  lemma {:induction false} PresentAll(host: Host, spans: seq<Span>, names: seq<string>)
    requires forall n :: n in names ==> Carried(host, spans, n)
    ensures Present(host, spans, names) == names
  {
    if names != [] {
      PresentAll(host, spans, names[1..]);
      assert names == [names[0]] + names[1..];
    }
  }

  /** A listed identity is carried by the span it lists. */
  lemma {:induction false} LabelsAreCarried(host: Host, spans: seq<Span>, name: string)
    requires Faithful(host) && name in Labels(host, spans)
    ensures Carried(host, spans, name)
  {
    if Label(host, spans[0]) == Some(name) {
      assert HasIdentity(host, spans[0], name);
    } else {
      LabelsAreCarried(host, spans[1..], name);
    }
  }

  lemma EmbeddedNamesAreListed(x: seq<string>, y: seq<string>, name: string)
    requires Embeds(x, y) && name in x
    ensures name in y
  {
    var at: seq<nat> :| Places(x, y, at);
    var i :| 0 <= i < |x| && x[i] == name;
    assert y[at[i]] == name;
  }

  datatype Verdict = Verdict(passed: bool, missing: seq<string>, score: real)

  datatype ConfigError = NoExpectedOrder | UnknownMode

  /** The mode named in the parameters, read in lower case. */
  function ModeOf(name: string): Option<Mode> {
    var mode := Lower(name);
    if mode == "subsequence" then Some(Subsequence) else if mode == "strict" then Some(Strict) else None
  }

  /** Two modes have a name, in any case. */
  lemma ModesAreNamed(name: string)
    ensures ModeOf(name) == Some(Strict) <==> Lower(name) == "strict"
    ensures ModeOf(name) == Some(Subsequence) <==> Lower(name) == "subsequence"
  {
  }

  /** The unrounded score: full when passed, otherwise the share of expected names that are present. */
  function ScoreOf(passed: bool, present: nat, expected: nat): real
    requires expected > 0
  {
    if passed then 1.0 else present as real / expected as real
  }

  /** A verdict that passed has the full score, any other the share of the present names. */
  lemma ScoreIs(passed: bool, present: nat, expected: nat)
    requires expected > 0
    ensures passed ==> ScoreOf(passed, present, expected) == 1.0
    ensures !passed ==> ScoreOf(passed, present, expected) * expected as real == present as real
  {
  }

  /**
   The verdict on the listed identities. In subsequence mode the order alone decides; missing names cannot
   fail a list that embeds. In strict mode the expected list must be a prefix, and ignoring missing names
   changes nothing.
   */
  method Evaluate(host: Host, spans: seq<Span>, expected: seq<string>, mode: string, ignoreMissing: bool)
    returns (r: Outcome<Verdict, ConfigError>)
    ensures r.Err? <==> expected == [] || ModeOf(mode).None?
    ensures r.Ok? ==> forall n :: n in r.value.missing <==> n in expected && !Carried(host, spans, n)
    ensures r.Ok? && Faithful(host) && ModeOf(mode) == Some(Subsequence) && !ignoreMissing ==>
              (r.value.passed <==> Embeds(expected, Labels(host, spans)))
    ensures r.Ok? && ModeOf(mode) == Some(Subsequence) && ignoreMissing ==>
              (r.value.passed <==> Embeds(Present(host, spans, expected), Labels(host, spans)))
    ensures r.Ok? && Faithful(host) && ModeOf(mode) == Some(Strict) ==>
              (r.value.passed <==> expected <= Labels(host, spans))
    ensures r.Ok? ==> r.value.score == ScoreOf(r.value.passed, |Present(host, spans, expected)|, |expected|)
  {
    if expected == [] {
      return Err(NoExpectedOrder);
    }
    if ModeOf(mode).None? {
      return Err(UnknownMode);
    }
    var actual := SpanIdentities(host, spans);
    var present := Present(host, spans, expected);
    var missing := Filter(n => n !in present, expected);
    var comparable := if ignoreMissing then present else expected;
    var orderOk: bool;
    if ModeOf(mode) == Some(Strict) {
      orderOk := comparable <= actual && missing == [];
    } else {
      orderOk := InOrder(comparable, actual);
    }
    var passed := orderOk && (ignoreMissing || missing == []);
    MissingMeansAbsent(host, spans, expected, missing);
    if Faithful(host) && (Embeds(expected, actual) || expected <= actual) {
      OrderImpliesPresence(host, spans, expected, missing);
    }
    return Ok(Verdict(passed, missing, ScoreOf(passed, |present|, |expected|)));
  }

  lemma MissingMeansAbsent(host: Host, spans: seq<Span>, expected: seq<string>, missing: seq<string>)
    requires forall n :: n in missing <==> n in expected && !Carried(host, spans, n)
    ensures missing == [] ==> Present(host, spans, expected) == expected
  {
    if missing == [] {
      forall n | n in expected
        ensures Carried(host, spans, n)
      {
        assert n !in missing;
      }
      PresentAll(host, spans, expected);
    }
  }

  lemma OrderImpliesPresence(host: Host, spans: seq<Span>, expected: seq<string>, missing: seq<string>)
    requires Faithful(host)
    requires forall n :: n in missing <==> n in expected && !Carried(host, spans, n)
    requires Embeds(expected, Labels(host, spans)) || expected <= Labels(host, spans)
    ensures missing == []
  {
    if missing != [] {
      var n := missing[0];
      assert n in missing;
      if expected <= Labels(host, spans) {
        var i :| 0 <= i < |expected| && expected[i] == n;
        assert Labels(host, spans)[i] == n;
      } else {
        EmbeddedNamesAreListed(expected, Labels(host, spans), n);
      }
      LabelsAreCarried(host, spans, n);
    }
  }

  // ---------------------------------------------------------------- order on the narrowed trace

  function In(names: set<string>): string -> bool {
    n => n in names
  }

  /** Only the occurrences of the sought names matter to the scan. */
  lemma {:induction false} ScanOnlyNames(x: seq<string>, y: seq<string>, names: set<string>)
    requires forall n :: n in x ==> n in names
    ensures Scan(x, Filter(In(names), y)) == Scan(x, y)
    decreases |y|
  {
    if x != [] && y != [] {
      if y[0] in names {
        assert ([y[0]] + Filter(In(names), y[1..]))[1..] == Filter(In(names), y[1..]);
      }
      if x[0] == y[0] {
        ScanOnlyNames(x[1..], y[1..], names);
      } else {
        ScanOnlyNames(x, y[1..], names);
      }
    }
  }

  lemma LabelWanted(host: Host, wanted: set<string>, span: Span)
    requires Faithful(host) && Label(host, span).Some? && Label(host, span).value in wanted
    ensures Wanted(host, wanted, span)
  {
    assert HasIdentity(host, span, Label(host, span).value);
  }

  /** Dropping unwanted spans drops no wanted identity. */
  lemma {:induction false} WantedLabelsStay(host: Host, wanted: set<string>, spans: seq<Span>)
    requires Faithful(host)
    ensures Filter(In(wanted), Labels(host, Filter(Keeps(host, wanted), spans)))
            == Filter(In(wanted), Labels(host, spans))
  {
    if spans != [] {
      WantedLabelsStay(host, wanted, spans[1..]);
      var kept := Filter(Keeps(host, wanted), spans[1..]);
      var tag := Label(host, spans[0]);
      if tag.Some? && tag.value in wanted {
        LabelWanted(host, wanted, spans[0]);
      }
      assert ([spans[0]] + kept)[1..] == kept;
      if tag.Some? {
        FilterStep(In(wanted), tag.value, Labels(host, kept));
        FilterStep(In(wanted), tag.value, Labels(host, spans[1..]));
      }
    }
  }

  lemma FilterStep(p: string -> bool, x: string, s: seq<string>)
    ensures Filter(p, [x] + s) == if p(x) then [x] + Filter(p, s) else Filter(p, s)
  {
    assert ([x] + s)[1..] == s;
  }

  lemma EmptyNameNeverEmbeds(host: Host, spans: seq<Span>, expected: seq<string>)
    requires Faithful(host) && "" in expected
    ensures !Embeds(expected, Labels(host, spans)) && !(expected <= Labels(host, spans))
  {
    EmptyNameIsNoLabel(host, spans);
    if Embeds(expected, Labels(host, spans)) {
      EmbeddedNamesAreListed(expected, Labels(host, spans), "");
    }
    var listed := Labels(host, spans);
    assert forall k :: 0 <= k < |listed| ==> listed[k] in listed;
    var i :| 0 <= i < |expected| && expected[i] == "";
    assert i < |listed| ==> listed[i] != expected[i];
  }

  lemma {:induction false} EmptyNameIsNoLabel(host: Host, spans: seq<Span>)
    requires Faithful(host)
    ensures "" !in Labels(host, spans)
  {
    if spans != [] {
      EmptyNameIsNoLabel(host, spans[1..]);
    }
  }

  /** The subsequence verdict is the same on the trace narrowed to a scope that has the expected names. */
  lemma ScopingKeepsTheOrderVerdict(host: Host, payload: Payload, wanted: set<string>, expected: seq<string>)
    requires Faithful(host) && InScope(wanted, expected)
    ensures Embeds(expected, Labels(host, Extract(host, Scope(host, payload, wanted))))
            <==> Embeds(expected, Labels(host, Extract(host, payload)))
  {
    var full := Extract(host, payload);
    ScopeIsFilter(host, payload, wanted);
    if "" in expected {
      EmptyNameNeverEmbeds(host, full, expected);
      EmptyNameNeverEmbeds(host, Extract(host, Scope(host, payload, wanted)), expected);
    } else if wanted != {} {
      var kept := Filter(Keeps(host, wanted), full);
      WantedLabelsStay(host, wanted, full);
      ScanOnlyNames(expected, Labels(host, full), wanted);
      ScanOnlyNames(expected, Labels(host, kept), wanted);
      ScanIffEmbeds(expected, Labels(host, full));
      ScanIffEmbeds(expected, Labels(host, kept));
    }
  }

  lemma WantedStayCarried(host: Host, wanted: set<string>, spans: seq<Span>, name: string)
    requires name == "" || name in wanted
    ensures Carried(host, Filter(Keeps(host, wanted), spans), name) == Carried(host, spans, name)
  {
    if Carried(host, spans, name) {
      var span :| span in spans && HasIdentity(host, span, name);
      assert Wanted(host, wanted, span) && span in Filter(Keeps(host, wanted), spans);
    }
  }

  lemma {:induction false} WantedStayPresent(host: Host, wanted: set<string>, spans: seq<Span>, names: seq<string>)
    requires forall n :: n in names ==> n == "" || n in wanted
    ensures Present(host, Filter(Keeps(host, wanted), spans), names) == Present(host, spans, names)
  {
    if names != [] {
      WantedStayCarried(host, wanted, spans, names[0]);
      WantedStayPresent(host, wanted, spans, names[1..]);
    }
  }

  /** So is the verdict that ignores missing names: the same names are present, and they embed alike. */
  lemma ScopingKeepsTheVerdictOnPresent(host: Host, payload: Payload, wanted: set<string>, expected: seq<string>)
    requires Faithful(host) && (wanted == {} || forall n :: n in expected ==> n == "" || n in wanted)
    ensures var full, narrowed := Extract(host, payload), Extract(host, Scope(host, payload, wanted));
            && Present(host, narrowed, expected) == Present(host, full, expected)
            && (Embeds(Present(host, narrowed, expected), Labels(host, narrowed))
                <==> Embeds(Present(host, full, expected), Labels(host, full)))
  {
    var full := Extract(host, payload);
    ScopeIsFilter(host, payload, wanted);
    if wanted != {} {
      WantedStayPresent(host, wanted, full, expected);
    }
    ScopingKeepsTheOrderVerdict(host, payload, wanted, Present(host, full, expected));
  }

  /** The first `n` spans that have an identity are all wanted. */
  predicate LeadersWanted(host: Host, wanted: set<string>, spans: seq<Span>, n: nat) {
    if n == 0 || spans == [] then true
    else if Label(host, spans[0]).None? then LeadersWanted(host, wanted, spans[1..], n)
    else Wanted(host, wanted, spans[0]) && LeadersWanted(host, wanted, spans[1..], n - 1)
  }

  /**
   While the leading spans are wanted, the strict verdict is the same on the narrowed trace. For names in the scope it
   is weaker there: it passes on the full trace exactly when it passes on the narrowed one and no unwanted span comes
   among the leading ones.
   */
  lemma {:induction false} StrictOnFullIff(host: Host, wanted: set<string>, spans: seq<Span>, expected: seq<string>)
    requires Faithful(host)
    ensures var full, narrowed := Labels(host, spans), Labels(host, Filter(Keeps(host, wanted), spans));
            && (LeadersWanted(host, wanted, spans, |expected|) ==> (expected <= full <==> expected <= narrowed))
            && ((forall n :: n in expected ==> n in wanted) ==>
                  (expected <= full <==> expected <= narrowed && LeadersWanted(host, wanted, spans, |expected|)))
    decreases |spans|
  {
    if spans != [] && expected != [] {
      var rest := Labels(host, spans[1..]);
      var kept := Filter(Keeps(host, wanted), spans[1..]);
      var tag := Label(host, spans[0]);
      assert ([spans[0]] + kept)[1..] == kept;
      if tag.None? {
        StrictOnFullIff(host, wanted, spans[1..], expected);
      } else {
        StrictOnFullIff(host, wanted, spans[1..], expected[1..]);
        PrefixStep(expected, tag.value, rest);
        PrefixStep(expected, tag.value, Labels(host, kept));
        if tag.value in wanted {
          LabelWanted(host, wanted, spans[0]);
        }
        assert expected[0] in expected;
      }
    }
  }

  lemma PrefixStep(x: seq<string>, y: string, ys: seq<string>)
    requires x != []
    ensures x <= [y] + ys <==> x[0] == y && x[1..] <= ys
  {
    assert x == [x[0]] + x[1..];
  }

  ghost predicate StrictOnlyWhenNarrowed(host: Host, spans: seq<Span>, wanted: set<string>, expected: seq<string>) {
    && (forall n :: n in expected ==> n in wanted)
    && !(expected <= Labels(host, spans))
    && expected <= Labels(host, Filter(Keeps(host, wanted), spans))
  }

  /** A trace on which strict order fails but passes once narrowed, because the span out of place is dropped. */
  lemma StrictCanPassOnlyWhenNarrowed(host: Host)
    ensures exists spans, wanted: set<string>, expected: seq<string> ::
              StrictOnlyWhenNarrowed(host, spans, wanted, expected)
  {
    var intruder: Span := map["name" := Str("x")];
    var agent: Span := map["name" := Str("a")];
    var spans, wanted, expected := [intruder, agent], {"a"}, ["a"];
    assert spans[1..] == [agent] && [agent][1..] == [];
    assert Label(host, intruder) == Some("x") && Label(host, agent) == Some("a");
    assert Labels(host, [agent]) == ["a"];
    assert Labels(host, spans) == ["x"] + Labels(host, [agent]);
    assert !(expected <= Labels(host, spans)) by {
      assert expected[0] != Labels(host, spans)[0];
    }
    assert HasIdentity(host, agent, "a") && Wanted(host, wanted, agent);
    assert !Wanted(host, wanted, intruder) by {
      assert !HasIdentity(host, intruder, "a");
    }
    FilterOfOne(Keeps(host, wanted), agent);
    assert Filter(Keeps(host, wanted), spans) == [agent];
    assert StrictOnlyWhenNarrowed(host, spans, wanted, expected);
  }
}

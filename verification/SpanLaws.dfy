/** Which spans a payload has, in what order, and which one a token finds, by positions and columns. */
module SpanLaws {
  import opened Options
  import opened Json
  import opened Paths
  import opened Spans
  import opened Resolver
  import PathLaws

  // ---------------------------------------------------------------- extraction

  function IsSpanItem(): Json -> bool {
    (v: Json) => v.Obj? && v.fields != map[]
  }

  /** The list of spans stands under three objects, and nowhere else. */
  lemma RawSpansStandAt(payload: Payload, raw: seq<Json>)
    ensures RawSpans(payload) == Some(raw) <==>
            && "trace_context" in payload && payload["trace_context"].Obj?
            && "trace" in payload["trace_context"].fields && payload["trace_context"].fields["trace"].Obj?
            && "spans" in payload["trace_context"].fields["trace"].fields
            && payload["trace_context"].fields["trace"].fields["spans"] == Arr(raw)
  {
  }

  /** The spans are the items that are objects with a field. */
  lemma {:induction false} ObjectsAreItems(raw: seq<Json>)
    ensures AsItems(Objects(raw)) == Filter(IsSpanItem(), raw)
  {
    if raw != [] {
      ObjectsAreItems(raw[1..]);
      if IsSpanItem()(raw[0]) {
        assert Objects(raw)[1..] == Objects(raw[1..]);
      }
    }
  }

  /** A time at which the span started, read from a string under `started_at`. */
  predicate StartedAt(host: Host, span: Span, time: int) {
    "started_at" in span && span["started_at"].Str? && host.clock(span["started_at"].s) == Some(time)
  }

  ghost predicate HasNoStart(host: Host, span: Span) {
    forall time :: !StartedAt(host, span, time)
  }

  /** Of two spans in this order the first started no later, and none with a time comes behind one without. */
  lemma ExtractedByTime(host: Host, payload: Payload, i: nat, k: nat, x: int, y: int)
    requires i < k < |Extract(host, payload)|
    ensures var spans := Extract(host, payload);
            && (StartedAt(host, spans[i], x) && StartedAt(host, spans[k], y) ==> x <= y)
            && (HasNoStart(host, spans[i]) ==> HasNoStart(host, spans[k]))
  {
    var spans := Extract(host, payload);
    OrderSortsAndPermutes(host, Objects(RawSpans(payload).value));
    assert StartsNoLater(host, spans[i], spans[k]);
    if HasNoStart(host, spans[i]) {
      assert Start(host, spans[i]).None? by {
        if Start(host, spans[i]).Some? {
          assert StartedAt(host, spans[i], Start(host, spans[i]).value);
        }
      }
    }
  }

  // ---------------------------------------------------------------- matching by position

  /** The span at position `i` has this value, which is not empty, at the key. */
  predicate Carries(host: Host, spans: seq<Span>, key: string, value: string, i: int) {
    0 <= i < |spans| && value != "" && key in spans[i] && Text(host, spans[i][key]) == value
  }

  ghost predicate CarriedOnce(host: Host, spans: seq<Span>, key: string, value: string, i: int) {
    Carries(host, spans, key, value, i) && forall k :: Carries(host, spans, key, value, k) ==> k == i
  }

  ghost predicate CarriedTwice(host: Host, spans: seq<Span>, key: string, value: string) {
    exists i, k :: i < k && Carries(host, spans, key, value, i) && Carries(host, spans, key, value, k)
  }

  ghost predicate CarriedNowhere(host: Host, spans: seq<Span>, key: string, value: string) {
    forall i :: !Carries(host, spans, key, value, i)
  }

  /** Nothing, one thing or several pass, and several stand at two positions. */
  lemma {:induction false} FilterCounts<T(!new)>(p: T -> bool, s: seq<T>)
    ensures Filter(p, s) == [] <==> forall i :: 0 <= i < |s| ==> !p(s[i])
    ensures |Filter(p, s)| == 1 ==>
              exists i :: 0 <= i < |s| && s[i] == Filter(p, s)[0] && p(s[i])
                          && forall k :: 0 <= k < |s| && p(s[k]) ==> k == i
    ensures |Filter(p, s)| > 1 ==> exists i, k :: 0 <= i < k < |s| && p(s[i]) && p(s[k])
  {
    if s != [] {
      var rest := s[1..];
      FilterCounts(p, rest);
      assert forall k :: 1 <= k < |s| ==> s[k] == rest[k - 1];
      if p(s[0]) && |Filter(p, rest)| == 1 {
        var i :| 0 <= i < |rest| && p(rest[i]);
        assert p(s[0]) && p(s[i + 1]);
      } else if |Filter(p, rest)| == 1 {
        var i :| 0 <= i < |rest| && rest[i] == Filter(p, rest)[0] && p(rest[i])
                 && forall k :: 0 <= k < |rest| && p(rest[k]) ==> k == i;
        assert s[i + 1] == Filter(p, s)[0];
      } else if |Filter(p, rest)| > 1 {
        var i, k :| 0 <= i < k < |rest| && p(rest[i]) && p(rest[k]);
        assert p(s[i + 1]) && p(s[k + 1]);
      }
    }
  }

  lemma MatchesCarry(host: Host, spans: seq<Span>, key: string, value: string, i: int)
    requires 0 <= i < |spans|
    ensures Matching(host, key, value)(spans[i]) <==> Carries(host, spans, key, value, i)
  {
  }

  /** One span that carries the value is found, several are ambiguous. */
  lemma SoleIs(host: Host, spans: seq<Span>, key: string, value: string)
    ensures var found := Sole(MatchesOf(host, spans, key, value));
            && (CarriedNowhere(host, spans, key, value) <==> found == NotFound)
            && (CarriedTwice(host, spans, key, value) <==> found == Ambiguous)
            && (found.Found? ==> exists i :: CarriedOnce(host, spans, key, value, i) && found.span == spans[i])
            && (forall i :: CarriedOnce(host, spans, key, value, i) ==> found == Found(spans[i]))
  {
    var p := Matching(host, key, value);
    FilterCounts(p, spans);
    forall i | 0 <= i < |spans|
      ensures p(spans[i]) <==> Carries(host, spans, key, value, i)
    {
      MatchesCarry(host, spans, key, value, i);
    }
    if i, k :| i < k && Carries(host, spans, key, value, i) && Carries(host, spans, key, value, k) {
      assert p(spans[i]) && p(spans[k]);
      assert Filter(p, spans) != [] by {
        assert spans[i] in spans;
      }
    }
  }

  // ---------------------------------------------------------------- what a token finds

  predicate IsIdentityKey(key: string) {
    key == "name" || key == "agent_id" || key == "agent_type" || key == "span_id"
  }

  /** A prefix names the key, and the rest of the token is the value, colons included. */
  lemma SelectorSplits(key: string, value: string)
    requires IsIdentityKey(key)
    ensures SplitSelector(key + ":" + value) == (Some(key), value)
  {
    var token := key + ":" + value;
    assert token[|key|] == ':' && token[|key| + 1..] == value;
    assert token[..|key| + 1] == key + ":";
    if key == "name" {
      assert token[0] == 'n';
    } else if key == "span_id" {
      assert token[0] == 's';
    } else {
      assert token[0] == 'a' && token[6] == key[6];
    }
  }

  /** What a lookup among the spans that carry one value gives. */
  ghost predicate FindsOnly(host: Host, spans: seq<Span>, key: string, value: string, found: Found) {
    match found
    case Found(span) => exists i :: CarriedOnce(host, spans, key, value, i) && spans[i] == span
    case Ambiguous => CarriedTwice(host, spans, key, value)
    case NotFound => CarriedNowhere(host, spans, key, value)
  }

  /** A prefixed token finds the only span with that value at that key. */
  lemma PrefixFinds(host: Host, spans: seq<Span>, key: string, value: string)
    requires IsIdentityKey(key)
    ensures FindsOnly(host, spans, key, value, FindSpan(host, spans, key + ":" + value))
  {
    SelectorSplits(key, value);
    SoleIs(host, spans, key, value);
  }

  /** `order:` and a number finds the span at that place, counted from one. */
  lemma NumberFinds(host: Host, spans: seq<Span>, n: nat)
    ensures FindSpan(host, spans, "order:" + PathLaws.Decimal(n))
            == if 1 <= n <= |spans| then Found(spans[n - 1]) else NotFound
  {
    var token := "order:" + PathLaws.Decimal(n);
    PathLaws.DigitsReadBack(n);
    assert token[0] == 'o' && token[..6] == "order:" && token[|"order:"|..] == PathLaws.Decimal(n);
    assert SplitSelector(token) == (None, token);
  }

  predicate IsBare(token: string) {
    SplitSelector(token).0.None? && !StartsWith(token, "order:")
  }

  /** Any other token finds the only span of that name, or without one the only span of that id. */
  lemma BareTokenFinds(host: Host, spans: seq<Span>, token: string)
    requires IsBare(token)
    ensures var found := FindSpan(host, spans, token);
            if !CarriedNowhere(host, spans, "name", token) then FindsOnly(host, spans, "name", token, found)
            else if CarriedTwice(host, spans, "span_id", token) then found == NotFound
            else FindsOnly(host, spans, "span_id", token, found)
  {
    assert SplitSelector(token) == (None, token);
    SoleIs(host, spans, "name", token);
    SoleIs(host, spans, "span_id", token);
  }

  predicate IsSectionName(token: string) {
    || token == "payload" || token == "agent_registry" || token == "payload_metadata"
    || token == "correlation" || token == "trace_context" || token == "spans"
  }

  /** A path that starts at a span, with or without `spans` in front, walks on from the span its token finds. */
  lemma SpanPathResolves(host: Host, payload: Payload, token: string, rest: seq<string>)
    requires token != "*" && !IsDigits(token)
    ensures var found := FindSpan(host, Extract(host, payload), token);
            var value := if found.Found? then Denote(Obj(found.span), rest)
                         else Err(if found.Ambiguous? then AmbiguousSpan else MissingSpan);
            && Resolve(host, payload, ["spans", token] + rest) == value
            && (IsSectionName(token) || Resolve(host, payload, [token] + rest) == value)
  {
    var long := ["spans", token] + rest;
    assert long[1..] == [token] + rest && ([token] + rest)[1..] == rest;
  }
}

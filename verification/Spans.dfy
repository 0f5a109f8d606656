/** Spans of a trace: extraction, ordering, and finding one by identity. */
module Spans {
  import opened Options
  import opened Json

  type Span = map<string, Json>

  const IDENTITY_KEYS: seq<string> := ["name", "agent_id", "agent_type", "span_id"]

  function Identity(host: Host, span: Span, key: string): string {
    Text(host, Get(span, key))
  }

  predicate HasKeyIdentity(host: Host, span: Span, key: string, wanted: string) {
    wanted != "" && Identity(host, span, key) == wanted
  }

  predicate HasIdentity(host: Host, span: Span, wanted: string) {
    || HasKeyIdentity(host, span, "name", wanted)
    || HasKeyIdentity(host, span, "agent_id", wanted)
    || HasKeyIdentity(host, span, "agent_type", wanted)
    || HasKeyIdentity(host, span, "span_id", wanted)
  }

  // ---------------------------------------------------------------- ordering

  /** When the span started, if its `started_at` can be read. */
  function Start(host: Host, span: Span): Option<int> {
    match Get(span, "started_at")
    case Str(s) => host.clock(s)
    case _ => None
  }

  /** Spans without a start sort after all others. */
  predicate KeyLeq(a: Option<int>, b: Option<int>) {
    b.None? || (a.Some? && a.value <= b.value)
  }

  predicate StartsNoLater(host: Host, a: Span, b: Span) {
    KeyLeq(Start(host, a), Start(host, b))
  }

  function Insert(host: Host, x: Span, s: seq<Span>): seq<Span> {
    if s == [] || StartsNoLater(host, x, s[0]) then [x] + s else [s[0]] + Insert(host, x, s[1..])
  }

  /** Spans by start time; spans with equal starts keep their positions relative to each other. */
  function Order(host: Host, s: seq<Span>): seq<Span> {
    if s == [] then [] else Insert(host, s[0], Order(host, s[1..]))
  }

  predicate Sorted(host: Host, s: seq<Span>) {
    forall i, k :: 0 <= i < k < |s| ==> StartsNoLater(host, s[i], s[k])
  }

  function At(host: Host, key: Option<int>): Span -> bool {
    span => Start(host, span) == key
  }

  lemma {:induction false} InsertSorted(host: Host, x: Span, s: seq<Span>)
    requires Sorted(host, s)
    ensures Sorted(host, Insert(host, x, s)) && multiset(Insert(host, x, s)) == multiset{x} + multiset(s)
  {
    if s != [] && !StartsNoLater(host, x, s[0]) {
      InsertSorted(host, x, s[1..]);
      assert s == [s[0]] + s[1..];
      var t := Insert(host, x, s[1..]);
      forall k | 0 <= k < |t|
        ensures StartsNoLater(host, s[0], t[k])
      {
        assert t[k] in multiset(t);
        assert t[k] == x || t[k] in s[1..];
      }
    }
  }

  /** Ordering sorts, and neither loses nor invents a span. */
  lemma {:induction false} OrderSortsAndPermutes(host: Host, s: seq<Span>)
    ensures Sorted(host, Order(host, s)) && multiset(Order(host, s)) == multiset(s)
  {
    if s != [] {
      OrderSortsAndPermutes(host, s[1..]);
      InsertSorted(host, s[0], Order(host, s[1..]));
      assert s == [s[0]] + s[1..];
    }
  }

  lemma {:induction false} FilterInsert(host: Host, p: Span -> bool, x: Span, s: seq<Span>)
    requires Sorted(host, s)
    ensures Filter(p, Insert(host, x, s)) == if p(x) then Insert(host, x, Filter(p, s)) else Filter(p, s)
  {
    if s == [] || StartsNoLater(host, x, s[0]) {
      assert ([x] + s)[1..] == s;
      if Filter(p, s) != [] {
        assert Filter(p, s)[0] in s;
        var i :| 0 <= i < |s| && s[i] == Filter(p, s)[0];
      }
    } else {
      FilterInsert(host, p, x, s[1..]);
      var t := Insert(host, x, s[1..]);
      assert ([s[0]] + t)[1..] == t;
      if p(s[0]) {
        assert ([s[0]] + Filter(p, s[1..]))[1..] == Filter(p, s[1..]);
      } else if p(x) {
        assert Filter(p, s) == Filter(p, s[1..]);
      }
    }
  }

  /** Filtering commutes with ordering. */
  lemma {:induction false} FilterOrder(host: Host, p: Span -> bool, s: seq<Span>)
    ensures Filter(p, Order(host, s)) == Order(host, Filter(p, s))
  {
    if s != [] {
      FilterOrder(host, p, s[1..]);
      OrderSortsAndPermutes(host, s[1..]);
      FilterInsert(host, p, s[0], Order(host, s[1..]));
      if p(s[0]) {
        assert Filter(p, s)[1..] == Filter(p, s[1..]);
      }
    }
  }

  lemma {:induction false} OrderOfEqualStarts(host: Host, key: Option<int>, s: seq<Span>)
    requires forall x :: x in s ==> Start(host, x) == key
    ensures Order(host, s) == s
  {
    if s != [] {
      OrderOfEqualStarts(host, key, s[1..]);
      assert s == [s[0]] + s[1..];
    }
  }

  /** Ordering is stable: the spans that share a start time keep their order. */
  lemma OrderIsStable(host: Host, key: Option<int>, s: seq<Span>)
    ensures Filter(At(host, key), Order(host, s)) == Filter(At(host, key), s)
  {
    FilterOrder(host, At(host, key), s);
    OrderOfEqualStarts(host, key, Filter(At(host, key), s));
  }

  /** Sorted sequences with the same spans at every start time begin alike. */
  lemma SameHead(host: Host, u: seq<Span>, v: seq<Span>)
    requires Sorted(host, u) && Sorted(host, v) && u != []
    requires forall key :: Filter(At(host, key), u) == Filter(At(host, key), v)
    ensures v != [] && u[0] == v[0]
  {
    var key := Start(host, u[0]);
    assert u[0] in Filter(At(host, key), u);
    assert u[0] in Filter(At(host, key), v);
    var other := Start(host, v[0]);
    assert v[0] in Filter(At(host, other), v);
    assert v[0] in Filter(At(host, other), u);
    var i :| 0 <= i < |v| && v[i] == u[0];
    var k :| 0 <= k < |u| && u[k] == v[0];
    assert StartsNoLater(host, v[0], v[i]) && StartsNoLater(host, u[0], u[k]);
    assert key == other;
    assert Filter(At(host, key), u)[0] == u[0] && Filter(At(host, key), v)[0] == v[0];
  }

  lemma SameTails(host: Host, u: seq<Span>, v: seq<Span>, key: Option<int>)
    requires u != [] && v != [] && u[0] == v[0]
    requires Filter(At(host, key), u) == Filter(At(host, key), v)
    ensures Filter(At(host, key), u[1..]) == Filter(At(host, key), v[1..])
  {
    if At(host, key)(u[0]) {
      assert Filter(At(host, key), u)[1..] == Filter(At(host, key), u[1..]);
      assert Filter(At(host, key), v)[1..] == Filter(At(host, key), v[1..]);
    }
  }

  /** The result is the only sorted and stable arrangement, so any stable sort gives it. */
  lemma {:induction false} SortedAndStableIsUnique(host: Host, u: seq<Span>, v: seq<Span>)
    requires Sorted(host, u) && Sorted(host, v)
    requires forall key :: Filter(At(host, key), u) == Filter(At(host, key), v)
    ensures u == v
  {
    if u != [] {
      SameHead(host, u, v);
      forall key
        ensures Filter(At(host, key), u[1..]) == Filter(At(host, key), v[1..])
      {
        SameTails(host, u, v, key);
      }
      SortedAndStableIsUnique(host, u[1..], v[1..]);
      assert u == [u[0]] + u[1..] && v == [v[0]] + v[1..];
    } else if v != [] {
      SameHead(host, v, u);
    }
  }

  // ---------------------------------------------------------------- extraction

  /** The raw list at `trace_context.trace.spans`, when every step is of the right kind. */
  function RawSpans(payload: map<string, Json>): Option<seq<Json>> {
    match Get(payload, "trace_context")
    case Obj(context) =>
      (match Get(context, "trace")
       case Obj(trace) => (match Get(trace, "spans") case Arr(items) => Some(items) case _ => None)
       case _ => None)
    case _ => None
  }

  /** Items that are objects with at least one field. */
  function Objects(raw: seq<Json>): seq<Span> {
    if raw == [] then []
    else if raw[0].Obj? && raw[0].fields != map[] then [raw[0].fields] + Objects(raw[1..])
    else Objects(raw[1..])
  }

  function Extract(host: Host, payload: map<string, Json>): seq<Span> {
    match RawSpans(payload)
    case None => []
    case Some(raw) => Order(host, Objects(raw))
  }

  // ---------------------------------------------------------------- finding

  datatype Found = Found(span: Span) | NotFound | Ambiguous

  /** Split `name:`, `agent_id:`, `agent_type:` or `span_id:` from a path token. */
  function SplitSelector(token: string): (Option<string>, string) {
    if StartsWith(token, "name:") then (Some("name"), token[5..])
    else if StartsWith(token, "agent_id:") then (Some("agent_id"), token[9..])
    else if StartsWith(token, "agent_type:") then (Some("agent_type"), token[11..])
    else if StartsWith(token, "span_id:") then (Some("span_id"), token[8..])
    else (None, token)
  }

  function Matching(host: Host, key: string, wanted: string): Span -> bool {
    span => HasKeyIdentity(host, span, key, wanted)
  }

  function MatchesOf(host: Host, spans: seq<Span>, key: string, wanted: string): seq<Span> {
    Filter(Matching(host, key, wanted), spans)
  }

  /** The position after `order:`; only plain digits are read. */
  function OrderPosition(token: string): Option<nat>
    requires StartsWith(token, "order:")
  {
    var raw := token[|"order:"|..];
    if IsDigits(raw) then Some(ParseIndex(raw)) else None
  }

  function FindSpan(host: Host, spans: seq<Span>, token: string): Found {
    var (key, wanted) := SplitSelector(token);
    if key.Some? then Sole(MatchesOf(host, spans, key.value, wanted))
    else if StartsWith(token, "order:") then
      var position := OrderPosition(token);
      if position.Some? && 1 <= position.value <= |spans| then Found(spans[position.value - 1]) else NotFound
    else
      var byName := MatchesOf(host, spans, "name", token);
      if |byName| >= 1 then Sole(byName)
      else
        var byId := MatchesOf(host, spans, "span_id", token);
        if |byId| == 1 then Found(byId[0]) else NotFound
  }

  function Sole(matches: seq<Span>): Found {
    if |matches| > 1 then Ambiguous else if |matches| == 1 then Found(matches[0]) else NotFound
  }
}

/**
 Narrowing the shared payload to the spans one metric names. The narrowing must not change what the
 metric's own span paths mean, although other spans disappear from the document.
 */
module Scoping {
  import opened Options
  import opened Json
  import opened Paths
  import opened Spans
  import opened Resolver
  import SpanLaws

  predicate Wanted(host: Host, wanted: set<string>, span: Span) {
    exists w :: w in wanted && HasIdentity(host, span, w)
  }

  function Keeps(host: Host, wanted: set<string>): Span -> bool {
    span => Wanted(host, wanted, span)
  }

  predicate IsWantedItem(host: Host, wanted: set<string>, item: Json) {
    item.Obj? && Wanted(host, wanted, item.fields)
  }

  function KeepsItem(host: Host, wanted: set<string>): Json -> bool {
    item => IsWantedItem(host, wanted, item)
  }

  function KeepRaw(host: Host, wanted: set<string>, raw: seq<Json>): seq<Json> {
    Filter(KeepsItem(host, wanted), raw)
  }

  /** The payload with only the wanted spans, or unchanged when nothing is wanted or there is no span list. */
  function Scope(host: Host, payload: Payload, wanted: set<string>): Payload {
    if wanted == {} || RawSpans(payload).None? then payload
    else
      var context := payload["trace_context"].fields;
      var trace := context["trace"].fields;
      var kept := KeepRaw(host, wanted, RawSpans(payload).value);
      payload["trace_context" := Obj(context["trace" := Obj(trace["spans" := Arr(kept)])])]
  }

  lemma {:induction false} ObjectsOfKept(host: Host, wanted: set<string>, raw: seq<Json>)
    ensures Objects(KeepRaw(host, wanted, raw)) == Filter(Keeps(host, wanted), Objects(raw))
  {
    if raw != [] {
      ObjectsOfKept(host, wanted, raw[1..]);
      if raw[0].Obj? && raw[0].fields != map[] {
        assert ([raw[0].fields] + Objects(raw[1..]))[1..] == Objects(raw[1..]);
      }
      if IsWantedItem(host, wanted, raw[0]) {
        EmptyHasNoIdentity(host, wanted, raw[0].fields);
        assert ([raw[0]] + KeepRaw(host, wanted, raw[1..]))[1..] == KeepRaw(host, wanted, raw[1..]);
      }
    }
  }

  lemma EmptyHasNoIdentity(host: Host, wanted: set<string>, span: Span)
    requires Wanted(host, wanted, span)
    ensures span != map[]
  {
  }

  /** Extracting from the narrowed payload is filtering what is extracted from the full one. */
  lemma ScopeIsFilter(host: Host, payload: Payload, wanted: set<string>)
    ensures Extract(host, Scope(host, payload, wanted))
            == if wanted == {} then Extract(host, payload) else Filter(Keeps(host, wanted), Extract(host, payload))
  {
    if wanted != {} && RawSpans(payload).Some? {
      var raw := RawSpans(payload).value;
      assert RawSpans(Scope(host, payload, wanted)) == Some(KeepRaw(host, wanted, raw));
      ObjectsOfKept(host, wanted, raw);
      FilterOrder(host, Keeps(host, wanted), Objects(raw));
    }
  }

  // ---------------------------------------------------------------- the spans a path names

  /** The span identity a path names, if it names one. */
  function SpanToken(tokens: seq<string>): Option<string> {
    if tokens == [] then None
    else
      var head := tokens[0];
      var (key, value) := SplitSelector(head);
      if key.Some? then (if value != "" then Some(value) else None)
      else if head == "spans" && |tokens| > 1 then
        if tokens[1] == "*" || IsDigits(tokens[1]) then None else Some(SplitSelector(tokens[1]).1)
      else if IsReserved(head) || StartsWith(head, "order:") then None
      else Some(head)
  }

  /** A selector names its value, at the head of a path and under `spans`. */
  lemma SelectorNamesItsValue(key: string, value: string, rest: seq<string>)
    requires SpanLaws.IsIdentityKey(key)
    ensures SpanToken([key + ":" + value] + rest) == if value == "" then None else Some(value)
    ensures SpanToken(["spans", key + ":" + value] + rest) == Some(value)
  {
    var selector := key + ":" + value;
    SpanLaws.SelectorSplits(key, value);
    assert selector[0] == key[0] && (["spans", selector] + rest)[1] == selector;
    SpansIsNoSelector();
  }

  lemma SpansIsNoSelector()
    ensures SplitSelector("spans") == (None, "spans")
  {
    assert "spans"[0] != "name:"[0] && "spans"[0] != "agent_id:"[0] && "spans"[0] != "agent_type:"[0];
    assert "spans"[4] != "span_id:"[4];
  }

  /** Any other token names itself, but a section or an order number at the head and a position under `spans` do not. */
  lemma BareTokenNamesItself(token: string, rest: seq<string>)
    requires SplitSelector(token).0.None?
    ensures SpanToken(["spans", token] + rest) == if token == "*" || IsDigits(token) then None else Some(token)
    ensures token != "spans" ==>
              SpanToken([token] + rest)
              == if SpanLaws.IsSectionName(token) || StartsWith(token, "order:") then None else Some(token)
    ensures SpanToken(["spans"]) == None
  {
    assert (["spans", token] + rest)[1] == token && ([token] + rest)[1..] == rest;
    SpansIsNoSelector();
  }

  /** The token that selects a span, for a path that selects one by identity. */
  function Selector(tokens: seq<string>): Option<string> {
    if tokens == [] then None
    else if tokens[0] == "spans" then
      if |tokens| > 1 && tokens[1] != "*" && !IsDigits(tokens[1]) && SelectsByIdentity(tokens[1]) then Some(tokens[1])
      else None
    else if IsReserved(tokens[0]) || !SelectsByIdentity(tokens[0]) then None
    else Some(tokens[0])
  }

  predicate SelectsByIdentity(token: string) {
    SplitSelector(token).0.Some? || !StartsWith(token, "order:")
  }

  /** The narrowed payload was asked for this identity. */
  predicate Named(wanted: set<string>, name: string) {
    name == "" || wanted == {} || name in wanted
  }

  /** Nothing is narrowed, or some name is empty and so never met, or the scope has every name. */
  predicate InScope(wanted: set<string>, names: seq<string>) {
    wanted == {} || "" in names || forall n :: n in names ==> n in wanted
  }

  lemma MatchesAreWanted(host: Host, wanted: set<string>, spans: seq<Span>, key: string, name: string)
    requires key == "name" || key == "agent_id" || key == "agent_type" || key == "span_id"
    requires name == "" || name in wanted
    ensures MatchesOf(host, Filter(Keeps(host, wanted), spans), key, name) == MatchesOf(host, spans, key, name)
  {
    forall x | x in spans && Matching(host, key, name)(x)
      ensures Keeps(host, wanted)(x)
    {
      assert HasIdentity(host, x, name);
    }
    FilterFilter(Keeps(host, wanted), Matching(host, key, name), spans);
  }

  /** Looking a span up by an identity that was asked for finds the same span, or the same ambiguity. */
  lemma FindAmongWanted(host: Host, wanted: set<string>, spans: seq<Span>, token: string)
    requires SelectsByIdentity(token) && (SplitSelector(token).1 == "" || SplitSelector(token).1 in wanted)
    ensures FindSpan(host, Filter(Keeps(host, wanted), spans), token) == FindSpan(host, spans, token)
  {
    var (key, name) := SplitSelector(token);
    if key.Some? {
      MatchesAreWanted(host, wanted, spans, key.value, name);
    } else {
      MatchesAreWanted(host, wanted, spans, "name", token);
      MatchesAreWanted(host, wanted, spans, "span_id", token);
    }
  }

  /** A path that selects a span by an identity the scope names resolves to the same value or error. */
  lemma ScopingPreservesPath(host: Host, payload: Payload, wanted: set<string>, tokens: seq<string>)
    requires Selector(tokens).Some? && Named(wanted, SplitSelector(Selector(tokens).value).1)
    ensures Resolve(host, Scope(host, payload, wanted), tokens) == Resolve(host, payload, tokens)
  {
    if wanted != {} {
      ScopeIsFilter(host, payload, wanted);
      FindAmongWanted(host, wanted, Extract(host, payload), Selector(tokens).value);
      ResolveOfSelector(host, payload, tokens);
      ResolveOfSelector(host, Scope(host, payload, wanted), tokens);
    }
  }

  /** The path `spans` itself keeps its meaning exactly when every span of the payload is wanted. */
  lemma WholeListPreservedIff(host: Host, payload: Payload, wanted: set<string>)
    requires wanted != {}
    ensures Resolve(host, Scope(host, payload, wanted), ["spans"]) == Resolve(host, payload, ["spans"]) <==>
            forall span :: span in Extract(host, payload) ==> Wanted(host, wanted, span)
  {
    var full := Extract(host, payload);
    var kept := Filter(Keeps(host, wanted), full);
    ScopeIsFilter(host, payload, wanted);
    FilterAll(Keeps(host, wanted), full);
    if AsItems(kept) == AsItems(full) {
      ItemsAreSpans(kept, full);
    }
    assert ["spans"][1..] == [];
  }

  lemma {:induction false} FilterMovesForward<T(!new)>(p: T -> bool, s: seq<T>, i: nat)
    requires i < |Filter(p, s)|
    ensures i < |s| && Filter(p, s)[i] in s[i..]
  {
    if !p(s[0]) {
      FilterMovesForward(p, s[1..], i);
      assert s[1..][i..] == s[i + 1..];
      assert s[i..][1..] == s[i + 1..];
    } else if i > 0 {
      FilterMovesForward(p, s[1..], i - 1);
      assert s[1..][i - 1..] == s[i..];
    }
  }

  predicate AllDifferent<T(==)>(s: seq<T>) {
    forall i, k :: 0 <= i < k < |s| ==> s[i] != s[k]
  }

  predicate KeepsThrough<T>(p: T -> bool, s: seq<T>, i: nat)
    requires i < |s|
  {
    forall k :: 0 <= k <= i ==> p(s[k])
  }

  lemma KeepsThroughTail<T>(p: T -> bool, s: seq<T>, i: nat)
    requires 0 < i < |s|
    ensures KeepsThrough(p, s, i) <==> p(s[0]) && KeepsThrough(p, s[1..], i - 1)
  {
    if p(s[0]) && KeepsThrough(p, s[1..], i - 1) {
      forall k | 0 <= k <= i
        ensures p(s[k])
      {
        if k > 0 {
          assert s[1..][k - 1] == s[k];
        }
      }
    }
  }

  lemma TailDiffers<T>(s: seq<T>)
    requires s != [] && AllDifferent(s)
    ensures AllDifferent(s[1..]) && forall i :: 0 < i < |s| ==> s[1..][i - 1] == s[i]
  {
  }

  /** Filtering leaves position `i` in place exactly when it keeps everything up to it. */
  lemma {:induction false} FilterKeepsPosition<T(!new)>(p: T -> bool, s: seq<T>, i: nat)
    requires AllDifferent(s) && i < |s|
    ensures i < |Filter(p, s)| && Filter(p, s)[i] == s[i] <==> KeepsThrough(p, s, i)
  {
    if !p(s[0]) {
      if i < |Filter(p, s)| {
        FilterMovesForward(p, s[1..], i);
        assert s[1..][i..] == s[i + 1..];
        var k :| i + 1 <= k < |s| && s[k] == Filter(p, s)[i];
      }
    } else if i > 0 {
      TailDiffers(s);
      FilterKeepsPosition(p, s[1..], i - 1);
      KeepsThroughTail(p, s, i);
      assert Filter(p, s)[1..] == Filter(p, s[1..]);
    }
  }

  /** The token after `spans` selects by position: a plain index, or an `order:` number. */
  predicate SelectsPosition(token: string) {
    IsDigits(token) || (StartsWith(token, "order:") && OrderPosition(token).Some?)
  }

  /** The position counted from zero; `order:` counts from one and `order:0` selects nothing. */
  function PlaceOf(token: string): Option<nat>
    requires SelectsPosition(token)
  {
    if IsDigits(token) then Some(ParseIndex(token))
    else if OrderPosition(token).value >= 1 then Some(OrderPosition(token).value - 1)
    else None
  }

  function SpanPath(token: string, tail: seq<string>): seq<string> {
    ["spans", token] + tail
  }

  /** A position beyond the trace selects nothing; otherwise the span there is walked on. */
  lemma PositionResolves(host: Host, payload: Payload, token: string, tail: seq<string>)
    requires SelectsPosition(token)
    ensures var spans := Extract(host, payload);
            Resolve(host, payload, SpanPath(token, tail))
            == if PlaceOf(token).Some? && PlaceOf(token).value < |spans|
               then Denote(Obj(spans[PlaceOf(token).value]), tail)
               else if IsDigits(token) then Err(MissingPath) else Err(MissingSpan)
  {
    var path := SpanPath(token, tail);
    assert path[1..] == [token] + tail && ([token] + tail)[1..] == tail;
    if IsDigits(token) {
      IndexResolves(Extract(host, payload), token, tail);
    } else {
      assert token[0] == 'o' && |token| >= 6;
      assert "name:"[0] == 'n' && "agent_id:"[0] == 'a' && "agent_type:"[0] == 'a' && "span_id:"[0] == 's';
      assert SplitSelector(token) == (None, token) && token != "*";
    }
  }

  lemma IndexResolves(spans: seq<Span>, token: string, tail: seq<string>)
    requires IsDigits(token)
    ensures Denote(Arr(AsItems(spans)), [token] + tail)
            == if ParseIndex(token) < |spans| then Denote(Obj(spans[ParseIndex(token)]), tail) else Err(MissingPath)
  {
    assert ([token] + tail)[1..] == tail && token[0] != '*';
  }

  predicate SameOnScope(host: Host, payload: Payload, wanted: set<string>, path: seq<string>) {
    Resolve(host, Scope(host, payload, wanted), path) == Resolve(host, payload, path)
  }

  /** Nothing is selected, or every span up to the one selected is wanted. */
  predicate KeepsItsPlace(host: Host, payload: Payload, wanted: set<string>, token: string)
    requires SelectsPosition(token)
  {
    var full := Extract(host, payload);
    PlaceOf(token).Some? && PlaceOf(token).value < |full| ==>
      forall k :: 0 <= k <= PlaceOf(token).value ==> Wanted(host, wanted, full[k])
  }

  /**
   A path by position, a plain index or an `order:` number, keeps its meaning exactly when every span up to that
   position is wanted, or the trace has no such position; and then whatever follows keeps its meaning too.
   */
  lemma PositionPreservedIff(host: Host, payload: Payload, wanted: set<string>, token: string)
    requires wanted != {} && AllDifferent(Extract(host, payload)) && SelectsPosition(token)
    ensures SameOnScope(host, payload, wanted, SpanPath(token, [])) <==> KeepsItsPlace(host, payload, wanted, token)
    ensures KeepsItsPlace(host, payload, wanted, token) ==>
              forall tail :: SameOnScope(host, payload, wanted, SpanPath(token, tail))
  {
    var full := Extract(host, payload);
    var kept := Filter(Keeps(host, wanted), full);
    ScopeIsFilter(host, payload, wanted);
    FilterAll(Keeps(host, wanted), full);
    var inside := PlaceOf(token).Some? && PlaceOf(token).value < |full|;
    if inside {
      FilterKeepsPosition(Keeps(host, wanted), full, PlaceOf(token).value);
      assert forall k :: 0 <= k < |full| ==> Keeps(host, wanted)(full[k]) == Wanted(host, wanted, full[k]);
    }
    PositionResolves(host, payload, token, []);
    PositionResolves(host, Scope(host, payload, wanted), token, []);
    if KeepsItsPlace(host, payload, wanted, token) {
      forall tail
        ensures SameOnScope(host, payload, wanted, SpanPath(token, tail))
      {
        PositionResolves(host, payload, token, tail);
        PositionResolves(host, Scope(host, payload, wanted), token, tail);
      }
    }
  }

  /** An `order:` number at the head of a path selects as it does under `spans`. */
  lemma BarePositionResolves(host: Host, payload: Payload, token: string, tail: seq<string>)
    requires StartsWith(token, "order:") && SelectsPosition(token)
    ensures Resolve(host, payload, [token] + tail) == Resolve(host, payload, SpanPath(token, tail))
  {
    var path, under := [token] + tail, SpanPath(token, tail);
    assert path[0] == token && path[1..] == tail;
    assert under[1..] == [token] + tail && under[1..][1..] == tail;
    assert token[0] == 'o' && !IsDigits(token) && token != "*" && !IsReserved(token);
  }

  /** So it keeps its meaning exactly under the same condition. */
  lemma BarePositionPreservedIff(host: Host, payload: Payload, wanted: set<string>, token: string)
    requires wanted != {} && AllDifferent(Extract(host, payload))
    requires StartsWith(token, "order:") && SelectsPosition(token)
    ensures SameOnScope(host, payload, wanted, [token]) <==> KeepsItsPlace(host, payload, wanted, token)
    ensures KeepsItsPlace(host, payload, wanted, token) ==>
              forall tail :: SameOnScope(host, payload, wanted, [token] + tail)
  {
    PositionPreservedIff(host, payload, wanted, token);
    forall tail
      ensures SameOnScope(host, payload, wanted, [token] + tail)
              <==> SameOnScope(host, payload, wanted, SpanPath(token, tail))
    {
      BarePositionResolves(host, payload, token, tail);
      BarePositionResolves(host, Scope(host, payload, wanted), token, tail);
    }
    assert [token] + [] == [token];
  }

  /** A wildcard under `spans` runs over the wanted spans only. */
  lemma WildcardSeesTheWanted(host: Host, payload: Payload, wanted: set<string>, tail: seq<string>)
    requires wanted != {}
    ensures Resolve(host, Scope(host, payload, wanted), SpanPath("*", tail))
            == Denote(Arr(AsItems(Filter(Keeps(host, wanted), Extract(host, payload)))), ["*"] + tail)
  {
    ScopeIsFilter(host, payload, wanted);
    assert SpanPath("*", tail)[1..] == ["*"] + tail;
  }

  /** It keeps its meaning, whatever follows, exactly when every span of the payload is wanted. */
  lemma WildcardPreservedIff(host: Host, payload: Payload, wanted: set<string>)
    requires wanted != {}
    ensures (forall tail :: SameOnScope(host, payload, wanted, SpanPath("*", tail))) <==>
            forall span :: span in Extract(host, payload) ==> Wanted(host, wanted, span)
  {
    var full := Extract(host, payload);
    var kept := Filter(Keeps(host, wanted), full);
    FilterAll(Keeps(host, wanted), full);
    ScopeIsFilter(host, payload, wanted);
    if kept == full {
      forall tail
        ensures SameOnScope(host, payload, wanted, SpanPath("*", tail))
      {
        WildcardSeesTheWanted(host, payload, wanted, tail);
        assert SpanPath("*", tail)[1..] == ["*"] + tail;
      }
    } else {
      WildcardSeesTheWanted(host, payload, wanted, []);
      assert SpanPath("*", [])[1..] == ["*"];
      if AsItems(kept) == AsItems(full) {
        ItemsAreSpans(kept, full);
        assert false;
      }
      assert !SameOnScope(host, payload, wanted, SpanPath("*", []));
    }
  }

  lemma ItemsAreSpans(a: seq<Span>, b: seq<Span>)
    requires AsItems(a) == AsItems(b)
    ensures a == b
  {
    assert |a| == |b|;
    forall i | 0 <= i < |a|
      ensures a[i] == b[i]
    {
      assert AsItems(a)[i] == Obj(a[i]) && AsItems(b)[i] == Obj(b[i]);
    }
  }

  // ---------------------------------------------------------------- paths into the document

  /** A path into the document that turns away before it reaches the list of spans. */
  predicate TurnsAway(path: seq<string>) {
    && path != []
    && if path[0] == "payload" then |path| > 1 && TurnsAwayInside(path[1..])
       else path[0] == "agent_registry" || path[0] == "payload_metadata" || path[0] == "correlation"
            || (path[0] == "trace_context" && TurnsAwayInside(path))
  }

  /** The tokens leave `trace_context`, `trace`, `spans` before the third of them. */
  predicate TurnsAwayInside(path: seq<string>) {
    && path != []
    && (path[0] == "trace_context" ==>
          |path| > 1 && (path[1] == "trace" ==> |path| > 2 && path[2] != "spans"))
  }

  lemma DescendInto(fields: map<string, Json>, path: seq<string>)
    requires path != [] && path[0] != "*" && path[0] in fields
    ensures Denote(Obj(fields), path) == Denote(fields[path[0]], path[1..])
  {
  }

  lemma TurningAwayIsSame(host: Host, payload: Payload, wanted: set<string>, path: seq<string>)
    requires TurnsAwayInside(path)
    ensures Denote(Obj(Scope(host, payload, wanted)), path) == Denote(Obj(payload), path)
  {
    if wanted != {} && RawSpans(payload).Some? && path[0] == "trace_context" {
      var context := payload["trace_context"].fields;
      var trace := context["trace"].fields;
      var trace' := trace["spans" := Arr(KeepRaw(host, wanted, RawSpans(payload).value))];
      var context' := context["trace" := Obj(trace')];
      DescendInto(payload, path);
      DescendInto(Scope(host, payload, wanted), path);
      if path[1] == "trace" {
        DescendInto(context, path[1..]);
        DescendInto(context', path[1..]);
        assert path[1..][1..] == path[2..];
      }
    }
  }

  /** Such a path is the same in the narrowed payload. */
  lemma ScopingPreservesDocument(host: Host, payload: Payload, wanted: set<string>, path: seq<string>)
    requires TurnsAway(path)
    ensures SameOnScope(host, payload, wanted, path)
  {
    var scoped := Scope(host, payload, wanted);
    if path[0] == "payload" {
      TurningAwayIsSame(host, payload, wanted, path[1..]);
    } else if path[0] == "trace_context" {
      TurningAwayIsSame(host, payload, wanted, path);
      if "trace_context" in payload {
        DescendInto(payload, path);
        DescendInto(scoped, path);
      }
    }
  }

  const SPAN_LIST: seq<string> := ["trace_context", "trace", "spans"]

  /** A path to the list of spans or to a part of the document that holds it. */
  predicate HoldsSpanList(path: seq<string>) {
    (path != [] && path <= SPAN_LIST) || (path != [] && path[0] == "payload" && path[1..] <= SPAN_LIST)
  }

  /** The value at the rest of the way from such a part is the raw list of spans. */
  lemma WayToSpans(host: Host, payload: Payload, path: seq<string>)
    requires HoldsSpanList(path) && RawSpans(payload).Some?
    ensures var rest := if path[0] == "payload" then SPAN_LIST[|path| - 1..] else SPAN_LIST[|path|..];
            Then(Resolve(host, payload, path), rest) == Ok(Arr(RawSpans(payload).value))
  {
    var context := payload["trace_context"].fields;
    var trace := context["trace"].fields;
    var inner := if path[0] == "payload" then path[1..] else path;
    var rest := SPAN_LIST[|inner|..];
    assert SPAN_LIST == inner + rest;
    assert SPAN_LIST[1..] == ["trace", "spans"] && SPAN_LIST[1..][1..] == ["spans"] && ["spans"][1..] == [];
    DescendInto(payload, SPAN_LIST);
    DescendInto(context, ["trace", "spans"]);
    DescendInto(trace, ["spans"]);
    assert "*" !in inner;
    WalkComposes(Obj(payload), inner, rest);
    if path[0] != "payload" {
      DescendInto(payload, path);
    }
  }

  /** A path to the raw spans, or to what holds them, is unaffected exactly when every raw item is a wanted span. */
  lemma DocumentPreservedIff(host: Host, payload: Payload, wanted: set<string>, path: seq<string>)
    requires wanted != {} && RawSpans(payload).Some? && HoldsSpanList(path)
    ensures SameOnScope(host, payload, wanted, path) <==>
            forall item :: item in RawSpans(payload).value ==> IsWantedItem(host, wanted, item)
  {
    var raw := RawSpans(payload).value;
    var scoped := Scope(host, payload, wanted);
    FilterAll(KeepsItem(host, wanted), raw);
    assert RawSpans(scoped) == Some(KeepRaw(host, wanted, raw));
    WayToSpans(host, payload, path);
    WayToSpans(host, scoped, path);
    if KeepRaw(host, wanted, raw) == raw {
      NarrowedToItself(host, payload, wanted);
    }
  }

  lemma NarrowedToItself(host: Host, payload: Payload, wanted: set<string>)
    requires wanted != {} && RawSpans(payload).Some?
    requires KeepRaw(host, wanted, RawSpans(payload).value) == RawSpans(payload).value
    ensures Scope(host, payload, wanted) == payload
  {
    var context := payload["trace_context"].fields;
    var trace := context["trace"].fields;
    assert trace["spans" := trace["spans"]] == trace;
    assert context["trace" := context["trace"]] == context;
    assert payload["trace_context" := payload["trace_context"]] == payload;
  }

  // ---------------------------------------------------------------- paths below the raw list of spans

  /** A path to the raw list of spans. */
  predicate IsListPath(path: seq<string>) {
    path == SPAN_LIST || path == ["payload"] + SPAN_LIST
  }

  /** Such a path, continued, walks on from the raw list. */
  lemma RawListResolves(host: Host, payload: Payload, path: seq<string>, rest: seq<string>)
    requires IsListPath(path) && RawSpans(payload).Some?
    ensures Resolve(host, payload, path + rest) == Denote(Arr(RawSpans(payload).value), rest)
  {
    assert (["payload"] + SPAN_LIST)[1..] == SPAN_LIST && (["payload"] + SPAN_LIST + rest)[1..] == SPAN_LIST + rest;
    WayToSpans(host, payload, ["payload"] + SPAN_LIST);
    assert SPAN_LIST[|SPAN_LIST|..] == [];
    WalkComposes(Obj(payload), SPAN_LIST, rest);
    if path == SPAN_LIST {
      DescendInto(payload, path + rest);
    }
  }

  /** On the narrowed payload it walks on from the wanted spans of the list. */
  lemma RawListSeesTheWanted(host: Host, payload: Payload, wanted: set<string>, path: seq<string>, rest: seq<string>)
    requires wanted != {} && IsListPath(path) && RawSpans(payload).Some?
    ensures Resolve(host, Scope(host, payload, wanted), path + rest)
            == Denote(Arr(KeepRaw(host, wanted, RawSpans(payload).value)), rest)
  {
    var raw := RawSpans(payload).value;
    assert RawSpans(Scope(host, payload, wanted)) == Some(KeepRaw(host, wanted, raw));
    RawListResolves(host, Scope(host, payload, wanted), path, rest);
  }

  /** The list has no such position, or every item up to it is a wanted span. */
  predicate KeepsRawPlace(host: Host, wanted: set<string>, raw: seq<Json>, token: string)
    requires IsDigits(token)
  {
    ParseIndex(token) < |raw| ==> KeepsThrough(KeepsItem(host, wanted), raw, ParseIndex(token))
  }

  lemma ItemAt(items: seq<Json>, token: string, tail: seq<string>)
    requires IsDigits(token)
    ensures Denote(Arr(items), [token] + tail)
            == if ParseIndex(token) < |items| then Denote(items[ParseIndex(token)], tail) else Err(MissingPath)
  {
    assert ([token] + tail)[1..] == tail && token[0] != '*';
  }

  /** A position in the raw list keeps its meaning exactly when the items up to it are wanted spans, or it is beyond. */
  lemma RawPositionPreservedIff(host: Host, payload: Payload, wanted: set<string>, path: seq<string>, token: string)
    requires wanted != {} && IsListPath(path) && IsDigits(token)
    requires RawSpans(payload).Some? && AllDifferent(RawSpans(payload).value)
    ensures SameOnScope(host, payload, wanted, path + [token])
            <==> KeepsRawPlace(host, wanted, RawSpans(payload).value, token)
    ensures KeepsRawPlace(host, wanted, RawSpans(payload).value, token) ==>
              forall tail :: SameOnScope(host, payload, wanted, path + ([token] + tail))
  {
    var raw := RawSpans(payload).value;
    var keeps := KeepsItem(host, wanted);
    FilterAll(keeps, raw);
    if ParseIndex(token) < |raw| {
      FilterKeepsPosition(keeps, raw, ParseIndex(token));
    }
    forall tail
      ensures Resolve(host, payload, path + ([token] + tail)) == Denote(Arr(raw), [token] + tail)
      ensures Resolve(host, Scope(host, payload, wanted), path + ([token] + tail))
              == Denote(Arr(Filter(keeps, raw)), [token] + tail)
    {
      RawListResolves(host, payload, path, [token] + tail);
      RawListSeesTheWanted(host, payload, wanted, path, [token] + tail);
    }
    forall tail
      ensures KeepsRawPlace(host, wanted, raw, token) ==> SameOnScope(host, payload, wanted, path + ([token] + tail))
    {
      ItemAt(raw, token, tail);
      ItemAt(Filter(keeps, raw), token, tail);
    }
    assert [token] + [] == [token];
    ItemAt(raw, token, []);
    ItemAt(Filter(keeps, raw), token, []);
  }

  /** A wildcard over the raw list keeps its meaning, whatever follows, exactly when every item is a wanted span. */
  lemma RawWildcardPreservedIff(host: Host, payload: Payload, wanted: set<string>, path: seq<string>)
    requires wanted != {} && IsListPath(path) && RawSpans(payload).Some?
    ensures (forall tail :: SameOnScope(host, payload, wanted, path + (["*"] + tail))) <==>
            forall item :: item in RawSpans(payload).value ==> IsWantedItem(host, wanted, item)
  {
    var raw := RawSpans(payload).value;
    FilterAll(KeepsItem(host, wanted), raw);
    if KeepRaw(host, wanted, raw) == raw {
      NarrowedToItself(host, payload, wanted);
    } else {
      RawListResolves(host, payload, path, ["*"] + []);
      RawListSeesTheWanted(host, payload, wanted, path, ["*"] + []);
      assert ["*"] + [] == ["*"];
      assert !SameOnScope(host, payload, wanted, path + (["*"] + []));
    }
  }

  // ---------------------------------------------------------------- which selectors are safe

  /** Some scope that names the stripped identity, as the metric's scope does. */
  predicate NamesStripped(wanted: set<string>, name: string) {
    "" !in wanted && (Strip(name) == "" || Strip(name) in wanted)
  }

  ghost predicate SafeSelector(host: Host, tokens: seq<string>, name: string) {
    forall payload: Payload, wanted: set<string> :: NamesStripped(wanted, name) ==>
      Resolve(host, Scope(host, payload, wanted), tokens) == Resolve(host, payload, tokens)
  }

  function LoneSpan(key: string, name: string): Payload {
    map["trace_context" := Obj(map["trace" := Obj(map["spans" := Arr([Obj(map[key := Str(name)])])])])]
  }

  lemma LoneSpanExtracted(host: Host, key: string, name: string)
    ensures Extract(host, LoneSpan(key, name)) == [map[key := Str(name)]]
  {
    var span: Span := map[key := Str(name)];
    var raw := [Obj(span)];
    assert RawSpans(LoneSpan(key, name)) == Some(raw);
    assert key in span && span != map[];
    assert raw[1..] == [] && [span][1..] == [];
    assert Objects(raw) == [span];
    assert Order(host, [span]) == Insert(host, span, Order(host, []));
    assert Order(host, [span]) == [span];
  }

  /** A payload whose only span carries the unstripped identity, and a scope that drops that span. */
  lemma UnstrippedIsDropped(host: Host, tokens: seq<string>, key: string, name: string, wanted: set<string>)
    requires key == "name" || key == "agent_id" || key == "agent_type" || key == "span_id"
    requires name != "" && name !in wanted && wanted != {}
    ensures Extract(host, Scope(host, LoneSpan(key, name), wanted)) == []
  {
    var span: Span := map[key := Str(name)];
    LoneSpanExtracted(host, key, name);
    ScopeIsFilter(host, LoneSpan(key, name), wanted);
    forall w | w in wanted
      ensures !HasIdentity(host, span, w)
    {
    }
    assert !Wanted(host, wanted, span);
    FilterOfOne(Keeps(host, wanted), span);
  }

  lemma FilterOfOne(p: Span -> bool, x: Span)
    ensures Filter(p, [x]) == if p(x) then [x] else []
  {
    assert [x][1..] == [];
  }

  lemma LoneSpanFound(host: Host, key: string, name: string, token: string)
    requires key == "name" || key == "agent_id" || key == "agent_type" || key == "span_id"
    requires name != "" && SelectsByIdentity(token) && SplitSelector(token).1 == name
    requires key == match SplitSelector(token).0 case Some(k) => k case None => "name"
    ensures FindSpan(host, [map[key := Str(name)]], token).Found?
  {
    var span: Span := map[key := Str(name)];
    FilterOfOne(Matching(host, key, name), span);
    FilterOfOne(Matching(host, "span_id", name), span);
  }

  /** With an identity that stripping changes, some scope that names the stripped one loses the span. */
  lemma UnstrippedLosesSpan(host: Host, tokens: seq<string>, name: string, wanted: set<string>)
    requires Selector(tokens).Some? && SplitSelector(Selector(tokens).value).1 == name
    requires name != "" && name !in wanted && wanted != {}
    ensures exists payload ::
              Resolve(host, Scope(host, payload, wanted), tokens) != Resolve(host, payload, tokens)
  {
    var token := Selector(tokens).value;
    var key := match SplitSelector(token).0 case Some(k) => k case None => "name";
    var payload := LoneSpan(key, name);
    UnstrippedIsDropped(host, tokens, key, name, wanted);
    NothingToFind(host, Scope(host, payload, wanted), tokens);
    LoneSpanExtracted(host, key, name);
    LoneSpanResolves(host, payload, tokens, key, name);
  }

  lemma NothingToFind(host: Host, payload: Payload, tokens: seq<string>)
    requires Selector(tokens).Some? && Extract(host, payload) == []
    ensures Resolve(host, payload, tokens) == Err(MissingSpan)
  {
    ResolveOfSelector(host, payload, tokens);
  }

  lemma LoneSpanResolves(host: Host, payload: Payload, tokens: seq<string>, key: string, name: string)
    requires Selector(tokens).Some? && SplitSelector(Selector(tokens).value).1 == name && name != ""
    requires key == match SplitSelector(Selector(tokens).value).0 case Some(k) => k case None => "name"
    requires Extract(host, payload) == [map[key := Str(name)]]
    ensures Resolve(host, payload, tokens) != Err(MissingSpan)
  {
    LoneSpanFound(host, key, name, Selector(tokens).value);
    ResolveOfSelector(host, payload, tokens);
    InSpanNeverMissesSpan(map[key := Str(name)], if tokens[0] == "spans" then tokens[2..] else tokens[1..]);
  }

  lemma ResolveOfSelector(host: Host, payload: Payload, tokens: seq<string>)
    requires Selector(tokens).Some?
    ensures Resolve(host, payload, tokens)
            == InSpan(FindSpan(host, Extract(host, payload), Selector(tokens).value),
                      if tokens[0] == "spans" then tokens[2..] else tokens[1..])
  {
    if tokens[0] == "spans" {
      assert tokens[1..][1..] == tokens[2..];
    }
  }

  /**
   A path that selects by identity keeps its meaning under every scope that names the stripped identity
   exactly when stripping does not change the identity.
   */
  lemma SafeExactlyWhenStripped(host: Host, tokens: seq<string>, name: string)
    requires Selector(tokens).Some? && SplitSelector(Selector(tokens).value).1 == name
    ensures SafeSelector(host, tokens, name) <==> Strip(name) == name
  {
    if Strip(name) == name {
      forall payload: Payload, wanted: set<string> | NamesStripped(wanted, name)
        ensures Resolve(host, Scope(host, payload, wanted), tokens) == Resolve(host, payload, tokens)
      {
        ScopingPreservesPath(host, payload, wanted, tokens);
      }
    } else {
      assert name != "" by {
        assert Strip("") == "";
      }
      var wanted := if Strip(name) != "" then {Strip(name)} else if name == "x" then {"y"} else {"x"};
      UnstrippedLosesSpan(host, tokens, name, wanted);
      assert NamesStripped(wanted, name);
    }
  }

  /** Walking inside a found span never reports a missing span. */
  lemma InSpanNeverMissesSpan(span: Span, rest: seq<string>)
    ensures Denote(Obj(span), rest) != Err(MissingSpan)
  {
    WalkErrors(Obj(span), rest);
  }

  lemma {:induction false} WalkErrors(v: Json, tokens: seq<string>)
    ensures Denote(v, tokens).Err? ==> Denote(v, tokens).error == MissingPath || Denote(v, tokens).error == InvalidType
    decreases |tokens|
  {
    if tokens != [] && tokens[0] != "*" && Step(v, tokens[0]).Ok? {
      WalkErrors(Step(v, tokens[0]).value, tokens[1..]);
    }
  }
}

/** Traces made from a list of names, on which to show what narrowing loses. */
module NamedTraces {
  import opened Options
  import opened Json
  import opened Paths
  import opened Resolver
  import opened Scoping
  import opened Spans

  function SpanNamed(name: string): Span {
    map["name" := Str(name)]
  }

  /** A payload with one span for each name, in this order and without start times. */
  function SpansNamed(names: seq<string>): (spans: seq<Span>)
    ensures |spans| == |names| && forall i :: 0 <= i < |names| ==> spans[i] == SpanNamed(names[i])
  {
    if names == [] then [] else [SpanNamed(names[0])] + SpansNamed(names[1..])
  }

  function PayloadOf(spans: seq<Span>): Payload {
    map["trace_context" := Obj(map["trace" := Obj(map["spans" := Arr(AsItems(spans))])])]
  }

  lemma {:induction false} ObjectsOfItems(spans: seq<Span>)
    requires forall i :: 0 <= i < |spans| ==> spans[i] != map[]
    ensures Objects(AsItems(spans)) == spans
  {
    if spans != [] {
      var rest := spans[1..];
      assert forall i :: 0 <= i < |rest| ==> rest[i] == spans[i + 1];
      ObjectsOfItems(rest);
      assert AsItems(spans)[1..] == AsItems(rest) && AsItems(spans)[0] == Obj(spans[0]);
      assert spans == [spans[0]] + rest;
    }
  }

  /** Spans without start times are extracted as they stand. */
  lemma ExtractedAsTheyStand(host: Host, spans: seq<Span>)
    requires forall i :: 0 <= i < |spans| ==> spans[i] != map[] && "started_at" !in spans[i]
    ensures Extract(host, PayloadOf(spans)) == spans
  {
    var raw := AsItems(spans);
    assert RawSpans(PayloadOf(spans)) == Some(raw);
    ObjectsOfItems(spans);
    OrderOfEqualStarts(host, None, spans);
  }

  lemma NamedSpansExtracted(host: Host, names: seq<string>)
    ensures Extract(host, PayloadOf(SpansNamed(names))) == SpansNamed(names)
  {
    var spans := SpansNamed(names);
    forall i | 0 <= i < |spans|
      ensures spans[i] != map[] && "started_at" !in spans[i]
    {
      assert "name" in spans[i];
    }
    ExtractedAsTheyStand(host, spans);
  }

  lemma NamedHasIdentity(host: Host, name: string, wanted: string)
    requires name != ""
    ensures HasIdentity(host, SpanNamed(name), wanted) <==> wanted == name
  {
    assert Get(SpanNamed(name), "name") == Str(name);
  }

  /** A span that has only a name is wanted exactly when its name is. */
  lemma NamedSpanWanted(host: Host, wanted: set<string>, name: string)
    requires name != ""
    ensures Wanted(host, wanted, SpanNamed(name)) <==> name in wanted
  {
    NamedHasIdentity(host, name, name);
    forall w
      ensures HasIdentity(host, SpanNamed(name), w) <==> w == name
    {
      NamedHasIdentity(host, name, w);
    }
  }

  /** Without comparisons the guard holds on such a trace exactly when every required name is one of its names. */
  lemma GuardOnNames(host: Host, names: seq<string>, required: seq<string>)
    requires "" !in names
    ensures Applies(host, PayloadOf(SpansNamed(names)), [], required) <==> forall r :: r in required ==> r in names
  {
    var payload := PayloadOf(SpansNamed(names));
    NamedSpansExtracted(host, names);
    forall r
      ensures Available(host, payload, r) <==> r in names
    {
      NameIsAvailable(host, payload, names, r);
    }
    assert forall i :: 0 <= i < |required| ==> required[i] in required;
  }

  lemma NameIsAvailable(host: Host, payload: Payload, names: seq<string>, name: string)
    requires "" !in names && Extract(host, payload) == SpansNamed(names)
    ensures Available(host, payload, name) <==> name in names
  {
    var spans := SpansNamed(names);
    if i :| 0 <= i < |names| && names[i] == name {
      assert names[i] in names && spans[i] in spans;
      NamedHasIdentity(host, name, name);
    }
    if span :| span in spans && HasIdentity(host, span, name) {
      var i :| 0 <= i < |spans| && spans[i] == span;
      assert names[i] in names;
      NamedHasIdentity(host, names[i], name);
    }
  }
}

/** Resolving a mapping path, and a whole input mapping, against one payload. */
module Resolver {
  import opened Options
  import opened Json
  import opened Paths
  import opened Spans

  type Payload = map<string, Json>

  /** The sections addressed on the document itself. */
  predicate IsReserved(head: string) {
    || head == "payload" || head == "agent_registry" || head == "payload_metadata"
    || head == "correlation" || head == "trace_context" || head == "spans"
  }

  function InSpan(found: Found, rest: seq<string>): Resolved {
    match found
    case Ambiguous => Err(AmbiguousSpan)
    case NotFound => Err(MissingSpan)
    case Found(span) => Denote(Obj(span), rest)
  }

  /** The value of a path, given as its tokens. */
  function Resolve(host: Host, payload: Payload, tokens: seq<string>): Resolved {
    if tokens == [] then Err(UnsupportedMapping)
    else
      var head, rest := tokens[0], tokens[1..];
      var spans := Extract(host, payload);
      if head == "payload" then Denote(Obj(payload), rest)
      else if head == "spans" then
        if rest == [] then Ok(Arr(AsItems(spans)))
        else if rest[0] == "*" || IsDigits(rest[0]) then Denote(Arr(AsItems(spans)), rest)
        else InSpan(FindSpan(host, spans, rest[0]), rest[1..])
      else if IsReserved(head) then
        var section := Get(payload, head);
        if section == Null then Err(MissingPath) else Denote(section, rest)
      else InSpan(FindSpan(host, spans, head), rest)
  }

  // ---------------------------------------------------------------- input mapping

  /** A mapping entry: a path string, an object with options, or something that is neither. */
  datatype MappingSpec =
    | PathOnly(tokens: seq<string>)
    | WithOptions(path: Option<seq<string>>, required: bool, kind: Option<string>, nullable: bool,
                  default: Option<Json>)
    | NotAMapping

  datatype ResolvedInput = ResolvedInput(values: map<string, Json>, errors: seq<(string, PathError)>,
                                         missing: seq<string>)

  const NOTHING := ResolvedInput(map[], [], [])

  function TokensOf(spec: MappingSpec): Option<seq<string>> {
    match spec
    case PathOnly(tokens) => Some(tokens)
    case WithOptions(path, _, _, _, _) => path
    case NotAMapping => None
  }

  predicate IsRequired(spec: MappingSpec) {
    spec.WithOptions? ==> spec.required
  }

  /** The type names are read in lower case, and an unknown one accepts every value. */
  predicate CheckType(v: Json, expected: string) {
    var kind := Lower(expected);
    if kind == "string" then v.Str?
    else if kind == "number" then v.Int? || v.Float?
    else if kind == "integer" then v.Int?
    else if kind == "boolean" then v.Bool?
    else if kind == "object" then v.Obj?
    else if kind == "array" then v.Arr?
    else true
  }

  /** The value of one entry after the null and type checks. */
  function EntryValue(host: Host, payload: Payload, spec: MappingSpec): Resolved {
    match TokensOf(spec)
    case None => Err(UnsupportedMapping)
    case Some(tokens) =>
      match Resolve(host, payload, tokens)
      case Err(e) => Err(e)
      case Ok(v) =>
        if v == Null && !(spec.WithOptions? && spec.nullable) then Err(NullValue)
        else if spec.WithOptions? && spec.kind.Some? && spec.kind.value != "" && !CheckType(v, spec.kind.value) then
          Err(InvalidType)
        else Ok(v)
  }

  /** An entry adds a value, or an error and then its default or its key to the missing ones. */
  function AddEntry(host: Host, payload: Payload, soFar: ResolvedInput, key: string,
                    spec: MappingSpec): ResolvedInput {
    match EntryValue(host, payload, spec)
    case Ok(v) => soFar.(values := soFar.values[key := v])
    case Err(e) =>
      var noted := soFar.(errors := soFar.errors + [(key, e)]);
      if TokensOf(spec).Some? && spec.WithOptions? && spec.default.Some? then
        noted.(values := noted.values[key := spec.default.value])
      else if IsRequired(spec) then noted.(missing := noted.missing + [key])
      else noted
  }

  function MapInput(host: Host, payload: Payload, mapping: seq<(string, MappingSpec)>): ResolvedInput {
    if mapping == [] then NOTHING
    else
      var last := mapping[|mapping| - 1];
      AddEntry(host, payload, MapInput(host, payload, mapping[..|mapping| - 1]), last.0, last.1)
  }

  // ---------------------------------------------------------------- what a mapping gives

  type Entry = (string, MappingSpec)

  /** The type names that accept a value; a boolean is no number. */
  function TypeNames(v: Json): set<string> {
    match v
    case Null => {}
    case Bool(_) => {"boolean"}
    case Int(_) => {"number", "integer"}
    case Float(_) => {"number"}
    case Str(_) => {"string"}
    case Arr(_) => {"array"}
    case Obj(_) => {"object"}
  }

  const TYPES: set<string> := {"string", "number", "integer", "boolean", "object", "array"}

  /** The value passes the null and type checks of the entry. */
  predicate Accepts(spec: MappingSpec, v: Json) {
    match spec
    case PathOnly(_) => v != Null
    case WithOptions(_, _, kind, nullable, _) =>
      && (v == Null ==> nullable)
      && (kind.Some? && Lower(kind.value) in TYPES ==> Lower(kind.value) in TypeNames(v))
    case NotAMapping => false
  }

  /** An entry fails without a path, with the error of its path, or on a value it does not accept, null first. */
  lemma EntryValueIs(host: Host, payload: Payload, spec: MappingSpec)
    ensures TokensOf(spec).None? ==> EntryValue(host, payload, spec) == Err(UnsupportedMapping)
    ensures TokensOf(spec).Some? ==>
              var found := Resolve(host, payload, TokensOf(spec).value);
              EntryValue(host, payload, spec)
              == if found.Err? || Accepts(spec, found.value) then found
                 else if found.value == Null && (spec.WithOptions? ==> !spec.nullable) then Err(NullValue)
                 else Err(InvalidType)
  {
    assert Lower("") == "" && "" !in TYPES;
  }

  function Fails(host: Host, payload: Payload): Entry -> bool {
    (entry: Entry) => EntryValue(host, payload, entry.1).Err?
  }

  /** The entry must have a value: it is required and has no default, or none that counts. */
  predicate NeedsValue(spec: MappingSpec) {
    match spec
    case WithOptions(path, required, _, _, default) => required && (path.None? || default.None?)
    case _ => true
  }

  function LeavesMissing(host: Host, payload: Payload): Entry -> bool {
    (entry: Entry) => EntryValue(host, payload, entry.1).Err? && NeedsValue(entry.1)
  }

  /** The value an entry gives its key: that of its path, or else its default. */
  function Given(host: Host, payload: Payload, spec: MappingSpec): Option<Json> {
    match EntryValue(host, payload, spec)
    case Ok(v) => Some(v)
    case Err(_) => if spec.WithOptions? && spec.path.Some? then spec.default else None
  }

  function KeysOf(entries: seq<Entry>): (keys: seq<string>)
    ensures |keys| == |entries| && forall i :: 0 <= i < |keys| ==> keys[i] == entries[i].0
  {
    seq(|entries|, i requires 0 <= i < |entries| => entries[i].0)
  }

  function ErrorOf(host: Host, payload: Payload, entry: Entry): (string, PathError)
    requires EntryValue(host, payload, entry.1).Err?
  {
    (entry.0, EntryValue(host, payload, entry.1).error)
  }

  /** The keys and codes of the entries that fail. */
  function ErrorsOf(host: Host, payload: Payload, entries: seq<Entry>): (errors: seq<(string, PathError)>)
    requires forall entry :: entry in entries ==> EntryValue(host, payload, entry.1).Err?
    ensures |errors| == |entries| && forall i :: 0 <= i < |errors| ==> errors[i] == ErrorOf(host, payload, entries[i])
  {
    seq(|entries|, i requires 0 <= i < |entries| => ErrorOf(host, payload, entries[i]))
  }

  function Failures(host: Host, payload: Payload, mapping: seq<Entry>): (entries: seq<Entry>)
    ensures forall entry :: entry in entries ==> EntryValue(host, payload, entry.1).Err?
  {
    Filter(Fails(host, payload), mapping)
  }

  type Offer = (string, Option<Json>)

  /** What each entry gives its key. */
  function Offers(host: Host, payload: Payload, mapping: seq<Entry>): (offers: seq<Offer>)
    ensures |offers| == |mapping|
    ensures forall i :: 0 <= i < |offers| ==> offers[i] == (mapping[i].0, Given(host, payload, mapping[i].1))
  {
    seq(|mapping|, i requires 0 <= i < |mapping| => (mapping[i].0, Given(host, payload, mapping[i].1)))
  }

  /** Offer `i` has a value and no later offer for its key does. */
  predicate IsLast(offers: seq<Offer>, i: nat)
    requires i < |offers|
  {
    && offers[i].1.Some?
    && forall k :: i < k < |offers| && offers[k].0 == offers[i].0 ==> offers[k].1.None?
  }

  predicate IsOffered(offers: seq<Offer>, key: string) {
    exists i :: 0 <= i < |offers| && offers[i].0 == key && offers[i].1.Some?
  }

  /** Exactly the keys with an offer have a value, each that of its last offer. */
  ghost predicate AreValues(values: map<string, Json>, offers: seq<Offer>) {
    && (forall key :: key in values ==> IsOffered(offers, key))
    && (forall i :: 0 <= i < |offers| && IsLast(offers, i) ==>
          offers[i].0 in values && values[offers[i].0] == offers[i].1.value)
  }

  lemma ValuesGrow(values: map<string, Json>, offers: seq<Offer>, last: Offer)
    requires AreValues(values, offers)
    ensures AreValues(if last.1.Some? then values[last.0 := last.1.value] else values, offers + [last])
  {
    var more := offers + [last];
    forall i | 0 <= i < |offers| && IsLast(more, i)
      ensures IsLast(offers, i) && (last.1.Some? ==> offers[i].0 != last.0)
    {
      assert more[|offers|] == last && more[i] == offers[i];
      forall k | i < k < |offers| && offers[k].0 == offers[i].0
        ensures offers[k].1.None?
      {
        assert more[k] == offers[k];
      }
    }
    forall key | key in (if last.1.Some? then values[last.0 := last.1.value] else values)
      ensures IsOffered(more, key)
    {
      if key in values {
        var i :| 0 <= i < |offers| && offers[i].0 == key && offers[i].1.Some?;
        assert more[i] == offers[i];
      } else {
        assert more[|offers|] == last;
      }
    }
  }

  lemma {:induction false} FilterLast<T(!new)>(p: T -> bool, s: seq<T>)
    requires s != []
    ensures Filter(p, s) == Filter(p, s[..|s| - 1]) + if p(s[|s| - 1]) then [s[|s| - 1]] else []
  {
    if |s| > 1 {
      FilterLast(p, s[1..]);
      assert s[1..][..|s| - 2] == s[..|s| - 1][1..];
    }
  }

  /** The missing keys are those of the entries that fail and must have a value, in order. */
  lemma {:induction false} MissingAre(host: Host, payload: Payload, mapping: seq<Entry>)
    ensures MapInput(host, payload, mapping).missing == KeysOf(Filter(LeavesMissing(host, payload), mapping))
  {
    if mapping != [] {
      MissingAre(host, payload, mapping[..|mapping| - 1]);
      FilterLast(LeavesMissing(host, payload), mapping);
    }
  }

  /** A key is missing exactly when some entry of it fails and must have a value. */
  lemma MissingIff(host: Host, payload: Payload, mapping: seq<Entry>, key: string)
    ensures key in MapInput(host, payload, mapping).missing <==>
            exists i :: 0 <= i < |mapping| && mapping[i].0 == key && EntryValue(host, payload, mapping[i].1).Err?
                        && NeedsValue(mapping[i].1)
  {
    MissingAre(host, payload, mapping);
    var left := Filter(LeavesMissing(host, payload), mapping);
    if key in KeysOf(left) {
      var i :| 0 <= i < |left| && left[i].0 == key;
      assert left[i] in mapping;
    }
    if i :| 0 <= i < |mapping| && mapping[i].0 == key && EntryValue(host, payload, mapping[i].1).Err?
            && NeedsValue(mapping[i].1) {
      assert mapping[i] in left;
      var k :| 0 <= k < |left| && left[k] == mapping[i];
      assert KeysOf(left)[k] == key;
    }
  }

  /** The errors are those of the failing entries, in order. */
  lemma {:induction false} ErrorsAre(host: Host, payload: Payload, mapping: seq<Entry>)
    ensures MapInput(host, payload, mapping).errors == ErrorsOf(host, payload, Failures(host, payload, mapping))
  {
    if mapping != [] {
      var init, last := mapping[..|mapping| - 1], mapping[|mapping| - 1];
      ErrorsAre(host, payload, init);
      FilterLast(Fails(host, payload), mapping);
      EntryErrors(host, payload, MapInput(host, payload, init), last);
      if EntryValue(host, payload, last.1).Err? {
        ErrorsLast(host, payload, Failures(host, payload, init), last);
      }
    }
  }

  lemma EntryErrors(host: Host, payload: Payload, soFar: ResolvedInput, entry: Entry)
    ensures AddEntry(host, payload, soFar, entry.0, entry.1).errors
            == soFar.errors + if EntryValue(host, payload, entry.1).Err? then [ErrorOf(host, payload, entry)] else []
  {
  }

  lemma ErrorsLast(host: Host, payload: Payload, entries: seq<Entry>, last: Entry)
    requires forall entry :: entry in entries ==> EntryValue(host, payload, entry.1).Err?
    requires EntryValue(host, payload, last.1).Err?
    ensures ErrorsOf(host, payload, entries + [last])
            == ErrorsOf(host, payload, entries) + [ErrorOf(host, payload, last)]
  {
  }

  /** Each key has the value of the last entry that gives it one, resolved or by default. */
  lemma {:induction false} ValuesAre(host: Host, payload: Payload, mapping: seq<Entry>)
    ensures AreValues(MapInput(host, payload, mapping).values, Offers(host, payload, mapping))
  {
    if mapping != [] {
      var init, last := mapping[..|mapping| - 1], mapping[|mapping| - 1];
      ValuesAre(host, payload, init);
      EntryOffers(host, payload, MapInput(host, payload, init), last);
      ValuesGrow(MapInput(host, payload, init).values, Offers(host, payload, init),
                 (last.0, Given(host, payload, last.1)));
      OffersLast(host, payload, mapping);
    }
  }

  lemma EntryOffers(host: Host, payload: Payload, soFar: ResolvedInput, entry: Entry)
    ensures var given := Given(host, payload, entry.1);
            AddEntry(host, payload, soFar, entry.0, entry.1).values
            == if given.Some? then soFar.values[entry.0 := given.value] else soFar.values
  {
  }

  lemma OffersLast(host: Host, payload: Payload, mapping: seq<Entry>)
    requires mapping != []
    ensures var init, last := mapping[..|mapping| - 1], mapping[|mapping| - 1];
            Offers(host, payload, mapping) == Offers(host, payload, init) + [(last.0, Given(host, payload, last.1))]
  {
  }

  /** Fill the evaluator input entry by entry. */
  method ResolveInputMapping(host: Host, payload: Payload, mapping: seq<Entry>)
    returns (resolved: ResolvedInput)
    ensures resolved == MapInput(host, payload, mapping)
    ensures resolved.missing == KeysOf(Filter(LeavesMissing(host, payload), mapping))
    ensures resolved.errors == ErrorsOf(host, payload, Failures(host, payload, mapping))
    ensures AreValues(resolved.values, Offers(host, payload, mapping))
  {
    var values: map<string, Json> := map[];
    var errors: seq<(string, PathError)> := [];
    var missing: seq<string> := [];
    for i := 0 to |mapping|
      invariant ResolvedInput(values, errors, missing) == MapInput(host, payload, mapping[..i])
    {
      assert mapping[..i + 1][..i] == mapping[..i];
      var (key, spec) := mapping[i];
      var required, nullable := true, false;
      var kind: Option<string> := None;
      var default: Option<Json> := None;
      var path: Option<seq<string>> := None;
      match spec {
        case PathOnly(tokens) =>
          path := Some(tokens);
        case WithOptions(p, r, k, n, d) =>
          path, required, kind, nullable, default := p, r, k, n, d;
        case NotAMapping =>
      }
      if path.None? {
        errors := errors + [(key, UnsupportedMapping)];
        if required {
          missing := missing + [key];
        }
      } else {
        var found := Resolve(host, payload, path.value);
        var code: Option<PathError> := if found.Err? then Some(found.error) else None;
        if code.None? && found.value == Null && !nullable {
          code := Some(NullValue);
        }
        if code.None? && kind.Some? && kind.value != "" && !CheckType(found.value, kind.value) {
          code := Some(InvalidType);
        }
        if code.None? {
          values := values[key := found.value];
        } else {
          errors := errors + [(key, code.value)];
          if default.Some? {
            values := values[key := default.value];
          } else if required {
            missing := missing + [key];
          }
        }
      }
    }
    assert mapping[..|mapping|] == mapping;
    resolved := ResolvedInput(values, errors, missing);
    MissingAre(host, payload, mapping);
    ErrorsAre(host, payload, mapping);
    ValuesAre(host, payload, mapping);
  }

  // ---------------------------------------------------------------- applies_when

  /** Every identity a span of the payload carries. */
  predicate Available(host: Host, payload: Payload, name: string) {
    exists span :: span in Extract(host, payload) && HasIdentity(host, span, name)
  }

  /** The guard of a check: each path has its expected value, and each required span is there. */
  predicate Applies(host: Host, payload: Payload, equals: seq<(seq<string>, Json)>, requiredSpans: seq<string>) {
    && (forall i :: 0 <= i < |equals| ==> Resolve(host, payload, equals[i].0) == Ok(equals[i].1))
    && (forall i :: 0 <= i < |requiredSpans| ==> Available(host, payload, requiredSpans[i]))
  }

  /** Some span has a value at one of the identity keys that prints as the name. */
  ghost predicate IsListed(host: Host, spans: seq<Span>, name: string) {
    exists i :: 0 <= i < |spans| && IsPrinted(host, spans[i], name, |IDENTITY_KEYS|)
  }

  /** The span has such a value at one of the first `n` identity keys. */
  predicate IsPrinted(host: Host, span: Span, name: string, n: nat)
    requires n <= |IDENTITY_KEYS|
  {
    exists k :: 0 <= k < n && Truthy(Get(span, IDENTITY_KEYS[k])) && Text(host, Get(span, IDENTITY_KEYS[k])) == name
  }

  lemma PrintedIsIdentity(host: Host, span: Span, name: string)
    requires Faithful(host)
    ensures IsPrinted(host, span, name, |IDENTITY_KEYS|) <==> HasIdentity(host, span, name)
  {
    assert IDENTITY_KEYS[0] == "name" && IDENTITY_KEYS[1] == "agent_id";
    assert IDENTITY_KEYS[2] == "agent_type" && IDENTITY_KEYS[3] == "span_id";
    if HasIdentity(host, span, name) {
      var k := if HasKeyIdentity(host, span, "name", name) then 0
               else if HasKeyIdentity(host, span, "agent_id", name) then 1
               else if HasKeyIdentity(host, span, "agent_type", name) then 2 else 3;
      assert Truthy(Get(span, IDENTITY_KEYS[k])) && Text(host, Get(span, IDENTITY_KEYS[k])) == name;
    }
  }

  lemma ListedIsAvailable(host: Host, payload: Payload, name: string)
    requires Faithful(host)
    ensures IsListed(host, Extract(host, payload), name) <==> Available(host, payload, name)
  {
    var spans := Extract(host, payload);
    if span :| span in spans && HasIdentity(host, span, name) {
      var i :| 0 <= i < |spans| && spans[i] == span;
      PrintedIsIdentity(host, spans[i], name);
    }
    if i :| 0 <= i < |spans| && IsPrinted(host, spans[i], name, |IDENTITY_KEYS|) {
      PrintedIsIdentity(host, spans[i], name);
      assert spans[i] in spans;
    }
  }

  /** Check the comparisons in order, collect the identities of all spans, and look for every required one. */
  method CheckGuard(host: Host, payload: Payload, equals: seq<(seq<string>, Json)>, requiredSpans: seq<string>)
    returns (applies: bool)
    requires Faithful(host)
    ensures applies <==> (forall i :: 0 <= i < |equals| ==> Resolve(host, payload, equals[i].0) == Ok(equals[i].1))
                         && forall r :: r in requiredSpans ==> IsListed(host, Extract(host, payload), r)
    ensures applies == Applies(host, payload, equals, requiredSpans)
  {
    for i := 0 to |equals|
      invariant forall k :: 0 <= k < i ==> Resolve(host, payload, equals[k].0) == Ok(equals[k].1)
    {
      var found := Resolve(host, payload, equals[i].0);
      if found.Err? || found.value != equals[i].1 {
        return false;
      }
    }
    var spans := Extract(host, payload);
    var available := IdentitiesOf(host, spans);
    var missing: seq<string> := [];
    for i := 0 to |requiredSpans|
      invariant missing == [] <==> forall k :: 0 <= k < i ==> requiredSpans[k] in available
    {
      if requiredSpans[i] !in available {
        missing := missing + [requiredSpans[i]];
      }
    }
    applies := missing == [];
    forall r
      ensures r in available <==> Available(host, payload, r)
    {
      ListedIsAvailable(host, payload, r);
    }
  }

  method IdentitiesOf(host: Host, spans: seq<Span>) returns (available: set<string>)
    ensures forall name :: name in available <==> IsListed(host, spans, name)
  {
    available := {};
    for i := 0 to |spans|
      invariant forall name :: name in available <==> IsListed(host, spans[..i], name)
    {
      ghost var before := available;
      assert spans[..i + 1][..i] == spans[..i];
      for k := 0 to |IDENTITY_KEYS|
        invariant forall name :: name in available <==> name in before || IsPrinted(host, spans[i], name, k)
      {
        if Truthy(Get(spans[i], IDENTITY_KEYS[k])) {
          available := available + {Text(host, Get(spans[i], IDENTITY_KEYS[k]))};
        }
      }
      ListedExtends(host, spans, i);
    }
    assert spans[..|spans|] == spans;
  }

  lemma ListedExtends(host: Host, spans: seq<Span>, i: nat)
    requires i < |spans|
    ensures forall name :: IsListed(host, spans[..i + 1], name) <==>
              IsListed(host, spans[..i], name) || IsPrinted(host, spans[i], name, |IDENTITY_KEYS|)
  {
    var longer, shorter := spans[..i + 1], spans[..i];
    assert longer[i] == spans[i];
    forall name | IsListed(host, shorter, name)
      ensures IsListed(host, longer, name)
    {
      var k :| 0 <= k < |shorter| && IsPrinted(host, shorter[k], name, |IDENTITY_KEYS|);
      assert longer[k] == shorter[k];
    }
    forall name | IsListed(host, longer, name) && !IsPrinted(host, spans[i], name, |IDENTITY_KEYS|)
      ensures IsListed(host, shorter, name)
    {
      var k :| 0 <= k < |longer| && IsPrinted(host, longer[k], name, |IDENTITY_KEYS|);
      assert k < i && longer[k] == shorter[k];
    }
  }

  /** One comparison more keeps the answer exactly when its path has the expected value. */
  lemma ComparisonDecides(host: Host, payload: Payload, equals: seq<(seq<string>, Json)>, path: seq<string>,
                          expected: Json, requiredSpans: seq<string>)
    ensures Applies(host, payload, equals + [(path, expected)], requiredSpans) <==>
            Applies(host, payload, equals, requiredSpans) && Resolve(host, payload, path) == Ok(expected)
  {
    var more := equals + [(path, expected)];
    assert more[|equals|] == (path, expected);
    if Applies(host, payload, more, requiredSpans) {
      forall i | 0 <= i < |equals|
        ensures Resolve(host, payload, equals[i].0) == Ok(equals[i].1)
      {
        assert more[i] == equals[i];
      }
    }
  }
}

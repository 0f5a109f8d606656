/** What walking a path means, step by step, and where a path starts in the document. */
module PathLaws {
  import opened Options
  import opened Json
  import opened Paths
  import opened Spans
  import opened Resolver

  // ---------------------------------------------------------------- steps

  function IsObject(): Json -> bool {
    (v: Json) => v.Obj?
  }

  /** The key of every object in the list, null where it is absent, and nothing for other items. */
  predicate ListsKey(items: seq<Json>, key: string, values: seq<Json>) {
    var objects := Filter(IsObject(), items);
    && |values| == |objects|
    && forall i :: 0 <= i < |values| ==>
         objects[i].Obj? && values[i] == (if key in objects[i].fields then objects[i].fields[key] else Null)
  }

  lemma {:induction false} PluckListsKey(items: seq<Json>, key: string)
    ensures ListsKey(items, key, Pluck(items, key))
  {
    if items != [] {
      PluckListsKey(items[1..], key);
    }
  }

  lemma SameKeyLists(items: seq<Json>, key: string, a: seq<Json>, b: seq<Json>)
    requires ListsKey(items, key, a) && ListsKey(items, key, b)
    ensures a == b
  {
  }

  /**
   One token leads from a value to the next: from an object to the field, from a list by position to the item, and by
   a key to the list of that key over its objects, unless it has none.
   */
  predicate LeadsTo(v: Json, token: string, next: Json) {
    match v
    case Obj(fields) => token in fields && fields[token] == next
    case Arr(items) =>
      if IsDigits(token) then exists i :: 0 <= i < |items| && i == ParseIndex(token) && items[i] == next
      else next.Arr? && next.items != [] && ListsKey(items, token, next.items)
    case _ => false
  }

  lemma StepLeads(v: Json, token: string)
    ensures Step(v, token) == Err(MissingPath) || Step(v, token).Ok?
    ensures forall next :: LeadsTo(v, token, next) <==> Step(v, token) == Ok(next)
  {
    if v.Arr? && !IsDigits(token) {
      PluckListsKey(v.items, token);
      forall next
        ensures LeadsTo(v, token, next) <==> Step(v, token) == Ok(next)
      {
        if LeadsTo(v, token, next) {
          SameKeyLists(v.items, token, next.items, Pluck(v.items, token));
        }
      }
    }
  }

  /** Values along the path, from the first to the last, each led to from the one before. */
  predicate IsTrail(tokens: seq<string>, trail: seq<Json>) {
    && |trail| == |tokens| + 1
    && forall i :: 0 <= i < |tokens| ==> LeadsTo(trail[i], tokens[i], trail[i + 1])
  }

  predicate IsTrailTo(v: Json, tokens: seq<string>, trail: seq<Json>, end: Json) {
    IsTrail(tokens, trail) && trail[0] == v && trail[|tokens|] == end
  }

  /** Without wildcards a path gives a value exactly when a trail leads there, and otherwise a missing path. */
  lemma {:induction false} WalkFollowsTrail(v: Json, tokens: seq<string>, end: Json)
    requires "*" !in tokens
    ensures Denote(v, tokens) == Ok(end) <==> exists trail :: IsTrailTo(v, tokens, trail, end)
    ensures Denote(v, tokens).Ok? || Denote(v, tokens) == Err(MissingPath)
    decreases |tokens|
  {
    StepLeads(v, if tokens == [] then "" else tokens[0]);
    if tokens == [] {
      assert v == end ==> IsTrailTo(v, tokens, [v], end);
    } else {
      assert tokens[0] in tokens;
      if Step(v, tokens[0]).Ok? {
        WalkFollowsTrail(Step(v, tokens[0]).value, tokens[1..], end);
      }
      if Denote(v, tokens) == Ok(end) {
        var next := Step(v, tokens[0]).value;
        var rest :| IsTrailTo(next, tokens[1..], rest, end);
        assert LeadsTo(v, tokens[0], next);
        LongerTrail(v, tokens, rest, end);
      }
      if trail :| IsTrailTo(v, tokens, trail, end) {
        assert LeadsTo(trail[0], tokens[0], trail[1]);
        ShorterTrail(v, tokens, trail, end);
      }
    }
  }

  lemma LongerTrail(v: Json, tokens: seq<string>, rest: seq<Json>, end: Json)
    requires tokens != [] && |rest| == |tokens| && LeadsTo(v, tokens[0], rest[0])
    requires IsTrailTo(rest[0], tokens[1..], rest, end)
    ensures IsTrailTo(v, tokens, [v] + rest, end)
  {
    var trail := [v] + rest;
    forall i | 0 <= i < |tokens|
      ensures LeadsTo(trail[i], tokens[i], trail[i + 1])
    {
      assert i > 0 ==> tokens[1..][i - 1] == tokens[i];
    }
  }

  lemma ShorterTrail(v: Json, tokens: seq<string>, trail: seq<Json>, end: Json)
    requires tokens != [] && IsTrailTo(v, tokens, trail, end)
    ensures IsTrailTo(trail[1], tokens[1..], trail[1..], end)
  {
    forall i | 0 <= i < |tokens| - 1
      ensures LeadsTo(trail[1..][i], tokens[1..][i], trail[1..][i + 1])
    {
      assert tokens[1..][i] == tokens[i + 1] && trail[1..][i] == trail[i + 1] && trail[1..][i + 1] == trail[i + 2];
    }
  }

  // ---------------------------------------------------------------- wildcards

  function Resolves(tokens: seq<string>): Json -> bool {
    (v: Json) => Denote(v, tokens).Ok?
  }

  /** A wildcard takes the items that resolve further on, in order, with their values. */
  lemma {:induction false} CollectsWhatResolves(items: seq<Json>, tokens: seq<string>)
    ensures var kept := Filter(Resolves(tokens), items);
            && |Collect(items, tokens)| == |kept|
            && forall i :: 0 <= i < |kept| ==> Denote(kept[i], tokens) == Ok(Collect(items, tokens)[i])
    decreases |items|
  {
    if items != [] {
      CollectsWhatResolves(items[1..], tokens);
    }
  }

  /** A wildcard needs a list; at the end of a path it gives the list, else what resolves, and fails if nothing does. */
  lemma WildcardGives(v: Json, rest: seq<string>)
    ensures !v.Arr? ==> Denote(v, ["*"] + rest) == Err(InvalidType)
    ensures v.Arr? && rest == [] ==> Denote(v, ["*"] + rest) == Ok(v)
    ensures v.Arr? && rest != [] && (v.items == [] || Filter(Resolves(rest), v.items) != []) ==>
              Denote(v, ["*"] + rest) == Ok(Arr(Collect(v.items, rest)))
    ensures v.Arr? && rest != [] && v.items != [] && Filter(Resolves(rest), v.items) == [] ==>
              Denote(v, ["*"] + rest) == Err(MissingPath)
  {
    assert (["*"] + rest)[1..] == rest;
    if v.Arr? {
      CollectsWhatResolves(v.items, rest);
    }
  }

  // ---------------------------------------------------------------- positions

  /** A number in decimal digits. */
  function Decimal(n: nat): (s: string)
    ensures s != "" && forall i :: 0 <= i < |s| ==> '0' <= s[i] <= '9'
  {
    if n < 10 then [('0' as int + n) as char] else Decimal(n / 10) + [('0' as int + n % 10) as char]
  }

  /** Reading the digits of a number gives the number. */
  lemma {:induction false} DigitsReadBack(n: nat)
    ensures IsDigits(Decimal(n)) && ParseIndex(Decimal(n)) == n
  {
    if n >= 10 {
      DigitsReadBack(n / 10);
      var s := Decimal(n);
      assert s[..|s| - 1] == Decimal(n / 10);
    }
  }

  // ---------------------------------------------------------------- where a path starts

  /** A section is walked from its value, and a null or absent one is a missing path. */
  lemma SectionResolves(host: Host, payload: Payload, section: string, rest: seq<string>)
    requires section == "agent_registry" || section == "payload_metadata" || section == "correlation"
             || section == "trace_context"
    ensures Resolve(host, payload, [section] + rest)
            == if section in payload && payload[section] != Null then Denote(payload[section], rest)
               else Err(MissingPath)
  {
    assert ([section] + rest)[1..] == rest;
  }

  /** `payload` is the document itself, and `spans` alone the ordered list of spans. */
  lemma RootsResolve(host: Host, payload: Payload, rest: seq<string>)
    ensures Resolve(host, payload, ["payload"] + rest) == Denote(Obj(payload), rest)
    ensures Resolve(host, payload, ["spans"]) == Ok(Arr(AsItems(Extract(host, payload))))
    ensures Resolve(host, payload, []) == Err(UnsupportedMapping)
  {
    assert (["payload"] + rest)[1..] == rest && ["spans"][1..] == [];
  }
}

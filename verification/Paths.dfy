/** Walking a token list through a document, as a recursive meaning and as the loop that computes it. */
module Paths {
  import opened Options
  import opened Json

  datatype PathError = MissingSpan | MissingPath | NullValue | InvalidType | UnsupportedMapping | AmbiguousSpan

  type Resolved = Outcome<Json, PathError>

  /** `key` of every object in the list; other items are passed over. */
  function Pluck(items: seq<Json>, key: string): seq<Json> {
    if items == [] then []
    else if items[0].Obj? then [Get(items[0].fields, key)] + Pluck(items[1..], key)
    else Pluck(items[1..], key)
  }

  /** One token that is not a wildcard. */
  function Step(v: Json, token: string): Resolved {
    match v
    case Arr(items) =>
      if IsDigits(token) then
        if ParseIndex(token) < |items| then Ok(items[ParseIndex(token)]) else Err(MissingPath)
      else
        var plucked := Pluck(items, token);
        if plucked == [] then Err(MissingPath) else Ok(Arr(plucked))
    case Obj(fields) => if token in fields then Ok(fields[token]) else Err(MissingPath)
    case _ => Err(MissingPath)
  }

  /** The meaning of a token list: step by step, and below a wildcard once per item, keeping the successes. */
  function Denote(v: Json, tokens: seq<string>): Resolved
    decreases |tokens|, 0
  {
    if tokens == [] then Ok(v)
    else if tokens[0] == "*" then
      if !v.Arr? then Err(InvalidType)
      else if |tokens| == 1 then Ok(v)
      else
        var mapped := Collect(v.items, tokens[1..]);
        if mapped == [] && v.items != [] then Err(MissingPath) else Ok(Arr(mapped))
    else
      match Step(v, tokens[0])
      case Err(e) => Err(e)
      case Ok(next) => Denote(next, tokens[1..])
  }

  /** The values of the items that resolve, in order. */
  function Collect(items: seq<Json>, tokens: seq<string>): seq<Json>
    decreases |tokens|, 1, |items|
  {
    if items == [] then []
    else
      match Denote(items[0], tokens)
      case Ok(value) => [value] + Collect(items[1..], tokens)
      case Err(_) => Collect(items[1..], tokens)
  }

  lemma {:induction false} CollectAppend(a: seq<Json>, b: seq<Json>, tokens: seq<string>)
    ensures Collect(a + b, tokens) == Collect(a, tokens) + Collect(b, tokens)
    decreases |a|
  {
    if a == [] {
      assert a + b == b;
    } else {
      assert (a + b)[1..] == a[1..] + b;
      CollectAppend(a[1..], b, tokens);
    }
  }

  lemma {:induction false} PluckAppend(a: seq<Json>, b: seq<Json>, key: string)
    ensures Pluck(a + b, key) == Pluck(a, key) + Pluck(b, key)
    decreases |a|
  {
    if a == [] {
      assert a + b == b;
    } else {
      assert (a + b)[1..] == a[1..] + b;
      PluckAppend(a[1..], b, key);
    }
  }

  /** The walk itself: a loop over the tokens that calls itself once per item below a wildcard. */
  method Traverse(value: Json, tokens: seq<string>) returns (r: Resolved)
    ensures r == Denote(value, tokens)
    decreases |tokens|
  {
    var current := value;
    var index := 0;
    while index < |tokens|
      invariant 0 <= index <= |tokens|
      invariant Denote(value, tokens) == Denote(current, tokens[index..])
    {
      var token := tokens[index];
      assert tokens[index..][0] == token && tokens[index..][1..] == tokens[index + 1..];
      if token == "*" {
        if !current.Arr? {
          return Err(InvalidType);
        }
        var remaining := tokens[index + 1..];
        if remaining == [] {
          return Ok(current);
        }
        var items := current.items;
        var mapped: seq<Json> := [];
        for i := 0 to |items|
          invariant mapped == Collect(items[..i], remaining)
        {
          var item := Traverse(items[i], remaining);
          assert items[..i + 1] == items[..i] + [items[i]];
          CollectAppend(items[..i], [items[i]], remaining);
          if item.Ok? {
            mapped := mapped + [item.value];
          }
        }
        assert items[..|items|] == items;
        if mapped == [] && items != [] {
          return Err(MissingPath);
        }
        return Ok(Arr(mapped));
      }
      match current {
        case Arr(items) =>
          if IsDigits(token) {
            var listIndex := ParseIndex(token);
            if listIndex >= |items| {
              return Err(MissingPath);
            }
            current := items[listIndex];
          } else {
            var mapped: seq<Json> := [];
            for i := 0 to |items|
              invariant mapped == Pluck(items[..i], token)
            {
              assert items[..i + 1] == items[..i] + [items[i]];
              PluckAppend(items[..i], [items[i]], token);
              if items[i].Obj? {
                mapped := mapped + [Get(items[i].fields, token)];
              }
            }
            assert items[..|items|] == items;
            if mapped == [] {
              return Err(MissingPath);
            }
            current := Arr(mapped);
          }
        case Obj(fields) =>
          if token !in fields {
            return Err(MissingPath);
          }
          current := fields[token];
        case _ =>
          return Err(MissingPath);
      }
      index := index + 1;
    }
    return Ok(current);
  }

  // ---------------------------------------------------------------- laws

  function Then(r: Resolved, tokens: seq<string>): Resolved {
    match r
    case Ok(v) => Denote(v, tokens)
    case Err(e) => Err(e)
  }

  /** A prefix without wildcards may be walked first and the rest from where it arrives. */
  lemma {:induction false} WalkComposes(v: Json, prefix: seq<string>, rest: seq<string>)
    requires "*" !in prefix
    ensures Denote(v, prefix + rest) == Then(Denote(v, prefix), rest)
    decreases |prefix|
  {
    if prefix == [] {
      assert prefix + rest == rest;
    } else {
      assert (prefix + rest)[0] == prefix[0] && (prefix + rest)[1..] == prefix[1..] + rest;
      assert prefix[0] in prefix;
      if Step(v, prefix[0]).Ok? {
        WalkComposes(Step(v, prefix[0]).value, prefix[1..], rest);
      }
    }
  }

  // ---------------------------------------------------------------- where walking in two parts fails

  /** Walking `prefix` and then `rest` agrees with walking both at once, on every document. */
  ghost predicate ComposesEverywhere(prefix: seq<string>, rest: seq<string>) {
    forall v :: Denote(v, prefix + rest) == Then(Denote(v, prefix), rest)
  }

  function Stars(n: nat): (stars: seq<string>)
    ensures |stars| == n && forall i :: 0 <= i < n ==> stars[i] == "*"
  {
    seq(n, _ => "*")
  }

  lemma WildcardOverOne(v: Json, rest: seq<string>)
    requires rest != []
    ensures Denote(Arr([v]), ["*"] + rest)
            == (match Denote(v, rest) case Ok(x) => Ok(Arr([x])) case Err(_) => Err(MissingPath))
  {
    assert (["*"] + rest)[1..] == rest && [v][1..] == [];
    assert Collect([], rest) == [];
    match Denote(v, rest) {
      case Ok(x) => assert Collect([v], rest) == [x];
      case Err(_) => assert Collect([v], rest) == [];
    }
  }

  lemma WildcardOverNone(rest: seq<string>)
    ensures Denote(Arr([]), ["*"] + rest) == Ok(Arr([]))
  {
    assert (["*"] + rest)[1..] == rest;
  }

  lemma NothingInNone(rest: seq<string>)
    requires rest != [] && rest[0] != "*"
    ensures Denote(Arr([]), rest).Err?
  {
  }

  /** A document on which more wildcards before `rest` turn success into failure or failure into success. */
  function Deep(rest: seq<string>): Json {
    if rest == [] then Int(0) else if rest[0] == "*" then Arr([Deep(rest[1..])]) else Arr([])
  }

  lemma {:induction false} DeepDiverges(n: nat, rest: seq<string>)
    requires n > 0
    ensures Denote(Deep(rest), Stars(n) + rest).Ok? != Denote(Deep(rest), rest).Ok?
    decreases |rest|
  {
    var more := Stars(n - 1) + rest;
    assert Stars(n) + rest == ["*"] + more;
    if rest == [] {
    } else if rest[0] == "*" {
      assert rest == ["*"] + rest[1..];
      assert more == Stars(n) + rest[1..] by {
        assert Stars(n - 1) + ["*"] == Stars(n);
        assert Stars(n - 1) + rest == Stars(n - 1) + ["*"] + rest[1..];
      }
      DeepDiverges(n, rest[1..]);
      WildcardOverOne(Deep(rest[1..]), more);
      if rest[1..] != [] {
        WildcardOverOne(Deep(rest[1..]), rest[1..]);
      }
    } else {
      WildcardOverNone(more);
      NothingInNone(rest);
    }
  }

  /** What is left of `rest` after its leading wildcards were matched with those of the walked prefix. */
  function Matched(rest: seq<string>): seq<string> {
    if rest == [] then [] else rest[1..]
  }

  /** A document whose prefix resolves, built along the prefix. */
  function Splitter(prefix: seq<string>, left: seq<string>): Json {
    if prefix == [] then Deep(left)
    else if prefix[0] != "*" then Obj(map[prefix[0] := Splitter(prefix[1..], left)])
    else if left == [] || left[0] == "*" then Arr([Splitter(prefix[1..], Matched(left))])
    else Arr([])
  }

  lemma StepIntoOne(key: string, v: Json, rest: seq<string>)
    requires key != "*"
    ensures Denote(Obj(map[key := v]), [key] + rest) == Denote(v, rest)
  {
    assert ([key] + rest)[1..] == rest;
  }

  lemma WildcardStep(v: Json, prefix: seq<string>)
    requires Denote(v, prefix).Ok?
    ensures Denote(Arr([v]), ["*"] + prefix) == Ok(Arr([Denote(v, prefix).value]))
  {
    if prefix == [] {
      assert ["*"] + prefix == ["*"];
    } else {
      WildcardOverOne(v, prefix);
    }
  }

  /** Walking on through one wildcard of `left` succeeds exactly when the item does on what follows. */
  lemma MatchOne(x: Json, left: seq<string>)
    requires left == [] || left[0] == "*"
    ensures left != [] ==> (Denote(Arr([x]), left).Ok? <==> Denote(x, left[1..]).Ok?)
    ensures left == [] ==> Denote(Arr([x]), left).Ok? && Denote(x, left).Ok?
  {
    if left != [] {
      assert left == ["*"] + left[1..];
      if left[1..] != [] {
        WildcardOverOne(x, left[1..]);
      } else {
        assert left == ["*"];
      }
    }
  }

  /** The prefix resolves, and then exactly one of the two ways to go on succeeds. */
  lemma {:induction false} SplitterDiverges(prefix: seq<string>, all: seq<string>, left: seq<string>, n: nat)
    requires all != [] && all == Stars(n) + left && (n > 0 || "*" in prefix)
    ensures var v := Splitter(prefix, left);
            Denote(v, prefix).Ok? && Denote(v, prefix + all).Ok? != Denote(Denote(v, prefix).value, left).Ok?
    decreases |prefix|, 0
  {
    var v := Splitter(prefix, left);
    if prefix == [] {
      assert prefix + all == all;
      DeepDiverges(n, left);
    } else {
      var tail := prefix[1..];
      assert prefix == [prefix[0]] + tail && prefix + all == [prefix[0]] + (tail + all);
      if prefix[0] != "*" {
        var inner := Splitter(tail, left);
        assert "*" in prefix ==> "*" in tail;
        SplitterDiverges(tail, all, left, n);
        StepIntoOne(prefix[0], inner, tail);
        StepIntoOne(prefix[0], inner, tail + all);
      } else if left == [] || left[0] == "*" {
        SplitterAtWildcard(tail, all, left, n);
      } else {
        WildcardOverNone(tail);
        WildcardOverNone(tail + all);
        NothingInNone(left);
      }
    }
  }

  lemma {:induction false} SplitterAtWildcard(tail: seq<string>, all: seq<string>, left: seq<string>, n: nat)
    requires all != [] && all == Stars(n) + left && (left == [] || left[0] == "*")
    ensures var v := Arr([Splitter(tail, Matched(left))]);
            && Denote(v, ["*"] + tail).Ok?
            && Denote(v, ["*"] + (tail + all)).Ok? != Denote(Denote(v, ["*"] + tail).value, left).Ok?
    decreases |tail|, 1
  {
    var inner := Splitter(tail, Matched(left));
    var m := if left == [] then n else n + 1;
    assert all == Stars(m) + Matched(left) by {
      if left != [] {
        assert Stars(n) + ["*"] == Stars(n + 1) && left == ["*"] + left[1..];
        assert Stars(n) + left == Stars(n) + ["*"] + left[1..];
      }
    }
    SplitterDiverges(tail, all, Matched(left), m);
    WildcardStep(inner, tail);
    WildcardOverOne(inner, tail + all);
    MatchOne(Denote(inner, tail).value, left);
  }

  /** Walking in two parts is safe exactly when the first part has no wildcard or the second is empty. */
  lemma ComposesExactlyWhen(prefix: seq<string>, rest: seq<string>)
    ensures ComposesEverywhere(prefix, rest) <==> "*" !in prefix || rest == []
  {
    if "*" in prefix && rest != [] {
      assert rest == Stars(0) + rest;
      SplitterDiverges(prefix, rest, rest, 0);
      var v := Splitter(prefix, rest);
      assert Denote(v, prefix + rest) != Then(Denote(v, prefix), rest);
    } else {
      forall v
        ensures Denote(v, prefix + rest) == Then(Denote(v, prefix), rest)
      {
        if rest == [] {
          assert prefix + rest == prefix;
        } else {
          WalkComposes(v, prefix, rest);
        }
      }
    }
  }

  lemma {:induction false} CollectNothing(items: seq<Json>, tokens: seq<string>)
    ensures Collect(items, tokens) == [] <==> forall i :: 0 <= i < |items| ==> Denote(items[i], tokens).Err?
    decreases |items|
  {
    if items != [] {
      CollectNothing(items[1..], tokens);
      assert forall i :: 1 <= i < |items| ==> items[i] == items[1..][i - 1];
    }
  }

  /** A wildcard over a list fails only when there is a rest to walk, the list has items, and all of them fail. */
  lemma WildcardFailsIff(items: seq<Json>, rest: seq<string>)
    ensures Denote(Arr(items), ["*"] + rest).Err? <==>
            rest != [] && items != [] && forall i :: 0 <= i < |items| ==> Denote(items[i], rest).Err?
  {
    assert (["*"] + rest)[1..] == rest;
    CollectNothing(items, rest);
  }

  /** When every item resolves, a wildcard gives one value per item, in order. */
  lemma {:induction false} CollectAll(items: seq<Json>, tokens: seq<string>)
    requires forall i :: 0 <= i < |items| ==> Denote(items[i], tokens).Ok?
    ensures |Collect(items, tokens)| == |items|
    ensures forall i :: 0 <= i < |items| ==> Ok(Collect(items, tokens)[i]) == Denote(items[i], tokens)
    decreases |items|
  {
    if items != [] {
      assert forall i :: 0 <= i < |items| - 1 ==> items[1..][i] == items[i + 1];
      CollectAll(items[1..], tokens);
    }
  }

  /** A key over a list of objects gives that key of each of them, null where it is absent. */
  lemma {:induction false} KeyOverObjects(objects: seq<map<string, Json>>, key: string)
    ensures |Pluck(AsItems(objects), key)| == |objects|
    ensures forall i :: 0 <= i < |objects| ==> Pluck(AsItems(objects), key)[i] == Get(objects[i], key)
    decreases |objects|
  {
    if objects != [] {
      KeyOverObjects(objects[1..], key);
      assert AsItems(objects)[1..] == AsItems(objects[1..]);
    }
  }

  function AsItems(objects: seq<map<string, Json>>): (items: seq<Json>)
    ensures |items| == |objects|
    ensures forall i :: 0 <= i < |objects| ==> items[i] == Obj(objects[i])
  {
    if objects == [] then [] else [Obj(objects[0])] + AsItems(objects[1..])
  }
}

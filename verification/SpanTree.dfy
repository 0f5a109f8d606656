/** Validation of the parent links of a trace: the loops that check them, and what they accept. */
module SpanTree {
  import opened Options
  import Json

  /** One span: whether its id and its other fields have the right form, its raw id, and its raw parent id. */
  datatype Row = Row(idOk: bool, fieldsOk: bool, id: string, parent: Option<string>)

  datatype TreeError = BadField | DuplicateId | NoRoot | ParentCycle | UnknownParent

  type Index = map<string, Row>

  function Key(r: Row): string {
    Json.Strip(r.id)
  }

  function IndexOf(spans: seq<Row>): Index {
    if spans == [] then map[]
    else IndexOf(spans[..|spans| - 1])[Key(spans[|spans| - 1]) := spans[|spans| - 1]]
  }

  predicate UniqueIds(spans: seq<Row>) {
    forall i, k :: 0 <= i < k < |spans| ==> Key(spans[i]) != Key(spans[k])
  }

  predicate FormsOk(spans: seq<Row>) {
    forall i :: 0 <= i < |spans| ==> spans[i].idOk && spans[i].fieldsOk
  }

  /** Following parents from `r` meets a span without a parent after exactly `n` links. */
  predicate RootAt(byId: Index, r: Row, n: nat)
    decreases n
  {
    if r.parent.None? then n == 0
    else n > 0 && r.parent.value in byId && RootAt(byId, byId[r.parent.value], n - 1)
  }

  ghost predicate Rooted(byId: Index, r: Row) {
    exists n: nat :: RootAt(byId, r, n)
  }

  ghost predicate Forest(spans: seq<Row>) {
    forall r :: r in spans ==> Rooted(IndexOf(spans), r)
  }

  ghost predicate Accepted(spans: seq<Row>) {
    FormsOk(spans) && UniqueIds(spans) && Forest(spans)
  }

  // ---------------------------------------------------------------- the index

  /** The index holds every span under its stripped id, and nothing else. */
  ghost predicate Indexes(byId: Index, spans: seq<Row>) {
    && (forall k :: k in byId ==> byId[k] in spans && Key(byId[k]) == k)
    && (forall r :: r in spans ==> Key(r) in byId && byId[Key(r)] == r)
  }

  lemma IndexExtends(byId: Index, init: seq<Row>, last: Row)
    requires Indexes(byId, init) && Key(last) !in byId
    ensures Indexes(byId[Key(last) := last], init + [last])
    ensures |byId[Key(last) := last]| == |byId| + 1
  {
    assert byId[Key(last) := last].Keys == byId.Keys + {Key(last)};
  }

  lemma LastIsNew(byId: Index, init: seq<Row>, last: Row)
    requires Indexes(byId, init) && UniqueIds(init + [last])
    ensures Key(last) !in byId
  {
    forall k | k in byId
      ensures k != Key(last)
    {
      var i :| 0 <= i < |init| && init[i] == byId[k];
      assert Key((init + [last])[i]) != Key((init + [last])[|init|]);
    }
  }

  lemma {:induction false} IndexHolds(spans: seq<Row>)
    requires UniqueIds(spans)
    ensures Indexes(IndexOf(spans), spans) && |IndexOf(spans)| == |spans|
  {
    if spans != [] {
      var init, last := spans[..|spans| - 1], spans[|spans| - 1];
      assert spans == init + [last];
      IndexHolds(init);
      LastIsNew(IndexOf(init), init, last);
      IndexExtends(IndexOf(init), init, last);
    }
  }

  lemma KeysAreStripped(spans: seq<Row>, key: string)
    requires UniqueIds(spans) && key in IndexOf(spans)
    ensures Json.Strip(key) == key
  {
    IndexHolds(spans);
    Json.StripTwice(IndexOf(spans)[key].id);
  }

  lemma {:induction false} DepthIsUnique(byId: Index, r: Row, a: nat, b: nat)
    requires RootAt(byId, r, a) && RootAt(byId, r, b)
    ensures a == b
    decreases a
  {
    if r.parent.Some? {
      DepthIsUnique(byId, byId[r.parent.value], a - 1, b - 1);
    }
  }

  /** A span that names its own raw id as its parent never reaches a root. */
  lemma SelfParentIsRootless(spans: seq<Row>, r: Row)
    requires UniqueIds(spans) && r in spans && r.parent == Some(r.id)
    ensures !Rooted(IndexOf(spans), r)
  {
    var byId := IndexOf(spans);
    if r.id in byId {
      KeysAreStripped(spans, r.id);
      IndexHolds(spans);
      assert byId[r.id] == r;
      if n: nat :| RootAt(byId, r, n) {
        DepthIsUnique(byId, r, n, n - 1);
      }
    }
  }

  // ---------------------------------------------------------------- the walk of one span

  /** Whatever depth the start has, `r` lies `steps` links above it; and so the other way around. */
  ghost predicate LiesAbove(byId: Index, start: Row, r: Row, steps: nat) {
    && (forall n: nat :: RootAt(byId, start, n) ==> n >= steps && RootAt(byId, r, n - steps))
    && (forall n: nat :: RootAt(byId, r, n) ==> RootAt(byId, start, n + steps))
  }

  /** What is known after `steps` links up from `start`: where each id in `seen` was met. */
  ghost predicate Trail(byId: Index, start: Row, current: Row, steps: nat, seen: set<string>, met: map<string, nat>) {
    && LiesAbove(byId, start, current, steps)
    && seen == met.Keys && seen <= byId.Keys
    && (forall id :: id in seen ==> met[id] <= steps && LiesAbove(byId, start, byId[id], met[id]))
  }

  /** Meeting an id a second time means there is no root above. */
  lemma SeenTwiceIsRootless(byId: Index, start: Row, current: Row, steps: nat, seen: set<string>, met: map<string, nat>)
    requires Trail(byId, start, current, steps, seen, met)
    requires current.parent.Some? && current.parent.value in seen
    ensures !Rooted(byId, start)
  {
    if n: nat :| RootAt(byId, start, n) {
      var id := current.parent.value;
      assert RootAt(byId, current, n - steps) && RootAt(byId, byId[id], n - steps - 1);
      assert RootAt(byId, byId[id], n - met[id]);
      DepthIsUnique(byId, byId[id], n - steps - 1, n - met[id]);
    }
  }

  lemma ParentLiesAbove(byId: Index, start: Row, current: Row, steps: nat)
    requires LiesAbove(byId, start, current, steps) && current.parent.Some? && current.parent.value in byId
    ensures LiesAbove(byId, start, byId[current.parent.value], steps + 1)
  {
    var next := byId[current.parent.value];
    forall n: nat | RootAt(byId, start, n)
      ensures n >= steps + 1 && RootAt(byId, next, n - (steps + 1))
    {
      assert RootAt(byId, current, n - steps);
    }
    forall n: nat | RootAt(byId, next, n)
      ensures RootAt(byId, start, n + (steps + 1))
    {
      assert RootAt(byId, current, n + 1);
      assert RootAt(byId, start, (n + 1) + steps);
    }
  }

  lemma TrailExtends(byId: Index, start: Row, current: Row, steps: nat, seen: set<string>, met: map<string, nat>)
    requires Trail(byId, start, current, steps, seen, met)
    requires current.parent.Some? && current.parent.value in byId
    ensures var id := current.parent.value;
            Trail(byId, start, byId[id], steps + 1, seen + {id}, met[id := steps + 1])
  {
    var id := current.parent.value;
    ParentLiesAbove(byId, start, current, steps);
    forall k | k in seen + {id}
      ensures met[id := steps + 1][k] <= steps + 1 && LiesAbove(byId, start, byId[k], met[id := steps + 1][k])
    {
    }
  }

  /** A parent id that no span carries means there is no root above. */
  lemma MissingParentIsRootless(byId: Index, start: Row, current: Row, steps: nat, seen: set<string>,
                                met: map<string, nat>)
    requires Trail(byId, start, current, steps, seen, met)
    requires current.parent.Some? && current.parent.value !in byId
    ensures !Rooted(byId, start)
  {
    assert forall m: nat :: !RootAt(byId, current, m);
  }

  lemma SelfParentEndsTrail(spans: seq<Row>, start: Row, current: Row, steps: nat, seen: set<string>,
                            met: map<string, nat>)
    requires UniqueIds(spans) && Trail(IndexOf(spans), start, current, steps, seen, met)
    requires current in spans && current.parent == Some(current.id)
    ensures !Rooted(IndexOf(spans), start)
  {
    SelfParentIsRootless(spans, current);
  }

  lemma TrailArrives(byId: Index, start: Row, current: Row, steps: nat, seen: set<string>, met: map<string, nat>)
    requires Trail(byId, start, current, steps, seen, met) && current.parent.None?
    ensures Rooted(byId, start)
  {
    assert RootAt(byId, current, 0);
    assert RootAt(byId, start, 0 + steps);
  }

  lemma ParentIsASpan(spans: seq<Row>, key: string)
    requires UniqueIds(spans) && key in IndexOf(spans)
    ensures IndexOf(spans)[key] in spans
  {
    IndexHolds(spans);
  }

  /** Walk the parents of one span, noting every parent id met; the walk ends because no id is met twice. */
  method WalkToRoot(ghost spans: seq<Row>, byId: Index, start: Row) returns (error: Option<TreeError>)
    requires UniqueIds(spans) && byId == IndexOf(spans) && start in spans
    ensures error.None? <==> Rooted(byId, start)
    ensures error.None? || error.value == ParentCycle || error.value == UnknownParent
    ensures error == Some(UnknownParent) ==> exists r :: r in spans && r.parent.Some? && r.parent.value !in byId
  {
    var seen: set<string> := {};
    ghost var met: map<string, nat> := map[];
    ghost var steps: nat := 0;
    var current := start;
    while current.parent.Some?
      invariant current in spans && Trail(byId, start, current, steps, seen, met)
      decreases byId.Keys - seen
    {
      var parentId := current.parent.value;
      if parentId in seen || parentId == current.id {
        if parentId in seen {
          SeenTwiceIsRootless(byId, start, current, steps, seen, met);
        } else {
          SelfParentEndsTrail(spans, start, current, steps, seen, met);
        }
        return Some(ParentCycle);
      }
      if parentId !in byId {
        MissingParentIsRootless(byId, start, current, steps, seen, met);
        return Some(UnknownParent);
      }
      TrailExtends(byId, start, current, steps, seen, met);
      ParentIsASpan(spans, parentId);
      seen := seen + {parentId};
      met := met[parentId := steps + 1];
      steps := steps + 1;
      current := byId[parentId];
    }
    TrailArrives(byId, start, current, steps, seen, met);
    return None;
  }

  /** The first loop: forms in order, and no id twice. */
  method BuildIndex(spans: seq<Row>) returns (byId: Index, error: Option<TreeError>)
    ensures error.None? <==> FormsOk(spans) && UniqueIds(spans)
    ensures error.None? ==> byId == IndexOf(spans)
    ensures error.None? || (error.value == DuplicateId && !UniqueIds(spans))
            || (error.value == BadField && !FormsOk(spans))
  {
    byId := map[];
    for i := 0 to |spans|
      invariant byId == IndexOf(spans[..i])
      invariant FormsOk(spans[..i]) && UniqueIds(spans[..i])
    {
      var span := spans[i];
      assert spans[..i + 1] == spans[..i] + [span];
      if !span.idOk {
        return byId, Some(BadField);
      }
      if Key(span) in byId {
        RepeatedId(spans, i);
        return byId, Some(DuplicateId);
      }
      if !span.fieldsOk {
        return byId, Some(BadField);
      }
      UniqueIdsExtend(spans[..i], span);
      byId := byId[Key(span) := span];
    }
    assert spans[..|spans|] == spans;
    return byId, None;
  }

  lemma RepeatedId(spans: seq<Row>, i: nat)
    requires i < |spans| && UniqueIds(spans[..i]) && Key(spans[i]) in IndexOf(spans[..i])
    ensures !UniqueIds(spans)
  {
    IndexHolds(spans[..i]);
    var k :| 0 <= k < i && spans[..i][k] == IndexOf(spans[..i])[Key(spans[i])];
    assert Key(spans[k]) == Key(spans[i]);
  }

  lemma UniqueIdsExtend(spans: seq<Row>, span: Row)
    requires UniqueIds(spans) && Key(span) !in IndexOf(spans)
    ensures UniqueIds(spans + [span])
  {
    IndexHolds(spans);
    forall k | 0 <= k < |spans|
      ensures Key(spans[k]) != Key(span)
    {
      assert spans[k] in spans;
    }
  }

  /** The whole structural check: forms and duplicate ids, some root, then one walk per span. */
  method ValidateSpanTree(spans: seq<Row>) returns (error: Option<TreeError>)
    ensures error.None? <==> Accepted(spans)
    ensures error == Some(DuplicateId) ==> !UniqueIds(spans)
    ensures error == Some(NoRoot) ==> spans != [] && forall r :: r in spans ==> r.parent.Some?
    ensures error == Some(UnknownParent) ==>
              exists r :: r in spans && r.parent.Some? && r.parent.value !in IndexOf(spans)
  {
    var byId: Index;
    byId, error := BuildIndex(spans);
    if error.Some? {
      return;
    }
    if spans != [] && forall i :: 0 <= i < |spans| ==> spans[i].parent.Some? {
      if Forest(spans) {
        ForestHasRoot(spans);
      }
      return Some(NoRoot);
    }
    for i := 0 to |spans|
      invariant forall k :: 0 <= k < i ==> Rooted(byId, spans[k])
    {
      error := WalkToRoot(spans, byId, spans[i]);
      if error.Some? {
        assert !Rooted(IndexOf(spans), spans[i]);
        return;
      }
    }
    return None;
  }

  // ---------------------------------------------------------------- what acceptance means

  lemma {:induction false} RootAbove(byId: Index, r: Row, n: nat) returns (root: Row)
    requires RootAt(byId, r, n)
    ensures root.parent.None? && (root == r || exists k :: k in byId && byId[k] == root)
    decreases n
  {
    if n == 0 {
      root := r;
    } else {
      root := RootAbove(byId, byId[r.parent.value], n - 1);
    }
  }

  /** The separate check for a root adds nothing: when every walk ends, some span has no parent. */
  lemma ForestHasRoot(spans: seq<Row>)
    requires UniqueIds(spans) && Forest(spans) && spans != []
    ensures exists r :: r in spans && r.parent.None?
  {
    assert spans[0] in spans;
    var n: nat :| RootAt(IndexOf(spans), spans[0], n);
    var root := RootAbove(IndexOf(spans), spans[0], n);
    IndexHolds(spans);
    assert root in spans;
  }

  /** The span `k` links above `r`, if there is one. */
  function Above(byId: Index, r: Row, k: nat): Option<Row>
    decreases k
  {
    if k == 0 then Some(r)
    else if r.parent.Some? && r.parent.value in byId then Above(byId, byId[r.parent.value], k - 1)
    else None
  }

  ghost predicate Acyclic(spans: seq<Row>) {
    forall r, k: nat :: r in spans && k > 0 ==> Above(IndexOf(spans), r, k) != Some(r)
  }

  predicate ParentsPresent(spans: seq<Row>) {
    forall r :: r in spans && r.parent.Some? ==> r.parent.value in IndexOf(spans)
  }

  lemma {:induction false} AboveIsNearerTheRoot(byId: Index, r: Row, k: nat, n: nat)
    requires RootAt(byId, r, n) && Above(byId, r, k).Some?
    ensures k <= n && RootAt(byId, Above(byId, r, k).value, n - k)
    decreases k
  {
    if k > 0 {
      AboveIsNearerTheRoot(byId, byId[r.parent.value], k - 1, n - 1);
    }
  }

  lemma {:induction false} AboveSteps(byId: Index, r: Row, k: nat)
    requires Above(byId, r, k).Some?
    requires Above(byId, r, k).value.parent.Some? && Above(byId, r, k).value.parent.value in byId
    ensures Above(byId, r, k + 1) == Some(byId[Above(byId, r, k).value.parent.value])
    decreases k
  {
    if k > 0 {
      AboveSteps(byId, byId[r.parent.value], k - 1);
    }
  }

  ghost predicate LeadsTo(byId: Index, id: string, r: Row) {
    id in byId && exists k: nat :: Above(byId, byId[id], k) == Some(r)
  }

  lemma LeadsOn(byId: Index, id: string, r: Row)
    requires LeadsTo(byId, id, r) && r.parent.Some? && r.parent.value in byId
    ensures LeadsTo(byId, id, byId[r.parent.value])
    ensures id == r.parent.value ==> exists k: nat :: k > 0 && Above(byId, byId[id], k) == Some(byId[id])
  {
    var k: nat :| Above(byId, byId[id], k) == Some(r);
    AboveSteps(byId, byId[id], k);
    assert Above(byId, byId[id], k + 1) == Some(byId[r.parent.value]);
  }

  /** Climbing without meeting a cycle uses up the ids, so it arrives at a root. */
  lemma {:induction false} ClimbEnds(spans: seq<Row>, r: Row, seen: set<string>)
    requires UniqueIds(spans) && Acyclic(spans) && ParentsPresent(spans) && r in spans
    requires seen <= IndexOf(spans).Keys && forall id :: id in seen ==> LeadsTo(IndexOf(spans), id, r)
    ensures Rooted(IndexOf(spans), r)
    decreases IndexOf(spans).Keys - seen
  {
    var byId := IndexOf(spans);
    if r.parent.None? {
      assert RootAt(byId, r, 0);
    } else {
      IndexHolds(spans);
      var id := r.parent.value;
      var next := byId[id];
      assert next in spans;
      if id in seen {
        LeadsOn(byId, id, r);
        assert false;
      } else {
        forall x | x in seen + {id}
          ensures LeadsTo(byId, x, next)
        {
          if x in seen {
            LeadsOn(byId, x, r);
          } else {
            assert Above(byId, next, 0) == Some(next);
          }
        }
        ClimbEnds(spans, next, seen + {id});
        var n: nat :| RootAt(byId, next, n);
        assert RootAt(byId, r, n + 1);
      }
    }
  }

  /** Every walk arrives exactly when every parent is present and no span is its own ancestor. */
  lemma ForestIffAcyclic(spans: seq<Row>)
    requires UniqueIds(spans)
    ensures Forest(spans) <==> ParentsPresent(spans) && Acyclic(spans)
  {
    var byId := IndexOf(spans);
    if Forest(spans) {
      forall r, k: nat | r in spans && k > 0
        ensures Above(byId, r, k) != Some(r)
      {
        var n: nat :| RootAt(byId, r, n);
        if Above(byId, r, k) == Some(r) {
          AboveIsNearerTheRoot(byId, r, k, n);
          DepthIsUnique(byId, r, n, n - k);
        }
      }
      forall r | r in spans && r.parent.Some?
        ensures r.parent.value in byId
      {
        var n: nat :| RootAt(byId, r, n);
      }
    } else if ParentsPresent(spans) && Acyclic(spans) {
      forall r | r in spans
        ensures Rooted(byId, r)
      {
        ClimbEnds(spans, r, {});
      }
    }
  }

  // ---------------------------------------------------------------- how long a walk can be

  function Ancestors(byId: Index, r: Row, n: nat): set<string>
    requires RootAt(byId, r, n)
    decreases n
  {
    if n == 0 then {} else {r.parent.value} + Ancestors(byId, byId[r.parent.value], n - 1)
  }

  lemma {:induction false} AncestorsAreNearer(byId: Index, r: Row, n: nat, id: string)
    requires RootAt(byId, r, n) && id in Ancestors(byId, r, n)
    ensures id in byId && exists m: nat :: m < n && RootAt(byId, byId[id], m)
    decreases n
  {
    if id == r.parent.value {
      assert RootAt(byId, byId[id], n - 1);
    } else {
      AncestorsAreNearer(byId, byId[r.parent.value], n - 1, id);
    }
  }

  lemma {:induction false} OneAncestorPerLink(byId: Index, r: Row, n: nat)
    requires RootAt(byId, r, n)
    ensures |Ancestors(byId, r, n)| == n
    decreases n
  {
    if n > 0 {
      var next := byId[r.parent.value];
      OneAncestorPerLink(byId, next, n - 1);
      if r.parent.value in Ancestors(byId, next, n - 1) {
        AncestorsAreNearer(byId, next, n - 1, r.parent.value);
        var m: nat :| m < n - 1 && RootAt(byId, next, m);
        DepthIsUnique(byId, next, n - 1, m);
      }
    }
  }

  /** A walk that arrives follows fewer links than there are spans. */
  lemma WalksAreShort(spans: seq<Row>, r: Row, n: nat)
    requires UniqueIds(spans) && r in spans && RootAt(IndexOf(spans), r, n)
    ensures n < |spans|
  {
    var byId := IndexOf(spans);
    IndexHolds(spans);
    OneAncestorPerLink(byId, r, n);
    var ids := Ancestors(byId, r, n);
    forall id | id in ids
      ensures id in byId.Keys - {Key(r)}
    {
      AncestorsAreNearer(byId, r, n, id);
      if id == Key(r) {
        var m: nat :| m < n && RootAt(byId, byId[id], m);
        DepthIsUnique(byId, r, n, m);
      }
    }
    SubsetSize(ids, byId.Keys - {Key(r)});
    assert Key(r) in byId.Keys;
  }

  lemma {:induction false} SubsetSize(a: set<string>, b: set<string>)
    requires a <= b
    ensures |a| <= |b|
  {
    if a != {} {
      var x :| x in a;
      SubsetSize(a - {x}, b - {x});
    }
  }
}

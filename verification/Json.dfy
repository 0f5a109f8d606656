/** JSON documents, and the few Python conventions the resolver relies on. */
module Json {
  import opened Options

  datatype Json =
    | Null
    | Bool(b: bool)
    | Int(i: int)
    | Float(x: real)
    | Str(s: string)
    | Arr(items: seq<Json>)
    | Obj(fields: map<string, Json>)

  /** Truth of a value as a condition. */
  predicate Truthy(v: Json) {
    match v
    case Null => false
    case Bool(b) => b
    case Int(i) => i != 0
    case Float(x) => x != 0.0
    case Str(s) => s != ""
    case Arr(items) => items != []
    case Obj(fields) => fields != map[]
  }

  /** Null and what is empty or zero is false. */
  lemma FalseValuesAre(v: Json)
    ensures !Truthy(v) <==> v == Null || v == Bool(false) || v == Int(0) || v == Float(0.0) || v == Str("")
                            || v == Arr([]) || v == Obj(map[])
  {
  }

  function Get(fields: map<string, Json>, key: string): Json {
    if key in fields then fields[key] else Null
  }

  /** What the host decides: how a value prints and what time a string denotes, if any. */
  datatype Host = Host(show: Json -> string, clock: string -> Option<int>)

  /** Printing a string gives the string; printing anything true gives something. */
  ghost predicate Faithful(host: Host) {
    forall v :: Truthy(v) && !v.Str? ==> host.show(v) != ""
  }

  function Text(host: Host, v: Json): string {
    if !Truthy(v) then "" else if v.Str? then v.s else host.show(v)
  }

  // ---------------------------------------------------------------- lists

  function Filter<T(!new)>(p: T -> bool, s: seq<T>): (kept: seq<T>)
    ensures forall x :: x in kept <==> x in s && p(x)
  {
    if s == [] then [] else if p(s[0]) then [s[0]] + Filter(p, s[1..]) else Filter(p, s[1..])
  }

  lemma {:induction false} FilterFilter<T(!new)>(p: T -> bool, q: T -> bool, s: seq<T>)
    requires forall x :: x in s && q(x) ==> p(x)
    ensures Filter(q, Filter(p, s)) == Filter(q, s)
  {
    if s != [] {
      FilterFilter(p, q, s[1..]);
      if p(s[0]) {
        assert Filter(p, s) == [s[0]] + Filter(p, s[1..]);
        assert Filter(p, s)[1..] == Filter(p, s[1..]);
      }
    }
  }

  lemma {:induction false} FilterAll<T(!new)>(p: T -> bool, s: seq<T>)
    ensures Filter(p, s) == s <==> forall x :: x in s ==> p(x)
    ensures |Filter(p, s)| <= |s|
  {
    if s != [] {
      FilterAll(p, s[1..]);
      assert s == [s[0]] + s[1..];
      if !p(s[0]) {
        assert |Filter(p, s)| < |s|;
      }
    }
  }

  // ---------------------------------------------------------------- strings

  predicate IsSpace(c: char) {
    c == ' ' || c == '\t' || c == '\n' || c == '\r'
  }

  function StripLeft(s: string): string {
    if s != "" && IsSpace(s[0]) then StripLeft(s[1..]) else s
  }

  function StripRight(s: string): string {
    if s != "" && IsSpace(s[|s| - 1]) then StripRight(s[..|s| - 1]) else s
  }

  function Strip(s: string): string {
    StripRight(StripLeft(s))
  }

  /** Stripping twice changes nothing more. */
  lemma StripTwice(s: string)
    ensures Strip(Strip(s)) == Strip(s)
  {
    StripLeftDone(s);
    StripRightDone(StripLeft(s));
    StripRightKeepsHead(StripLeft(s));
  }

  lemma StripLeftDone(s: string)
    ensures StripLeft(s) == "" || !IsSpace(StripLeft(s)[0])
  {
  }

  lemma StripRightDone(s: string)
    ensures StripRight(s) == "" || !IsSpace(StripRight(s)[|StripRight(s)| - 1])
  {
  }

  lemma StripRightKeepsHead(s: string)
    ensures StripRight(s) == "" || (s != "" && StripRight(s)[0] == s[0])
  {
  }

  predicate AllSpaces(s: string) {
    forall i :: 0 <= i < |s| ==> s[i] == ' ' || s[i] == '\t' || s[i] == '\n' || s[i] == '\r'
  }

  /** Stripping takes spaces off both ends, and nothing else. */
  lemma StripTakesOuterSpaces(s: string)
    ensures exists a, b :: s == a + Strip(s) + b && AllSpaces(a) && AllSpaces(b)
    ensures Strip(s) != "" ==> !AllSpaces(Strip(s)[..1]) && !AllSpaces(Strip(s)[|Strip(s)| - 1..])
  {
    var a := StripLeftTakes(s);
    var b := StripRightTakes(StripLeft(s));
    assert s == a + Strip(s) + b;
    StripLeftDone(s);
    StripRightDone(StripLeft(s));
    StripRightKeepsHead(StripLeft(s));
    if Strip(s) != "" {
      assert Strip(s)[..1][0] == Strip(s)[0] && Strip(s)[|Strip(s)| - 1..][0] == Strip(s)[|Strip(s)| - 1];
    }
  }

  lemma {:induction false} StripLeftTakes(s: string) returns (a: string)
    ensures s == a + StripLeft(s) && AllSpaces(a)
  {
    a := "";
    if s != "" && IsSpace(s[0]) {
      var rest := StripLeftTakes(s[1..]);
      a := [s[0]] + rest;
    }
  }

  lemma {:induction false} StripRightTakes(s: string) returns (b: string)
    ensures s == StripRight(s) + b && AllSpaces(b)
  {
    b := "";
    if s != "" && IsSpace(s[|s| - 1]) {
      var rest := StripRightTakes(s[..|s| - 1]);
      b := rest + [s[|s| - 1]];
      assert s == s[..|s| - 1] + [s[|s| - 1]];
    }
  }

  /** The ASCII letters of a string in lower case. */
  function Lower(s: string): (lower: string)
    ensures |lower| == |s|
  {
    seq(|s|, i requires 0 <= i < |s| => LowerChar(s[i]))
  }

  function LowerChar(c: char): char {
    if 'A' <= c <= 'Z' then c - 'A' + 'a' else c
  }

  /** Capital letters become the small letters as far from `a` as they are from `A`, other characters stay. */
  lemma LowerIs(s: string, i: nat)
    requires i < |s|
    ensures if 'A' <= s[i] <= 'Z' then Lower(s)[i] as int - 'a' as int == s[i] as int - 'A' as int
            else Lower(s)[i] == s[i]
  {
  }

  predicate StartsWith(s: string, prefix: string) {
    prefix <= s
  }

  predicate IsDigits(s: string) {
    s != "" && forall i :: 0 <= i < |s| ==> '0' <= s[i] <= '9'
  }

  function ParseIndex(s: string): nat
    requires IsDigits(s)
  {
    var last := s[|s| - 1] as int - '0' as int;
    if |s| == 1 then last else 10 * ParseIndex(s[..|s| - 1]) + last
  }
}

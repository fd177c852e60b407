/** Helpers of the AI's `freeorion_tools` package: reading a grade from a species' tags, a
    readable rendering of nested containers, the two memoising decorators, and the conversion
    between a dict and a tuple of its items. */
module FreeOrionTools {
  import opened Optional

  // ---------------------------------------------------------------------------------------------
  // `get_ai_tag_grade`

  /** `str.upper` on ASCII letters; every other character is left as it is. */
  function Upper(s: string): (r: string)
    ensures |r| == |s|
    ensures forall k :: 0 <= k < |s| ==> r[k] == (if 'a' <= s[k] <= 'z' then s[k] - 'a' + 'A' else s[k])
  {
    if s == [] then []
    else [if 'a' <= s[0] <= 'z' then s[0] - 'a' + 'A' else s[0]] + Upper(s[1..])
  }

  /** The index of the first `_` in a tag that holds one. */
  function FirstUnderscore(tag: string): (i: nat)
    requires '_' in tag
    ensures i < |tag| && tag[i] == '_' && '_' !in tag[..i]
  {
    if tag[0] == '_' then 0
    else
      assert tag == [tag[0]] + tag[1..];
      var i := 1 + FirstUnderscore(tag[1..]);
      assert tag[..i] == [tag[0]] + tag[1..][..i - 1];
      i
  }

  /** `tag.split("_", 1)` on a tag that holds a `_`: the text before the first `_` and after it. */
  function SplitOnce(tag: string): (parts: (string, string))
    requires '_' in tag
    ensures tag == parts.0 + "_" + parts.1 && '_' !in parts.0
  {
    var i := FirstUnderscore(tag);
    assert tag == tag[..i] + "_" + tag[i + 1..];
    (tag[..i], tag[i + 1..])
  }

  /** A tag of the form X_TYPE for the given (upper-cased) type. */
  predicate Grades(tag: string, upperType: string)
  {
    '_' in tag && SplitOnce(tag).1 == upperType
  }

  /** `get_ai_tag_grade`: the X of the first tag in the list of the form X_`tag_type.upper()`,
      or the empty string. */
  function TagGrade(tags: seq<string>, tagType: string): (grade: string)
    ensures (forall k :: 0 <= k < |tags| ==> !Grades(tags[k], Upper(tagType))) ==> grade == ""
    ensures forall k :: 0 <= k < |tags| && Grades(tags[k], Upper(tagType))
                        && (forall j :: 0 <= j < k ==> !Grades(tags[j], Upper(tagType)))
                        ==> grade == SplitOnce(tags[k]).0
  {
    if tags == [] then ""
    else if Grades(tags[0], Upper(tagType)) then SplitOnce(tags[0]).0
    else
      var rest := TagGrade(tags[1..], tagType);
      assert forall k :: 1 <= k < |tags| ==> tags[k] == tags[1..][k - 1];
      rest
  }

  /** The grade written into a tag is the grade read back, whatever tags follow. */
  lemma TagGradeRoundTrip(grade: string, tagType: string, rest: seq<string>)
    requires '_' !in grade
    ensures TagGrade([grade + "_" + Upper(tagType)] + rest, tagType) == grade
  {
    var tag := grade + "_" + Upper(tagType);
    assert tag[|grade|] == '_';
    assert tag[..|grade|] == grade;
    assert FirstUnderscore(tag) == |grade|;
    assert tag[|grade| + 1..] == Upper(tagType);
  }

  // ---------------------------------------------------------------------------------------------
  // `ppstring`

  /** The Python values `ppstring` tells apart. A dict and a set are given as the sequence in
      which Python iterates over them; `Other` carries what `str` renders. */
  datatype Value =
    | List(items: seq<Value>)
    | Tuple(items: seq<Value>)
    | Set(items: seq<Value>)
    | Dict(entries: seq<(Value, Value)>)
    | Str(text: string)
    | Other(repr: string)

  /** `",".join(parts)`. */
  function Join(parts: seq<string>): (r: string)
    ensures parts == [] ==> r == ""
  {
    if parts == [] then ""
    else if |parts| == 1 then parts[0]
    else parts[0] + "," + Join(parts[1..])
  }

  /** `ppstring`. */
  function PP(v: Value): (r: string)
    decreases v
    ensures v.List? ==> |r| >= 2 && r[0] == '[' && r[|r| - 1] == ']'
    ensures v.Tuple? ==> |r| >= 2 && r[0] == '(' && r[|r| - 1] == ')'
    ensures v.Set? || v.Dict? ==> |r| >= 2 && r[0] == '{' && r[|r| - 1] == '}'
    ensures v.Str? ==> r == "'" + v.text + "'"
    ensures v.Other? ==> r == v.repr
  {
    match v
    case List(items) => "[" + Join(seq(|items|, k requires 0 <= k < |items| => PP(items[k]))) + "]"
    case Tuple(items) => "(" + Join(seq(|items|, k requires 0 <= k < |items| => PP(items[k]))) + ")"
    case Set(items) => "{" + Join(seq(|items|, k requires 0 <= k < |items| => PP(items[k]))) + "}"
    case Dict(entries) =>
      "{" + Join(seq(|entries|, k requires 0 <= k < |entries| =>
                       PP(entries[k].0) + ":" + PP(entries[k].1))) + "}"
    case Str(text) => "'" + text + "'"
    case Other(repr) => repr
  }

  /** The number of occurrences of `c` in `s`. */
  function Count(s: string, c: char): nat
  {
    if s == [] then 0 else (if s[0] == c then 1 else 0) + Count(s[1..], c)
  }

  lemma {:induction false} CountConcat(a: string, b: string, c: char)
    ensures Count(a + b, c) == Count(a, c) + Count(b, c)
  {
    if a != [] {
      assert (a + b)[1..] == a[1..] + b;
      CountConcat(a[1..], b, c);
    } else {
      assert a + b == b;
    }
  }

  /** `open` and `close` occur equally often. */
  predicate Balanced(s: string, open: char, close: char)
  {
    Count(s, open) == Count(s, close)
  }

  lemma BalancedConcat(a: string, b: string, open: char, close: char)
    requires Balanced(a, open, close) && Balanced(b, open, close)
    ensures Balanced(a + b, open, close)
  {
    CountConcat(a, b, open);
    CountConcat(a, b, close);
  }

  lemma {:induction false} BalancedJoin(parts: seq<string>, open: char, close: char)
    requires open != ',' && close != ','
    requires forall k :: 0 <= k < |parts| ==> Balanced(parts[k], open, close)
    ensures Balanced(Join(parts), open, close)
  {
    if |parts| > 1 {
      BalancedJoin(parts[1..], open, close);
      BalancedConcat(parts[0], ",", open, close);
      BalancedConcat(parts[0] + ",", Join(parts[1..]), open, close);
    }
  }

  /** No string or `str` rendering inside the value holds `open` or `close`. */
  predicate PlainText(v: Value, open: char, close: char)
    decreases v
  {
    match v
    case List(items) => forall k :: 0 <= k < |items| ==> PlainText(items[k], open, close)
    case Tuple(items) => forall k :: 0 <= k < |items| ==> PlainText(items[k], open, close)
    case Set(items) => forall k :: 0 <= k < |items| ==> PlainText(items[k], open, close)
    case Dict(entries) => forall k :: 0 <= k < |entries| ==>
      PlainText(entries[k].0, open, close) && PlainText(entries[k].1, open, close)
    case Str(text) => open !in text && close !in text
    case Other(repr) => open !in repr && close !in repr
  }

  lemma {:induction false} NoCount(s: string, c: char)
    requires c !in s
    ensures Count(s, c) == 0
  {
    if s != [] {
      NoCount(s[1..], c);
    }
  }

  lemma BalancedWrap(open: char, mid: string, close: char, o: char, cl: char)
    requires Balanced(mid, o, cl)
    requires (open == o && close == cl) || (open != o && open != cl && close != o && close != cl)
    ensures Balanced([open] + mid + [close], o, cl)
  {
    assert [open][1..] == [] && [close][1..] == [];
    assert ([open] + [close])[1..] == [close];
    CountConcat([open], mid, o);
    CountConcat([open], mid, cl);
    CountConcat([open] + mid, [close], o);
    CountConcat([open] + mid, [close], cl);
    CountConcat([open], [close], o);
    CountConcat([open], [close], cl);
  }

  /** Every bracket `ppstring` writes is closed: for each of the three kinds of bracket, the
      rendering of a value whose texts hold no bracket of that kind opens as many as it closes. */
  lemma {:induction false} PPBalanced(v: Value, open: char, close: char)
    requires (open, close) in {('[', ']'), ('(', ')'), ('{', '}')}
    requires PlainText(v, open, close)
    ensures Balanced(PP(v), open, close)
    decreases v
  {
    match v
    case Str(text) =>
      NoCount(text, open);
      NoCount(text, close);
      BalancedWrap('\'', text, '\'', open, close);
    case Other(repr) =>
      NoCount(repr, open);
      NoCount(repr, close);
    case Dict(entries) =>
      var parts := seq(|entries|, k requires 0 <= k < |entries| =>
                         PP(entries[k].0) + ":" + PP(entries[k].1));
      forall k | 0 <= k < |entries|
        ensures Balanced(parts[k], open, close)
      {
        PPBalanced(entries[k].0, open, close);
        PPBalanced(entries[k].1, open, close);
        BalancedConcat(PP(entries[k].0), ":", open, close);
        BalancedConcat(PP(entries[k].0) + ":", PP(entries[k].1), open, close);
      }
      BalancedJoin(parts, open, close);
      BalancedWrap('{', Join(parts), '}', open, close);
    case _ =>
      var items := v.items;
      var parts := seq(|items|, k requires 0 <= k < |items| => PP(items[k]));
      forall k | 0 <= k < |items|
        ensures Balanced(parts[k], open, close)
      {
        PPBalanced(items[k], open, close);
      }
      BalancedJoin(parts, open, close);
      var (o, c) := if v.List? then ('[', ']') else if v.Tuple? then ('(', ')') else ('{', '}');
      BalancedWrap(o, Join(parts), c, open, close);
  }

  // ---------------------------------------------------------------------------------------------
  // `cache_by_session`

  /** The memo of a function wrapped by `cache_by_session`, keyed by its arguments. The ghost
      `computed` lists the keys for which the wrapped function actually ran, in order. */
  class SessionCache<K(==,!new), V> {
    var cache: map<K, V>
    ghost var computed: seq<K>

    /** The wrapped function ran exactly once for every key in the memo, and for no other. */
    ghost predicate Valid()
      reads this
    {
      && (forall k :: k in cache <==> k in computed)
      && (forall i, j :: 0 <= i < j < |computed| ==> computed[i] != computed[j])
    }

    constructor ()
      ensures Valid() && cache == map[] && computed == []
    {
      cache := map[];
      computed := [];
    }

    /** The wrapper: `result` is what the wrapped function returns when it runs now. */
    method Call(key: K, result: V) returns (r: V)
      requires Valid()
      modifies this
      ensures Valid()
      ensures key in old(cache) ==> r == old(cache)[key] && cache == old(cache) && computed == old(computed)
      ensures key !in old(cache) ==> r == result && cache == old(cache)[key := result]
                                     && computed == old(computed) + [key]
    {
      if key in cache {
        return cache[key];
      }
      cache := cache[key := result];
      computed := computed + [key];
      r := result;
    }
  }

  // ---------------------------------------------------------------------------------------------
  // `cache_by_turn`

  /** The `caches` entry of the AI state's `misc` dict: for each wrapped function's name, its
      value per turn. The ghost `computed` lists the (name, turn) pairs for which a wrapped
      function ran while the AI state existed. */
  class TurnCaches<V> {
    var caches: map<string, map<int, V>>
    ghost var computed: seq<(string, int)>

    /** Every stored value was computed exactly once, and nothing else was computed. */
    ghost predicate Valid()
      reads this
    {
      && (forall name, turn :: name in caches && turn in caches[name] <==> (name, turn) in computed)
      && (forall i, j :: 0 <= i < j < |computed| ==> computed[i] != computed[j])
    }

    constructor ()
      ensures Valid() && caches == map[] && computed == []
    {
      caches := map[];
      computed := [];
    }

    /** The wrapper of the function called `name`, on turn `turn`; `result` is what the wrapped
        function returns when it runs now. Without an AI state nothing is stored. */
    method Call(stateLoaded: bool, name: string, turn: int, result: V) returns (r: V)
      requires Valid()
      modifies this
      ensures Valid()
      ensures !stateLoaded ==> r == result && caches == old(caches) && computed == old(computed)
      ensures stateLoaded && name in old(caches) && turn in old(caches)[name] ==>
        r == old(caches)[name][turn] && caches == old(caches) && computed == old(computed)
      ensures stateLoaded && !(name in old(caches) && turn in old(caches)[name]) ==>
        && r == result && computed == old(computed) + [(name, turn)]
        && caches == old(caches)[name := (if name in old(caches) then old(caches)[name] else map[])[turn := result]]
    {
      if !stateLoaded {
        return result;
      }
      var cache := if name in caches then caches[name] else map[];
      if turn in cache {
        return cache[turn];
      }
      caches := caches[name := cache[turn := result]];
      computed := computed + [(name, turn)];
      r := result;
    }
  }

  /** Two calls on the same turn with the AI state loaded return the same value, whatever the
      wrapped function would have returned the second time. */
  method SameTurnSameValue<V>(c: TurnCaches<V>, name: string, turn: int, first: V, second: V)
    returns (a: V, b: V)
    requires c.Valid()
    modifies c
    ensures a == b
  {
    a := c.Call(true, name, turn, first);
    b := c.Call(true, name, turn, second);
  }

  // ---------------------------------------------------------------------------------------------
  // `dict_to_tuple` and `tuple_to_dict`

  /** The items of `m`, each key once, in some order. */
  ghost predicate Enumerates<K, V>(items: seq<(K, V)>, m: map<K, V>)
  {
    && |items| == |m|
    && (forall k :: 0 <= k < |items| ==> items[k].0 in m && m[items[k].0] == items[k].1)
    && (forall i, j :: 0 <= i < j < |items| ==> items[i].0 != items[j].0)
  }

  /** `items` lists the keys in `done`, each once, with their values in `m`. */
  ghost predicate EnumeratesPart<K, V>(items: seq<(K, V)>, done: set<K>, m: map<K, V>)
  {
    && done <= m.Keys
    && |items| == |done|
    && (forall k :: 0 <= k < |items| ==> items[k].0 in done && m[items[k].0] == items[k].1)
    && (forall i, j :: 0 <= i < j < |items| ==> items[i].0 != items[j].0)
  }

  /** Listing one more key keeps the listing exact. */
  lemma EnumeratesPartStep<K, V>(items: seq<(K, V)>, done: set<K>, m: map<K, V>, key: K)
    requires EnumeratesPart(items, done, m) && key in m && key !in done
    ensures EnumeratesPart(items + [(key, m[key])], done + {key}, m)
  {
    var items' := items + [(key, m[key])];
    assert forall k :: 0 <= k < |items| ==> items'[k] == items[k];
  }

  /** `dict_to_tuple`: the dict's items in its iteration order, which Python does not specify. */
  method DictToTuple<K, V>(m: map<K, V>) returns (items: seq<(K, V)>)
    ensures Enumerates(items, m)
  {
    items := [];
    var rest := m.Keys;
    ghost var done: set<K> := {};
    while rest != {}
      invariant rest !! done && rest + done == m.Keys
      invariant EnumeratesPart(items, done, m)
      decreases |rest|
    {
      var k :| k in rest;
      EnumeratesPartStep(items, done, m, k);
      items := items + [(k, m[k])];
      rest := rest - {k};
      done := done + {k};
    }
    assert done == m.Keys;
  }

  /** What `tuple_to_dict` receives:
      - a sequence of pairs, which `dict()` accepts;
      - a single pair of non-sequences, for which `dict()` raises `TypeError` and the one-pair
        comprehension succeeds;
      - an argument for which `dict()` raises `TypeError` and unpacking it as one pair fails too;
      - a sequence with an item that is a sequence of a length other than two, for which `dict()`
        raises `ValueError`, which the `except TypeError` does not catch. */
  datatype TupleArg<K, V> = Pairs(items: seq<(K, V)>) | Pair(key: K, val: V) | Malformed | WrongLengthItem

  /** `dict(items)`: later items override earlier ones with the same key. */
  function DictOf<K, V>(items: seq<(K, V)>): map<K, V>
  {
    if items == [] then map[]
    else DictOf(items[..|items| - 1])[items[|items| - 1].0 := items[|items| - 1].1]
  }

  /** The dict holds the keys of the items, each with the value of its last item. */
  lemma {:induction false} DictOfHolds<K(!new), V>(items: seq<(K, V)>)
    ensures forall x :: x in DictOf(items) <==> exists k :: 0 <= k < |items| && items[k].0 == x
    ensures forall k :: 0 <= k < |items| && (forall j :: k < j < |items| ==> items[j].0 != items[k].0)
                        ==> DictOf(items)[items[k].0] == items[k].1
  {
    if items != [] {
      var init := items[..|items| - 1];
      DictOfHolds(init);
      assert forall k :: 0 <= k < |init| ==> items[k] == init[k];
    }
  }

  /** `tuple_to_dict`; `None` is the `ValueError` that escapes to the caller. */
  function TupleToDict<K, V>(arg: TupleArg<K, V>): (r: Option<map<K, V>>)
    ensures r.None? <==> arg.WrongLengthItem?
    ensures arg.Malformed? ==> r == Some(map[])
    ensures arg.Pair? ==> r == Some(map[arg.key := arg.val])
  {
    match arg
    case Pairs(items) => Some(DictOf(items))
    case Pair(k, v) => Some(map[k := v])
    case Malformed => Some(map[])
    case WrongLengthItem => None
  }

  /** `tuple_to_dict(dict_to_tuple(d)) == d`, whatever order the items come in. */
  lemma TupleToDictInvertsDictToTuple<K(!new), V>(items: seq<(K, V)>, m: map<K, V>)
    requires Enumerates(items, m)
    ensures TupleToDict(Pairs(items)) == Some(m)
  {
    var r := DictOf(items);
    DictOfEnumeratedKeys(items, m);
    DictOfHolds(items);
    forall x | x in m
      ensures r[x] == m[x]
    {
      var k :| 0 <= k < |items| && items[k].0 == x;
    }
    assert r == m;
  }

  /** The dict of an enumeration of `m` has the keys of `m`. */
  lemma DictOfEnumeratedKeys<K(!new), V>(items: seq<(K, V)>, m: map<K, V>)
    requires Enumerates(items, m)
    ensures DictOf(items).Keys == m.Keys
  {
    var r := DictOf(items);
    DictOfHolds(items);
    var named := set k | 0 <= k < |items| :: items[k].0;
    forall x | x in r
      ensures x in named
    {
      var k :| 0 <= k < |items| && items[k].0 == x;
    }
    forall x | x in named
      ensures x in r
    {
      var k :| 0 <= k < |items| && items[k].0 == x;
    }
    assert r.Keys == named;
    IndexValuesSize(items, |items|);
    SubsetSameSize(r.Keys, m.Keys);
  }

  /** Distinct keys: the first `n` items name `n` keys. */
  lemma {:induction false} IndexValuesSize<K, V>(items: seq<(K, V)>, n: nat)
    requires n <= |items|
    requires forall i, j :: 0 <= i < j < |items| ==> items[i].0 != items[j].0
    ensures |set k | 0 <= k < n :: items[k].0| == n
  {
    if n > 0 {
      IndexValuesSize(items, n - 1);
      var s := set k | 0 <= k < n - 1 :: items[k].0;
      assert (set k | 0 <= k < n :: items[k].0) == s + {items[n - 1].0};
    }
  }

  lemma SubsetSameSize<T>(a: set<T>, b: set<T>)
    requires a <= b && |a| == |b|
    ensures a == b
  {
    var d := b - a;
    assert b == a + d && a * d == {};
    assert |b| == |a| + |d|;
    assert d == {};
  }
}

/** The entries of the AI's shadow production queue and the order Python 2 puts them in.

    An entry is the 5-tuple (current_priority, base_priority, item_type, item, location).
    The item is a building name (a string) or a ship design id (an integer); Python 2
    orders every number before every string, so the two kinds never tie. Tuples compare
    lexicographically, field by field. */
module QueueOrder {

  /** What is being built: the name of a building type or the id of a ship design. */
  datatype Item = Name(name: string) | Design(id: int)

  /** One element of the shadow queue. Lower priority values are built first. */
  datatype Entry = Entry(current: real, base: real, itemType: int, item: Item, location: int)

  /** Python 2 comparison of two byte strings: lexicographic, a proper prefix first. */
  predicate StrLt(s: string, t: string)
    decreases |s|
  {
    if |s| == 0 then |t| > 0
    else if |t| == 0 then false
    else if s[0] != t[0] then s[0] < t[0]
    else StrLt(s[1..], t[1..])
  }

  /** Python 2 comparison of two items: integers before strings. */
  predicate ItemLt(a: Item, b: Item)
  {
    match (a, b)
    case (Design(i), Design(j)) => i < j
    case (Design(_), Name(_)) => true
    case (Name(_), Design(_)) => false
    case (Name(s), Name(t)) => StrLt(s, t)
  }

  /** Lexicographic comparison of two entry tuples. */
  predicate Lt(a: Entry, b: Entry)
  {
    a.current < b.current ||
    (a.current == b.current &&
      (a.base < b.base ||
      (a.base == b.base &&
        (a.itemType < b.itemType ||
        (a.itemType == b.itemType &&
          (ItemLt(a.item, b.item) ||
          (a.item == b.item && a.location < b.location)))))))
  }

  lemma {:induction false} StrLtIrreflexive(s: string)
    ensures !StrLt(s, s)
    decreases |s|
  {
    if |s| > 0 {
      StrLtIrreflexive(s[1..]);
    }
  }

  lemma {:induction false} StrLtTransitive(s: string, t: string, u: string)
    requires StrLt(s, t) && StrLt(t, u)
    ensures StrLt(s, u)
    decreases |s|
  {
    if |s| > 0 && |t| > 0 && |u| > 0 && s[0] == t[0] && t[0] == u[0] {
      StrLtTransitive(s[1..], t[1..], u[1..]);
    }
  }

  lemma {:induction false} StrLtTotal(s: string, t: string)
    ensures StrLt(s, t) || StrLt(t, s) || s == t
    decreases |s|
  {
    if |s| > 0 && |t| > 0 && s[0] == t[0] {
      StrLtTotal(s[1..], t[1..]);
      if s[1..] == t[1..] {
        assert s == [s[0]] + s[1..] && t == [t[0]] + t[1..];
      }
    }
  }

  /** The entry order is a strict total order, so bisect and sorting are well defined. */
  lemma LtIrreflexive(a: Entry)
    ensures !Lt(a, a)
  {
    match a.item
    case Name(s) => StrLtIrreflexive(s);
    case Design(_) =>
  }

  lemma LtTransitive(a: Entry, b: Entry, c: Entry)
    requires Lt(a, b) && Lt(b, c)
    ensures Lt(a, c)
  {
    if a.item.Name? && b.item.Name? && c.item.Name?
       && StrLt(a.item.name, b.item.name) && StrLt(b.item.name, c.item.name) {
      StrLtTransitive(a.item.name, b.item.name, c.item.name);
    }
  }

  lemma LtTotal(a: Entry, b: Entry)
    ensures Lt(a, b) || Lt(b, a) || a == b
  {
    if a.item.Name? && b.item.Name? {
      StrLtTotal(a.item.name, b.item.name);
    }
  }

  lemma LtAsymmetric(a: Entry, b: Entry)
    requires Lt(a, b)
    ensures !Lt(b, a)
  {
    if Lt(b, a) {
      LtTransitive(a, b, a);
      LtIrreflexive(a);
    }
  }

  /** Ascending order, ties allowed: the shape the shadow queue is kept in. */
  ghost predicate Sorted(q: seq<Entry>)
  {
    forall i, j :: 0 <= i < j < |q| ==> !Lt(q[j], q[i])
  }

  /** `list.insert(idx, x)` for an index in range. */
  function Insert(q: seq<Entry>, idx: nat, x: Entry): (r: seq<Entry>)
    requires idx <= |q|
    ensures |r| == |q| + 1 && r[idx] == x
    ensures forall k {:trigger r[k]} :: 0 <= k < idx ==> r[k] == q[k]
    ensures forall k {:trigger r[k]} :: idx < k < |r| ==> r[k] == q[k - 1]
    ensures multiset(r) == multiset(q) + multiset{x}
  {
    assert q == q[..idx] + q[idx..];
    q[..idx] + [x] + q[idx..]
  }

  /** `list.insert(idx, x)` is the part before the index, then x, then the rest. */
  lemma InsertShape(q: seq<Entry>, idx: nat, x: Entry)
    requires idx <= |q|
    ensures Insert(q, idx, x) == (q[..idx] + [x]) + q[idx..]
  {
  }

  /** `list.insert(idx, x)` for any index: past the end it appends. */
  function PyInsert(q: seq<Entry>, idx: nat, x: Entry): (r: seq<Entry>)
    ensures idx <= |q| ==> r == Insert(q, idx, x)
    ensures idx >= |q| ==> r == q + [x]
  {
    if idx <= |q| then Insert(q, idx, x) else q + [x]
  }

  /** `list.pop(idx)` for an index in range: the list without that element. */
  function Remove(q: seq<Entry>, idx: nat): (r: seq<Entry>)
    requires idx < |q|
    ensures |r| == |q| - 1
    ensures forall k {:trigger r[k]} :: 0 <= k < idx ==> r[k] == q[k]
    ensures forall k {:trigger r[k]} :: idx <= k < |r| ==> r[k] == q[k + 1]
    ensures multiset(r) == multiset(q) - multiset{q[idx]}
  {
    assert q == q[..idx] + [q[idx]] + q[idx + 1..];
    q[..idx] + q[idx + 1..]
  }

  /** Popping the entry just inserted gives the list back. */
  lemma RemoveInsert(q: seq<Entry>, idx: nat, x: Entry)
    requires idx <= |q|
    ensures Remove(Insert(q, idx, x), idx) == q
  {
    assert Insert(q, idx, x) == q[..idx] + [x] + q[idx..];
    assert Remove(Insert(q, idx, x), idx) == q[..idx] + q[idx..];
  }

  /** Python's `bisect.bisect_left`, the binary search exactly as CPython runs it, so that it
      is defined (and may answer anything in 0..|q|) on an unsorted list too. */
  function BisectLeft(q: seq<Entry>, x: Entry): (r: nat)
    ensures r <= |q|
  {
    BisectLeftIn(q, x, 0, |q|)
  }

  function BisectLeftIn(q: seq<Entry>, x: Entry, lo: nat, hi: nat): (r: nat)
    requires lo <= hi <= |q|
    ensures lo <= r <= hi
    decreases hi - lo
  {
    if lo < hi then
      var mid := (lo + hi) / 2;
      if Lt(q[mid], x) then BisectLeftIn(q, x, mid + 1, hi) else BisectLeftIn(q, x, lo, mid)
    else lo
  }

  /** Python's `bisect.bisect` (= `bisect_right`). */
  function BisectRight(q: seq<Entry>, x: Entry): (r: nat)
    ensures r <= |q|
  {
    BisectRightIn(q, x, 0, |q|)
  }

  function BisectRightIn(q: seq<Entry>, x: Entry, lo: nat, hi: nat): (r: nat)
    requires lo <= hi <= |q|
    ensures lo <= r <= hi
    decreases hi - lo
  {
    if lo < hi then
      var mid := (lo + hi) / 2;
      if Lt(x, q[mid]) then BisectRightIn(q, x, lo, mid) else BisectRightIn(q, x, mid + 1, hi)
    else lo
  }

  lemma {:induction false} BisectLeftInSplits(q: seq<Entry>, x: Entry, lo: nat, hi: nat)
    requires Sorted(q) && lo <= hi <= |q|
    requires forall k :: 0 <= k < lo ==> Lt(q[k], x)
    requires forall k :: hi <= k < |q| ==> !Lt(q[k], x)
    ensures var r := BisectLeftIn(q, x, lo, hi);
      (forall k :: 0 <= k < r ==> Lt(q[k], x)) && (forall k :: r <= k < |q| ==> !Lt(q[k], x))
    decreases hi - lo
  {
    if lo < hi {
      var mid := (lo + hi) / 2;
      if Lt(q[mid], x) {
        forall k | lo <= k < mid + 1 ensures Lt(q[k], x) {
          if k < mid {
            LtTotal(q[k], q[mid]);
            if Lt(q[k], q[mid]) { LtTransitive(q[k], q[mid], x); }
          }
        }
        BisectLeftInSplits(q, x, mid + 1, hi);
      } else {
        forall k | mid <= k < hi ensures !Lt(q[k], x) {
          if k > mid && Lt(q[k], x) {
            LtTotal(q[mid], q[k]);
            if Lt(q[mid], q[k]) { LtTransitive(q[mid], q[k], x); }
          }
        }
        BisectLeftInSplits(q, x, lo, mid);
      }
    }
  }

  /** On a sorted list, bisect_left splits it into the entries before `x` and the rest. */
  lemma BisectLeftSplits(q: seq<Entry>, x: Entry)
    requires Sorted(q)
    ensures var r := BisectLeft(q, x);
      (forall k :: 0 <= k < r ==> Lt(q[k], x)) && (forall k :: r <= k < |q| ==> !Lt(q[k], x))
  {
    BisectLeftInSplits(q, x, 0, |q|);
  }

  lemma {:induction false} BisectRightInSplits(q: seq<Entry>, x: Entry, lo: nat, hi: nat)
    requires Sorted(q) && lo <= hi <= |q|
    requires forall k :: 0 <= k < lo ==> !Lt(x, q[k])
    requires forall k :: hi <= k < |q| ==> Lt(x, q[k])
    ensures var r := BisectRightIn(q, x, lo, hi);
      (forall k :: 0 <= k < r ==> !Lt(x, q[k])) && (forall k :: r <= k < |q| ==> Lt(x, q[k]))
    decreases hi - lo
  {
    if lo < hi {
      var mid := (lo + hi) / 2;
      if Lt(x, q[mid]) {
        forall k | mid <= k < hi ensures Lt(x, q[k]) {
          if k > mid {
            LtTotal(q[mid], q[k]);
            if Lt(q[mid], q[k]) { LtTransitive(x, q[mid], q[k]); }
          }
        }
        BisectRightInSplits(q, x, lo, mid);
      } else {
        forall k | lo <= k < mid + 1 ensures !Lt(x, q[k]) {
          if k < mid && Lt(x, q[k]) {
            LtTotal(q[k], q[mid]);
            if Lt(q[k], q[mid]) { LtTransitive(x, q[k], q[mid]); }
          }
        }
        BisectRightInSplits(q, x, mid + 1, hi);
      }
    }
  }

  /** On a sorted list, bisect (right) splits it into the entries not after `x` and those after it. */
  lemma BisectRightSplits(q: seq<Entry>, x: Entry)
    requires Sorted(q)
    ensures var r := BisectRight(q, x);
      (forall k :: 0 <= k < r ==> !Lt(x, q[k])) && (forall k :: r <= k < |q| ==> Lt(x, q[k]))
  {
    BisectRightInSplits(q, x, 0, |q|);
  }

  /** Inserting at the bisect_left position keeps a sorted list sorted. */
  lemma InsertAtBisectLeftSorted(q: seq<Entry>, x: Entry)
    requires Sorted(q)
    ensures Sorted(Insert(q, BisectLeft(q, x), x))
  {
    var idx := BisectLeft(q, x);
    BisectLeftSplits(q, x);
    var r := Insert(q, idx, x);
    forall i, j | 0 <= i < j < |r| ensures !Lt(r[j], r[i]) {
      if i == idx {
        assert !Lt(q[j - 1], x);
      } else if j == idx {
        LtAsymmetric(q[i], x);
      }
    }
  }

  /** Inserting at the bisect (right) position keeps a sorted list sorted. */
  lemma InsertAtBisectRightSorted(q: seq<Entry>, x: Entry)
    requires Sorted(q)
    ensures Sorted(Insert(q, BisectRight(q, x), x))
  {
    var idx := BisectRight(q, x);
    BisectRightSplits(q, x);
    var r := Insert(q, idx, x);
    forall i, j | 0 <= i < j < |r| ensures !Lt(r[j], r[i]) {
      if i == idx {
        LtAsymmetric(x, q[j - 1]);
      } else if j == idx {
        assert !Lt(x, q[i]);
      }
    }
  }

  /** Removing an element keeps a sorted list sorted. */
  lemma RemoveSorted(q: seq<Entry>, idx: nat)
    requires idx < |q| && Sorted(q)
    ensures Sorted(Remove(q, idx))
  {
    var r := Remove(q, idx);
    forall i, j | 0 <= i < j < |r| ensures !Lt(r[j], r[i]) {
      var i' := if i < idx then i else i + 1;
      var j' := if j < idx then j else j + 1;
      assert r[i] == q[i'] && r[j] == q[j'];
    }
  }

  /** The position of the first copy of `x`: how a list finds an element it holds. */
  function IndexOf(q: seq<Entry>, x: Entry): (r: nat)
    requires x in q
    ensures r < |q| && q[r] == x
    ensures forall k :: 0 <= k < r ==> q[k] != x
  {
    if q[0] == x then 0 else 1 + IndexOf(q[1..], x)
  }

  /** On a sorted list that holds `x`, bisect_left finds exactly the first copy of `x`. */
  lemma BisectLeftFindsFirstCopy(q: seq<Entry>, x: Entry)
    requires Sorted(q) && x in q
    ensures BisectLeft(q, x) == IndexOf(q, x)
  {
    var r, i := BisectLeft(q, x), IndexOf(q, x);
    BisectLeftSplits(q, x);
    LtIrreflexive(x);
    assert i >= r;
    if i > r {
      LtTotal(q[r], x);
    }
  }
}

/** What the per-turn reconciliation of the shadow queue against the engine's queue computes,
    stated as a left-to-right alignment with a cursor into last turn's shadow list.

    Each element of this turn's engine queue is, in order:
    - conquered, when it stands on a planet gained this turn: a new entry with the next sentinel
      priority takes its place and no shadow entry is consumed;
    - matched with the first remaining shadow entry that has its item and location; every shadow
      entry skipped on the way is lost (its planet was lost) or finished (it was completed);
    - unclassified, when the shadow list runs out before a match is found. From then on no
      element is matched any more, though elements on gained planets are still conquered.
    Shadow entries left over after the last engine element are lost or finished in the same way. */
module Reconciliation {
  import opened QueueOrder
  import opened Engine
  import opened ProductionPriority

  /** The outcome of one reconciliation pass: the new shadow list, the entries classified finished,
      lost and conquered (each in the order found), the engine indices left unclassified after a
      mismatch, and the invalid-priority counter afterwards. */
  datatype Reconciled = Reconciled(shadow: seq<Entry>, finished: seq<Entry>, lost: seq<Entry>,
                                   conquered: seq<Entry>, unclassified: seq<nat>, invalidCount: nat)

  /** The test that keeps a shadow entry: same item and same location (the item type is not compared). */
  predicate Matches(x: Entry, e: Element)
  {
    x.item == NameOf(e) && x.location == e.location
  }

  /** Index for index, the shadow list describes the engine's queue. */
  ghost predicate Aligned(shadow: seq<Entry>, elements: seq<Element>)
  {
    |shadow| == |elements| && forall i :: 0 <= i < |shadow| ==> Matches(shadow[i], elements[i])
  }

  /** The entry made for an element found on a newly gained planet. */
  function ConqueredEntry(e: Element, count: nat): (x: Entry)
    ensures Matches(x, e) && x.current == x.base == Sentinel(count)
  {
    var p := Sentinel(count);
    Entry(p, p, if e.buildType == BUILDING then BUILDING else SHIP, NameOf(e), e.location)
  }

  /** A dropped shadow entry is lost when its planet was lost, and finished otherwise. */
  function Drop(x: Entry, lostPlanets: set<int>, r: Reconciled): Reconciled
  {
    if x.location in lostPlanets then r.(lost := [x] + r.lost) else r.(finished := [x] + r.finished)
  }

  /** The engine elements from index `k` on, once matching has broken down. */
  function Unmatched(elements: seq<Element>, k: nat, gainedPlanets: set<int>, count: nat): Reconciled
  {
    if elements == [] then Reconciled([], [], [], [], [], count)
    else if elements[0].location in gainedPlanets then
      var c := ConqueredEntry(elements[0], count);
      var r := Unmatched(elements[1..], k + 1, gainedPlanets, count + 1);
      r.(shadow := [c] + r.shadow, conquered := [c] + r.conquered)
    else
      var r := Unmatched(elements[1..], k + 1, gainedPlanets, count);
      r.(unclassified := [k] + r.unclassified)
  }

  /** Reconciling the remaining shadow entries `rest` with the engine elements from index `k` on. */
  function Resolve(rest: seq<Entry>, elements: seq<Element>, k: nat,
                   lostPlanets: set<int>, gainedPlanets: set<int>, count: nat): Reconciled
    decreases |rest| + |elements|
  {
    if elements == [] then
      if rest == [] then Reconciled([], [], [], [], [], count)
      else Drop(rest[0], lostPlanets, Resolve(rest[1..], [], k, lostPlanets, gainedPlanets, count))
    else if elements[0].location in gainedPlanets then
      var c := ConqueredEntry(elements[0], count);
      var r := Resolve(rest, elements[1..], k + 1, lostPlanets, gainedPlanets, count + 1);
      r.(shadow := [c] + r.shadow, conquered := [c] + r.conquered)
    else if rest == [] then
      Unmatched(elements, k, gainedPlanets, count)
    else if Matches(rest[0], elements[0]) then
      var r := Resolve(rest[1..], elements[1..], k + 1, lostPlanets, gainedPlanets, count);
      r.(shadow := [rest[0]] + r.shadow)
    else
      Drop(rest[0], lostPlanets, Resolve(rest[1..], elements, k, lostPlanets, gainedPlanets, count))
  }

  /** Results found so far, followed by the result of the rest of the pass. */
  function After(shadow: seq<Entry>, finished: seq<Entry>, lost: seq<Entry>, conquered: seq<Entry>,
                 unclassified: seq<nat>, r: Reconciled): Reconciled
  {
    Reconciled(shadow + r.shadow, finished + r.finished, lost + r.lost, conquered + r.conquered,
               unclassified + r.unclassified, r.invalidCount)
  }

  // ---------------------------------------------------------------------------------------------
  // Properties of the alignment

  lemma {:induction false} UnmatchedShape(elements: seq<Element>, k: nat, gainedPlanets: set<int>, count: nat)
    ensures var r := Unmatched(elements, k, gainedPlanets, count);
      r.finished == [] && r.lost == [] && r.shadow == r.conquered
      && |r.shadow| + |r.unclassified| == |elements|
      && (r.unclassified == [] ==> Aligned(r.shadow, elements))
      && r.invalidCount == count + |r.conquered|
      && (forall j :: 0 <= j < |r.conquered| ==>
            r.conquered[j].current == r.conquered[j].base == Sentinel(count + j)
            && r.conquered[j].location in gainedPlanets)
    decreases |elements|
  {
    if elements != [] {
      var c := count + (if elements[0].location in gainedPlanets then 1 else 0);
      UnmatchedShape(elements[1..], k + 1, gainedPlanets, c);
      var r' := Unmatched(elements[1..], k + 1, gainedPlanets, c);
      var r := Unmatched(elements, k, gainedPlanets, count);
      if elements[0].location in gainedPlanets {
        if r.unclassified == [] {
          forall i | 0 <= i < |r.shadow| ensures Matches(r.shadow[i], elements[i]) {
            if i > 0 { assert Matches(r'.shadow[i - 1], elements[1..][i - 1]); }
          }
        }
        forall j | 0 <= j < |r.conquered|
          ensures r.conquered[j].current == r.conquered[j].base == Sentinel(count + j)
        {
          if j > 0 { assert r.conquered[j] == r'.conquered[j - 1]; }
        }
      }
    }
  }

  /** After a pass without a mismatch, the shadow list describes the engine's queue index for
      index; in every case it is no longer than the engine's queue. */
  lemma {:induction false} ResolveAligns(rest: seq<Entry>, elements: seq<Element>, k: nat,
                                         lostPlanets: set<int>, gainedPlanets: set<int>, count: nat)
    ensures var r := Resolve(rest, elements, k, lostPlanets, gainedPlanets, count);
      |r.shadow| + |r.unclassified| == |elements|
      && (r.unclassified == [] ==> Aligned(r.shadow, elements))
    decreases |rest| + |elements|
  {
    var r := Resolve(rest, elements, k, lostPlanets, gainedPlanets, count);
    if elements == [] {
      if rest != [] {
        ResolveAligns(rest[1..], [], k, lostPlanets, gainedPlanets, count);
      }
    } else if elements[0].location in gainedPlanets {
      ResolveAligns(rest, elements[1..], k + 1, lostPlanets, gainedPlanets, count + 1);
      var r' := Resolve(rest, elements[1..], k + 1, lostPlanets, gainedPlanets, count + 1);
      if r.unclassified == [] {
        forall i | 0 <= i < |r.shadow| ensures Matches(r.shadow[i], elements[i]) {
          if i > 0 { assert Matches(r'.shadow[i - 1], elements[1..][i - 1]); }
        }
      }
    } else if rest == [] {
      UnmatchedShape(elements, k, gainedPlanets, count);
    } else if Matches(rest[0], elements[0]) {
      ResolveAligns(rest[1..], elements[1..], k + 1, lostPlanets, gainedPlanets, count);
      var r' := Resolve(rest[1..], elements[1..], k + 1, lostPlanets, gainedPlanets, count);
      if r.unclassified == [] {
        forall i | 0 <= i < |r.shadow| ensures Matches(r.shadow[i], elements[i]) {
          if i > 0 { assert Matches(r'.shadow[i - 1], elements[1..][i - 1]); }
        }
      }
    } else {
      ResolveAligns(rest[1..], elements, k, lostPlanets, gainedPlanets, count);
    }
  }

  /** Every entry of `rest` is kept, finished or lost exactly once, and the kept list holds
      nothing else but conquered entries. */
  ghost predicate Balanced(rest: seq<Entry>, r: Reconciled)
  {
    multiset(r.shadow) + multiset(r.finished) + multiset(r.lost) == multiset(rest) + multiset(r.conquered)
  }

  lemma BalancedKeep(x: Entry, rest: seq<Entry>, r: Reconciled)
    requires Balanced(rest, r)
    ensures Balanced([x] + rest, r.(shadow := [x] + r.shadow))
  {
    var r2 := r.(shadow := [x] + r.shadow);
    assert multiset(r2.shadow) == multiset{x} + multiset(r.shadow);
    assert multiset([x] + rest) == multiset{x} + multiset(rest);
    forall y ensures (multiset(r2.shadow) + multiset(r2.finished) + multiset(r2.lost))[y]
                     == (multiset([x] + rest) + multiset(r2.conquered))[y] {
      assert (multiset(r.shadow) + multiset(r.finished) + multiset(r.lost))[y]
          == (multiset(rest) + multiset(r.conquered))[y];
    }
  }

  lemma BalancedConquer(c: Entry, rest: seq<Entry>, r: Reconciled)
    requires Balanced(rest, r)
    ensures Balanced(rest, r.(shadow := [c] + r.shadow, conquered := [c] + r.conquered))
  {
    var r2 := r.(shadow := [c] + r.shadow, conquered := [c] + r.conquered);
    assert multiset(r2.shadow) == multiset{c} + multiset(r.shadow);
    assert multiset(r2.conquered) == multiset{c} + multiset(r.conquered);
    forall y ensures (multiset(r2.shadow) + multiset(r2.finished) + multiset(r2.lost))[y]
                     == (multiset(rest) + multiset(r2.conquered))[y] {
      assert (multiset(r.shadow) + multiset(r.finished) + multiset(r.lost))[y]
          == (multiset(rest) + multiset(r.conquered))[y];
    }
  }

  lemma BalancedDrop(x: Entry, lostPlanets: set<int>, rest: seq<Entry>, r: Reconciled)
    requires Balanced(rest, r)
    ensures Balanced([x] + rest, Drop(x, lostPlanets, r))
  {
    var r2 := Drop(x, lostPlanets, r);
    assert multiset([x] + rest) == multiset{x} + multiset(rest);
    assert multiset([x] + r.lost) == multiset{x} + multiset(r.lost);
    assert multiset([x] + r.finished) == multiset{x} + multiset(r.finished);
    forall y ensures (multiset(r2.shadow) + multiset(r2.finished) + multiset(r2.lost))[y]
                     == (multiset([x] + rest) + multiset(r2.conquered))[y] {
      assert (multiset(r.shadow) + multiset(r.finished) + multiset(r.lost))[y]
          == (multiset(rest) + multiset(r.conquered))[y];
    }
  }

  /** Nothing is lost track of and nothing is invented: every entry of last turn's list is kept,
      finished or lost exactly once, and the new list holds nothing else but conquered entries. */
  lemma {:induction false} ResolveConserves(rest: seq<Entry>, elements: seq<Element>, k: nat,
                                            lostPlanets: set<int>, gainedPlanets: set<int>, count: nat)
    ensures Balanced(rest, Resolve(rest, elements, k, lostPlanets, gainedPlanets, count))
    decreases |rest| + |elements|
  {
    if elements == [] {
      if rest != [] {
        ResolveConserves(rest[1..], [], k, lostPlanets, gainedPlanets, count);
        BalancedDrop(rest[0], lostPlanets, rest[1..], Resolve(rest[1..], [], k, lostPlanets, gainedPlanets, count));
        assert rest == [rest[0]] + rest[1..];
      }
    } else if elements[0].location in gainedPlanets {
      ResolveConserves(rest, elements[1..], k + 1, lostPlanets, gainedPlanets, count + 1);
      BalancedConquer(ConqueredEntry(elements[0], count), rest,
                      Resolve(rest, elements[1..], k + 1, lostPlanets, gainedPlanets, count + 1));
    } else if rest == [] {
      UnmatchedShape(elements, k, gainedPlanets, count);
    } else if Matches(rest[0], elements[0]) {
      ResolveConserves(rest[1..], elements[1..], k + 1, lostPlanets, gainedPlanets, count);
      BalancedKeep(rest[0], rest[1..], Resolve(rest[1..], elements[1..], k + 1, lostPlanets, gainedPlanets, count));
      assert rest == [rest[0]] + rest[1..];
    } else {
      ResolveConserves(rest[1..], elements, k, lostPlanets, gainedPlanets, count);
      BalancedDrop(rest[0], lostPlanets, rest[1..], Resolve(rest[1..], elements, k, lostPlanets, gainedPlanets, count));
      assert rest == [rest[0]] + rest[1..];
    }
  }

  /** Lost entries are exactly the dropped ones on lost planets; conquered entries stand on gained
      planets and receive consecutive sentinel priorities, one counter step each. */
  lemma {:induction false} ResolveClassifies(rest: seq<Entry>, elements: seq<Element>, k: nat,
                                             lostPlanets: set<int>, gainedPlanets: set<int>, count: nat)
    ensures var r := Resolve(rest, elements, k, lostPlanets, gainedPlanets, count);
      (forall x :: x in r.lost ==> x.location in lostPlanets)
      && (forall x :: x in r.finished ==> x.location !in lostPlanets)
      && r.invalidCount == count + |r.conquered|
      && (forall j :: 0 <= j < |r.conquered| ==>
            r.conquered[j].current == r.conquered[j].base == Sentinel(count + j)
            && r.conquered[j].location in gainedPlanets)
    decreases |rest| + |elements|
  {
    var r := Resolve(rest, elements, k, lostPlanets, gainedPlanets, count);
    if elements == [] {
      if rest != [] {
        ResolveClassifies(rest[1..], [], k, lostPlanets, gainedPlanets, count);
      }
    } else if elements[0].location in gainedPlanets {
      ResolveClassifies(rest, elements[1..], k + 1, lostPlanets, gainedPlanets, count + 1);
      var r' := Resolve(rest, elements[1..], k + 1, lostPlanets, gainedPlanets, count + 1);
      forall j | 0 <= j < |r.conquered|
        ensures r.conquered[j].current == r.conquered[j].base == Sentinel(count + j)
      {
        if j > 0 { assert r.conquered[j] == r'.conquered[j - 1]; }
      }
    } else if rest == [] {
      UnmatchedShape(elements, k, gainedPlanets, count);
    } else if Matches(rest[0], elements[0]) {
      ResolveClassifies(rest[1..], elements[1..], k + 1, lostPlanets, gainedPlanets, count);
    } else {
      ResolveClassifies(rest[1..], elements, k, lostPlanets, gainedPlanets, count);
    }
  }

  /** With nothing conquered, the kept entries keep their relative order, so a sorted list stays sorted. */
  lemma {:induction false} ResolveKeepsOrder(rest: seq<Entry>, elements: seq<Element>, k: nat,
                                             lostPlanets: set<int>, gainedPlanets: set<int>, count: nat)
    requires Sorted(rest)
    requires Resolve(rest, elements, k, lostPlanets, gainedPlanets, count).conquered == []
    ensures Sorted(Resolve(rest, elements, k, lostPlanets, gainedPlanets, count).shadow)
    decreases |rest| + |elements|
  {
    if rest != [] {
      SortedTail(rest);
    }
    if elements == [] {
      if rest != [] {
        ResolveKeepsOrder(rest[1..], [], k, lostPlanets, gainedPlanets, count);
      }
    } else if elements[0].location in gainedPlanets {
    } else if rest == [] {
      UnmatchedShape(elements, k, gainedPlanets, count);
    } else if Matches(rest[0], elements[0]) {
      var r' := Resolve(rest[1..], elements[1..], k + 1, lostPlanets, gainedPlanets, count);
      ResolveKeepsOrder(rest[1..], elements[1..], k + 1, lostPlanets, gainedPlanets, count);
      ResolveConserves(rest[1..], elements[1..], k + 1, lostPlanets, gainedPlanets, count);
      forall y | y in r'.shadow
        ensures !Lt(y, rest[0])
      {
        assert multiset(r'.shadow) + multiset(r'.finished) + multiset(r'.lost) == multiset(rest[1..]);
        assert y in multiset(rest[1..]);
        SortedHeadLeast(rest, y);
      }
      SortedCons(rest[0], r'.shadow);
    } else {
      ResolveKeepsOrder(rest[1..], elements, k, lostPlanets, gainedPlanets, count);
    }
  }

  lemma SortedTail(q: seq<Entry>)
    requires Sorted(q) && q != []
    ensures Sorted(q[1..])
  {
    forall i, j | 0 <= i < j < |q[1..]|
      ensures !Lt(q[1..][j], q[1..][i])
    {
      assert q[1..][j] == q[j + 1] && q[1..][i] == q[i + 1];
    }
  }

  /** Nothing after the head of a sorted list is less than the head. */
  lemma SortedHeadLeast(q: seq<Entry>, y: Entry)
    requires Sorted(q) && q != [] && y in q[1..]
    ensures !Lt(y, q[0])
  {
    var m :| 0 <= m < |q[1..]| && q[1..][m] == y;
    assert q[m + 1] == y;
  }

  lemma SortedCons(x: Entry, s: seq<Entry>)
    requires Sorted(s) && forall y :: y in s ==> !Lt(y, x)
    ensures Sorted([x] + s)
  {
    forall i, j | 0 <= i < j < |[x] + s|
      ensures !Lt(([x] + s)[j], ([x] + s)[i])
    {
      assert ([x] + s)[j] == s[j - 1];
      if i > 0 {
        assert ([x] + s)[i] == s[i - 1];
      }
    }
  }

  // ---------------------------------------------------------------------------------------------
  // One step of the in-place pass: how a step moves one outcome from the part still to be done
  // into the part found so far.

  lemma StepConquer(P: seq<Entry>, F: seq<Entry>, Lo: seq<Entry>, C: seq<Entry>, U: seq<nat>,
                    rest: seq<Entry>, elements: seq<Element>, k: nat,
                    lostPlanets: set<int>, gainedPlanets: set<int>, count: nat)
    requires elements != [] && elements[0].location in gainedPlanets
    ensures var x := ConqueredEntry(elements[0], count);
      After(P, F, Lo, C, U, Resolve(rest, elements, k, lostPlanets, gainedPlanets, count))
      == After(P + [x], F, Lo, C + [x], U, Resolve(rest, elements[1..], k + 1, lostPlanets, gainedPlanets, count + 1))
  {
    var x := ConqueredEntry(elements[0], count);
    var r := Resolve(rest, elements[1..], k + 1, lostPlanets, gainedPlanets, count + 1);
    assert P + ([x] + r.shadow) == P + [x] + r.shadow;
    assert C + ([x] + r.conquered) == C + [x] + r.conquered;
  }

  lemma StepMatch(P: seq<Entry>, F: seq<Entry>, Lo: seq<Entry>, C: seq<Entry>, U: seq<nat>,
                  rest: seq<Entry>, elements: seq<Element>, k: nat,
                  lostPlanets: set<int>, gainedPlanets: set<int>, count: nat)
    requires elements != [] && elements[0].location !in gainedPlanets
    requires rest != [] && Matches(rest[0], elements[0])
    ensures After(P, F, Lo, C, U, Resolve(rest, elements, k, lostPlanets, gainedPlanets, count))
      == After(P + [rest[0]], F, Lo, C, U, Resolve(rest[1..], elements[1..], k + 1, lostPlanets, gainedPlanets, count))
  {
    var r := Resolve(rest[1..], elements[1..], k + 1, lostPlanets, gainedPlanets, count);
    assert P + ([rest[0]] + r.shadow) == P + [rest[0]] + r.shadow;
  }

  lemma StepDrop(P: seq<Entry>, F: seq<Entry>, Lo: seq<Entry>, C: seq<Entry>, U: seq<nat>,
                 rest: seq<Entry>, elements: seq<Element>, k: nat,
                 lostPlanets: set<int>, gainedPlanets: set<int>, count: nat)
    requires elements == [] || elements[0].location !in gainedPlanets
    requires rest != [] && (elements == [] || !Matches(rest[0], elements[0]))
    ensures var r := Resolve(rest[1..], elements, k, lostPlanets, gainedPlanets, count);
      After(P, F, Lo, C, U, Resolve(rest, elements, k, lostPlanets, gainedPlanets, count))
      == if rest[0].location in lostPlanets then After(P, F, Lo + [rest[0]], C, U, r)
         else After(P, F + [rest[0]], Lo, C, U, r)
  {
    var r := Resolve(rest[1..], elements, k, lostPlanets, gainedPlanets, count);
    assert Lo + ([rest[0]] + r.lost) == Lo + [rest[0]] + r.lost;
    assert F + ([rest[0]] + r.finished) == F + [rest[0]] + r.finished;
  }

  lemma StepUnmatched(P: seq<Entry>, F: seq<Entry>, Lo: seq<Entry>, C: seq<Entry>, U: seq<nat>,
                      elements: seq<Element>, k: nat, gainedPlanets: set<int>, count: nat)
    requires elements != []
    ensures var x := ConqueredEntry(elements[0], count);
      After(P, F, Lo, C, U, Unmatched(elements, k, gainedPlanets, count))
      == if elements[0].location in gainedPlanets
         then After(P + [x], F, Lo, C + [x], U, Unmatched(elements[1..], k + 1, gainedPlanets, count + 1))
         else After(P, F, Lo, C, U + [k], Unmatched(elements[1..], k + 1, gainedPlanets, count))
  {
    var x := ConqueredEntry(elements[0], count);
    if elements[0].location in gainedPlanets {
      var r := Unmatched(elements[1..], k + 1, gainedPlanets, count + 1);
      assert P + ([x] + r.shadow) == P + [x] + r.shadow;
      assert C + ([x] + r.conquered) == C + [x] + r.conquered;
    } else {
      var r := Unmatched(elements[1..], k + 1, gainedPlanets, count);
      assert U + ([k] + r.unclassified) == U + [k] + r.unclassified;
    }
  }

  // ---------------------------------------------------------------------------------------------
  // The position of the in-place pass, as a predicate on its state: the shadow list `q` (the
  // part before the cursor `i` done, the part from it on still last turn's), the counter, the
  // lists found so far, and whether matching has broken down.

  ghost predicate Cursor(goal: Reconciled, q: seq<Entry>, count: nat, elements: seq<Element>, i: nat, broken: bool,
                         lostPlanets: set<int>, gainedPlanets: set<int>,
                         F: seq<Entry>, Lo: seq<Entry>, C: seq<Entry>, U: seq<nat>)
  {
    i <= |elements| &&
    if broken then |q| <= i && goal == After(q, F, Lo, C, U, Unmatched(elements[i..], i, gainedPlanets, count))
    else i <= |q| && goal == After(q[..i], F, Lo, C, U, Resolve(q[i..], elements[i..], i, lostPlanets, gainedPlanets, count))
  }

  lemma CursorStart(q: seq<Entry>, count: nat, elements: seq<Element>, lostPlanets: set<int>, gainedPlanets: set<int>)
    ensures Cursor(Resolve(q, elements, 0, lostPlanets, gainedPlanets, count), q, count, elements, 0, false,
                   lostPlanets, gainedPlanets, [], [], [], [])
  {
    assert q[..0] == [] && q[0..] == q && elements[0..] == elements;
  }

  lemma CursorConquer(goal: Reconciled, q: seq<Entry>, count: nat, elements: seq<Element>, i: nat, broken: bool,
                      lostPlanets: set<int>, gainedPlanets: set<int>,
                      F: seq<Entry>, Lo: seq<Entry>, C: seq<Entry>, U: seq<nat>)
    requires Cursor(goal, q, count, elements, i, broken, lostPlanets, gainedPlanets, F, Lo, C, U)
    requires i < |elements| && elements[i].location in gainedPlanets
    ensures var x := ConqueredEntry(elements[i], count);
      Cursor(goal, PyInsert(q, i, x), count + 1, elements, i + 1, broken, lostPlanets, gainedPlanets, F, Lo, C + [x], U)
  {
    var x := ConqueredEntry(elements[i], count);
    var q' := PyInsert(q, i, x);
    assert elements[i..][0] == elements[i] && elements[i..][1..] == elements[i + 1..];
    if broken {
      StepUnmatched(q, F, Lo, C, U, elements[i..], i, gainedPlanets, count);
      assert q' == q + [x];
    } else {
      StepConquer(q[..i], F, Lo, C, U, q[i..], elements[i..], i, lostPlanets, gainedPlanets, count);
      assert q'[..i + 1] == q[..i] + [x] && q'[i + 1..] == q[i..];
    }
  }

  lemma CursorDrop(goal: Reconciled, q: seq<Entry>, count: nat, elements: seq<Element>, i: nat, broken: bool,
                   lostPlanets: set<int>, gainedPlanets: set<int>,
                   F: seq<Entry>, Lo: seq<Entry>, C: seq<Entry>, U: seq<nat>)
    requires Cursor(goal, q, count, elements, i, broken, lostPlanets, gainedPlanets, F, Lo, C, U)
    requires i < |elements| && elements[i].location !in gainedPlanets
    requires i < |q| && !Matches(q[i], elements[i])
    ensures var x := q[i];
      if x.location in lostPlanets
      then Cursor(goal, Remove(q, i), count, elements, i, broken, lostPlanets, gainedPlanets, F, Lo + [x], C, U)
      else Cursor(goal, Remove(q, i), count, elements, i, broken, lostPlanets, gainedPlanets, F + [x], Lo, C, U)
  {
    var q' := Remove(q, i);
    assert q[i..][0] == q[i] && elements[i..][0] == elements[i];
    StepDrop(q[..i], F, Lo, C, U, q[i..], elements[i..], i, lostPlanets, gainedPlanets, count);
    assert q'[..i] == q[..i] && q'[i..] == q[i..][1..];
  }

  lemma CursorMatch(goal: Reconciled, q: seq<Entry>, count: nat, elements: seq<Element>, i: nat, broken: bool,
                    lostPlanets: set<int>, gainedPlanets: set<int>,
                    F: seq<Entry>, Lo: seq<Entry>, C: seq<Entry>, U: seq<nat>)
    requires Cursor(goal, q, count, elements, i, broken, lostPlanets, gainedPlanets, F, Lo, C, U)
    requires i < |elements| && elements[i].location !in gainedPlanets
    requires i < |q| && Matches(q[i], elements[i])
    ensures Cursor(goal, q, count, elements, i + 1, broken, lostPlanets, gainedPlanets, F, Lo, C, U)
  {
    assert elements[i..][0] == elements[i] && elements[i..][1..] == elements[i + 1..];
    assert q[i..][0] == q[i] && q[i..][1..] == q[i + 1..];
    assert q[..i + 1] == q[..i] + [q[i]];
    StepMatch(q[..i], F, Lo, C, U, q[i..], elements[i..], i, lostPlanets, gainedPlanets, count);
  }

  lemma CursorUnmatched(goal: Reconciled, q: seq<Entry>, count: nat, elements: seq<Element>, i: nat, broken: bool,
                        lostPlanets: set<int>, gainedPlanets: set<int>,
                        F: seq<Entry>, Lo: seq<Entry>, C: seq<Entry>, U: seq<nat>)
    requires Cursor(goal, q, count, elements, i, broken, lostPlanets, gainedPlanets, F, Lo, C, U)
    requires i < |elements| && elements[i].location !in gainedPlanets
    requires |q| <= i
    ensures Cursor(goal, q, count, elements, i + 1, true, lostPlanets, gainedPlanets, F, Lo, C, U + [i])
  {
    assert elements[i..][0] == elements[i] && elements[i..][1..] == elements[i + 1..];
    if !broken {
      assert q[..i] == q && q[i..] == [];
    }
    StepUnmatched(q, F, Lo, C, U, elements[i..], i, gainedPlanets, count);
  }

  /** Past the last engine element: shadow entries from `j` on are still to be classified. */
  ghost predicate TailCursor(goal: Reconciled, q: seq<Entry>, count: nat, n: nat, j: nat,
                             lostPlanets: set<int>, gainedPlanets: set<int>,
                             F: seq<Entry>, Lo: seq<Entry>, C: seq<Entry>, U: seq<nat>)
  {
    n <= j <= |q| && goal == After(q[..n], F, Lo, C, U, Resolve(q[j..], [], n, lostPlanets, gainedPlanets, count))
  }

  lemma CursorTailStart(goal: Reconciled, q: seq<Entry>, count: nat, elements: seq<Element>,
                        lostPlanets: set<int>, gainedPlanets: set<int>,
                        F: seq<Entry>, Lo: seq<Entry>, C: seq<Entry>, U: seq<nat>)
    requires Cursor(goal, q, count, elements, |elements|, false, lostPlanets, gainedPlanets, F, Lo, C, U)
    ensures TailCursor(goal, q, count, |elements|, |elements|, lostPlanets, gainedPlanets, F, Lo, C, U)
  {
    assert elements[|elements|..] == [];
  }

  lemma CursorTailStep(goal: Reconciled, q: seq<Entry>, count: nat, n: nat, j: nat,
                       lostPlanets: set<int>, gainedPlanets: set<int>,
                       F: seq<Entry>, Lo: seq<Entry>, C: seq<Entry>, U: seq<nat>)
    requires TailCursor(goal, q, count, n, j, lostPlanets, gainedPlanets, F, Lo, C, U) && j < |q|
    ensures var x := q[j];
      if x.location in lostPlanets
      then TailCursor(goal, q, count, n, j + 1, lostPlanets, gainedPlanets, F, Lo + [x], C, U)
      else TailCursor(goal, q, count, n, j + 1, lostPlanets, gainedPlanets, F + [x], Lo, C, U)
  {
    assert q[j..][0] == q[j] && q[j..][1..] == q[j + 1..];
    StepDrop(q[..n], F, Lo, C, U, q[j..], [], n, lostPlanets, gainedPlanets, count);
  }

  lemma CursorTailEnd(goal: Reconciled, q: seq<Entry>, count: nat, n: nat,
                      lostPlanets: set<int>, gainedPlanets: set<int>,
                      F: seq<Entry>, Lo: seq<Entry>, C: seq<Entry>, U: seq<nat>)
    requires TailCursor(goal, q, count, n, |q|, lostPlanets, gainedPlanets, F, Lo, C, U)
    ensures goal == Reconciled(q[..n], F, Lo, C, U, count)
  {
    assert q[|q|..] == [];
  }

  lemma CursorBrokenEnd(goal: Reconciled, q: seq<Entry>, count: nat, elements: seq<Element>,
                        lostPlanets: set<int>, gainedPlanets: set<int>,
                        F: seq<Entry>, Lo: seq<Entry>, C: seq<Entry>, U: seq<nat>)
    requires Cursor(goal, q, count, elements, |elements|, true, lostPlanets, gainedPlanets, F, Lo, C, U)
    ensures |q| <= |elements| && goal == Reconciled(q, F, Lo, C, U, count)
  {
    assert elements[|elements|..] == [];
  }

  // ---------------------------------------------------------------------------------------------
  // How the orders the manager issues keep the shadow list aligned with the engine's queue.

  lemma AlignedRemove(q: seq<Entry>, elements: seq<Element>, idx: nat)
    requires Aligned(q, elements) && idx < |q|
    ensures Aligned(Remove(q, idx), elements[..idx] + elements[idx + 1..])
  {
  }

  lemma AlignedInsert(q: seq<Entry>, elements: seq<Element>, idx: nat, x: Entry, e: Element)
    requires Aligned(q, elements) && idx <= |q| && Matches(x, e)
    ensures Aligned(Insert(q, idx, x), elements[..idx] + [e] + elements[idx..])
  {
  }

  /** Taking an entry out and putting it back elsewhere mirrors the requeue of its element;
      putting it back where it was needs no requeue. */
  lemma AlignedReplace(q: seq<Entry>, elements: seq<Element>, idx: nat, to: nat, x: Entry)
    requires Aligned(q, elements) && idx < |q| && to < |q| && Matches(x, elements[idx])
    ensures Aligned(Insert(Remove(q, idx), to, x), Move(elements, idx, to))
    ensures to == idx ==> Move(elements, idx, to) == elements
  {
    var without := elements[..idx] + elements[idx + 1..];
    AlignedRemove(q, elements, idx);
    AlignedInsert(Remove(q, idx), without, to, x, elements[idx]);
    if to == idx {
      assert without[..idx] == elements[..idx] && without[idx..] == elements[idx + 1..];
      assert elements == elements[..idx] + [elements[idx]] + elements[idx + 1..];
    }
  }

  /** A building or ship appended at the tail of the engine's queue and then requeued to `to`. */
  lemma AlignedEnqueue(q: seq<Entry>, elements: seq<Element>, to: nat, x: Entry, e: Element)
    requires Aligned(q, elements) && to <= |q| && Matches(x, e)
    ensures Aligned(Insert(q, to, x), if to == |q| then elements + [e] else Move(elements + [e], |elements|, to))
  {
    var longer := elements + [e];
    assert longer[..|elements|] + longer[|elements| + 1..] == elements;
    assert elements[..|q|] == elements && elements[|q|..] == [];
    AlignedInsert(q, elements, to, x, e);
  }
}

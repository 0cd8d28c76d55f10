/**
 * The arithmetic and list shaping of the college routes
 * (backend/src/routes/colleges.js): pagination of the search, the sorted
 * list of distinct programs and the grouping of (state, city) counts by
 * state.
 */
module Colleges {
  import opened Wrappers
  import opened Text
  import opened Arith

  // ----- pagination -----

  /** What `searchCollegesSchema` admits for `page` and `limit`. */
  predicate ValidPaging(page: int, limit: int)
  {
    page >= 1 && 1 <= limit <= 50
  }

  /** `(page - 1) * limit`: the rows of the earlier pages. */
  function Skip(page: int, limit: int): (skip: nat)
    requires ValidPaging(page, limit)
    ensures skip % limit == 0 && skip / limit == page - 1
  {
    var s := (page - 1) * limit;
    MulDiv(page - 1, limit);
    s
  }

  /** `Math.ceil(total / limit)` for a row count `total`. */
  function Pages(total: nat, limit: nat): (pages: nat)
    requires limit >= 1
    ensures total == 0 ==> pages == 0
    ensures total > 0 ==> (pages - 1) * limit < total <= pages * limit
  {
    var p := (total + limit - 1) / limit;
    CeilBounds(total, limit, p);
    p
  }

  lemma CeilBounds(total: nat, limit: nat, p: nat)
    requires limit >= 1 && p == (total + limit - 1) / limit
    ensures total == 0 ==> p == 0
    ensures total > 0 ==> (p - 1) * limit < total <= p * limit
  {
    var r := (total + limit - 1) % limit;
    assert p * limit + r == total + limit - 1;
    assert (p - 1) * limit == p * limit - limit;
  }

  /** Every page from 1 to `pages` starts inside the result, and the page after it does not. */
  lemma PagesCoverResult(total: nat, page: int, limit: int)
    requires ValidPaging(page, limit)
    ensures page <= Pages(total, limit) <==> Skip(page, limit) < total
  {
    var p := Pages(total, limit);
    if page <= p {
      MulLe(page - 1, p - 1, limit);
    } else {
      MulLe(p, page - 1, limit);
    }
  }

  // ----- distinct programs -----

  predicate StrictlySorted(s: seq<string>)
  {
    forall i, j :: 0 <= i < j < |s| ==> Less(s[i], s[j])
  }

  /** Adds `x` to a sorted list of distinct strings, unless it is already there. */
  function Insert(x: string, s: seq<string>): (r: seq<string>)
    requires StrictlySorted(s)
    ensures StrictlySorted(r)
    ensures forall y :: y in r <==> y in s || y == x
    decreases |s|
  {
    if |s| == 0 then [x]
    else if x == s[0] then s
    else if Less(x, s[0]) then
      InsertFront(x, s);
      [x] + s
    else
      LessTotal(x, s[0]);
      var t := Insert(x, s[1..]);
      InsertBack(s[0], t, s[1..], x);
      [s[0]] + t
  }

  lemma InsertFront(x: string, s: seq<string>)
    requires StrictlySorted(s) && |s| > 0 && Less(x, s[0])
    ensures StrictlySorted([x] + s)
  {
    var r := [x] + s;
    forall i, j | 0 <= i < j < |r|
      ensures Less(r[i], r[j])
    {
      if i == 0 && j > 1 {
        LessTransitive(x, s[0], s[j - 1]);
      }
    }
  }

  lemma InsertBack(h: string, t: seq<string>, s: seq<string>, x: string)
    requires StrictlySorted([h] + s) && StrictlySorted(t) && Less(h, x)
    requires forall y :: y in t <==> y in s || y == x
    ensures StrictlySorted([h] + t)
  {
    var r := [h] + t;
    forall j | 0 < j < |r|
      ensures Less(h, r[j])
    {
      assert r[j] == t[j - 1] && t[j - 1] in t;
      if t[j - 1] != x {
        var k :| 0 <= k < |s| && s[k] == t[j - 1];
        assert ([h] + s)[0] == h && ([h] + s)[k + 1] == s[k];
      }
    }
  }

  /** The programs of every college, in the order `forEach` visits them. */
  function AllPrograms(colleges: seq<seq<string>>): (r: seq<string>)
    ensures forall y :: y in r <==> exists c :: c in colleges && y in c
  {
    if |colleges| == 0 then []
    else
      var front := colleges[..|colleges| - 1];
      assert colleges == front + [colleges[|colleges| - 1]];
      AllPrograms(front) + colleges[|colleges| - 1]
  }

  /** Adds each of `ps` in turn. */
  function InsertAll(ps: seq<string>, s: seq<string>): (r: seq<string>)
    requires StrictlySorted(s)
    ensures StrictlySorted(r)
    ensures forall y :: y in r <==> y in s || y in ps
    decreases |ps|
  {
    if |ps| == 0 then s
    else
      assert ps == [ps[0]] + ps[1..];
      InsertAll(ps[1..], Insert(ps[0], s))
  }

  /**
   * `Array.from(allPrograms).sort()`: the distinct programs, sorted. A set
   * keeps insertion order and the sort then reorders it, so the result is
   * the sorted list of the set whatever the visiting order.
   */
  function Programs(colleges: seq<seq<string>>): (r: seq<string>)
    ensures StrictlySorted(r)
    ensures forall y :: y in r <==> exists c :: c in colleges && y in c
  {
    InsertAll(AllPrograms(colleges), [])
  }

  /** Strictly sorted lists hold no duplicates. */
  lemma SortedDistinct(s: seq<string>)
    requires StrictlySorted(s)
    ensures forall i, j :: 0 <= i < j < |s| ==> s[i] != s[j]
  {
    forall i, j | 0 <= i < j < |s|
      ensures s[i] != s[j]
    {
      LessIrreflexive(s[i]);
    }
  }

  /** A strictly sorted list is fixed by its elements, so any sort of the same set gives this list. */
  lemma {:induction false} SortedUnique(a: seq<string>, b: seq<string>)
    requires StrictlySorted(a) && StrictlySorted(b)
    requires forall y :: y in a <==> y in b
    ensures a == b
    decreases |a|
  {
    if |a| > 0 {
      assert a[0] in b;
    }
    if |b| > 0 {
      assert b[0] in a;
    }
    if |a| > 0 {
      if a[0] != b[0] {
        var j :| 0 <= j < |b| && b[j] == a[0];
        var k :| 0 <= k < |a| && a[k] == b[0];
        LessAsymmetric(b[0], a[0]);
      }
      TailElements(a);
      TailElements(b);
      SortedUnique(a[1..], b[1..]);
      assert a == [a[0]] + a[1..] && b == [b[0]] + b[1..];
    }
  }

  /**
   * Any duplicate-free sorted list of exactly the programs offered is the
   * one `Programs` returns.
   */
  lemma ProgramsCanonical(colleges: seq<seq<string>>, r: seq<string>)
    requires StrictlySorted(r)
    requires forall y :: y in r <==> exists c :: c in colleges && y in c
    ensures r == Programs(colleges)
  {
    SortedUnique(r, Programs(colleges));
  }

  /** The tail of a strictly sorted list holds all elements but the head. */
  lemma TailElements(a: seq<string>)
    requires StrictlySorted(a) && |a| > 0
    ensures forall y :: y in a[1..] <==> y in a && y != a[0]
  {
    forall y | y in a && y != a[0]
      ensures y in a[1..]
    {
      var k :| 0 <= k < |a| && a[k] == y;
      assert a[1..][k - 1] == y;
    }
    forall i | 0 <= i < |a| - 1
      ensures a[1..][i] != a[0]
    {
      assert Less(a[0], a[i + 1]);
      LessIrreflexive(a[0]);
    }
  }

  // ----- locations -----

  /** One row of the `groupBy(['state', 'city'])` query, ordered by state and city. */
  datatype Location = Location(state: string, city: string, count: nat)

  datatype City = City(name: string, collegeCount: nat)

  datatype StateGroup = StateGroup(state: string, cities: seq<City>, totalColleges: nat)

  function CityTotal(cs: seq<City>): nat
  {
    if |cs| == 0 then 0 else CityTotal(cs[..|cs| - 1]) + cs[|cs| - 1].collegeCount
  }

  /** `stateData[state]`: the first group of that state. */
  function Lookup(gs: seq<StateGroup>, state: string): (g: Option<StateGroup>)
    ensures g.Some? ==> g.value.state == state
  {
    if |gs| == 0 then None else if gs[0].state == state then Some(gs[0]) else Lookup(gs[1..], state)
  }

  /** The group `l` creates or extends. */
  function Extend(g: Option<StateGroup>, l: Location): StateGroup
  {
    if g.None? then StateGroup(l.state, [City(l.city, l.count)], l.count)
    else StateGroup(g.value.state, g.value.cities + [City(l.city, l.count)], g.value.totalColleges + l.count)
  }

  /** One step of the `forEach`: create the state's entry if missing, then push the city and add its count. */
  function AddLocation(gs: seq<StateGroup>, l: Location): (r: seq<StateGroup>)
    ensures Lookup(r, l.state) == Some(Extend(Lookup(gs, l.state), l))
    ensures forall st :: st != l.state ==> Lookup(r, st) == Lookup(gs, st)
  {
    if |gs| == 0 then [Extend(None, l)]
    else if gs[0].state == l.state then [Extend(Some(gs[0]), l)] + gs[1..]
    else [gs[0]] + AddLocation(gs[1..], l)
  }

  /** `stateData` after every row. */
  function GroupByState(ls: seq<Location>): seq<StateGroup>
  {
    if |ls| == 0 then [] else AddLocation(GroupByState(ls[..|ls| - 1]), ls[|ls| - 1])
  }

  /** The city entries a state should receive: one per row of that state, in row order. */
  function CitiesOf(ls: seq<Location>, state: string): seq<City>
  {
    if |ls| == 0 then []
    else
      var l := ls[|ls| - 1];
      CitiesOf(ls[..|ls| - 1], state) + (if l.state == state then [City(l.city, l.count)] else [])
  }

  /**
   * A state has an entry exactly when some row has that state; its cities are
   * that state's rows in order and its total is the sum of their counts.
   */
  lemma {:induction false} GroupByStateContents(ls: seq<Location>, state: string)
    ensures Lookup(GroupByState(ls), state) ==
      if CitiesOf(ls, state) == [] then None
      else Some(StateGroup(state, CitiesOf(ls, state), CityTotal(CitiesOf(ls, state))))
  {
    if |ls| > 0 {
      var front := ls[..|ls| - 1];
      var l := ls[|ls| - 1];
      GroupByStateContents(front, state);
      assert GroupByState(ls) == AddLocation(GroupByState(front), l);
      if l.state == state {
        var cf := CitiesOf(front, state);
        var cs := cf + [City(l.city, l.count)];
        assert CitiesOf(ls, state) == cs;
        assert cs[..|cs| - 1] == cf;
        assert CityTotal(cs) == CityTotal(cf) + l.count;
      } else {
        assert CitiesOf(ls, state) == CitiesOf(front, state);
      }
    }
  }

  /** No state has two groups. */
  predicate DistinctStates(gs: seq<StateGroup>)
  {
    forall i, j :: 0 <= i < j < |gs| ==> gs[i].state != gs[j].state
  }

  /** Every state of `stateData` appears in it once, so `stateData[state]` is its only group. */
  lemma {:induction false} GroupByStateDistinct(ls: seq<Location>)
    ensures DistinctStates(GroupByState(ls))
  {
    if |ls| > 0 {
      GroupByStateDistinct(ls[..|ls| - 1]);
      AddLocationDistinct(GroupByState(ls[..|ls| - 1]), ls[|ls| - 1]);
    }
  }

  /** A step adds a group only for a state not seen before. */
  lemma {:induction false} AddLocationStates(gs: seq<StateGroup>, l: Location)
    ensures forall k :: 0 <= k < |AddLocation(gs, l)| ==>
      AddLocation(gs, l)[k].state == l.state || exists j :: 0 <= j < |gs| && gs[j].state == AddLocation(gs, l)[k].state
    decreases |gs|
  {
    var r := AddLocation(gs, l);
    if |gs| > 0 && gs[0].state == l.state {
      assert r[0].state == gs[0].state;
      assert forall k :: 1 <= k < |r| ==> r[k] == gs[k];
    } else if |gs| > 0 {
      var rest := AddLocation(gs[1..], l);
      AddLocationStates(gs[1..], l);
      assert r == [gs[0]] + rest;
      forall k | 1 <= k < |r|
        ensures r[k].state == l.state || exists j :: 0 <= j < |gs| && gs[j].state == r[k].state
      {
        assert r[k] == rest[k - 1];
        assert rest[k - 1].state == l.state || exists j :: 0 <= j < |gs[1..]| && gs[1..][j].state == rest[k - 1].state;
        if rest[k - 1].state != l.state {
          var j :| 0 <= j < |gs[1..]| && gs[1..][j].state == rest[k - 1].state;
          assert gs[j + 1].state == r[k].state;
        }
      }
    }
  }

  /** A step keeps the states distinct. */
  lemma {:induction false} AddLocationDistinct(gs: seq<StateGroup>, l: Location)
    requires DistinctStates(gs)
    ensures DistinctStates(AddLocation(gs, l))
    decreases |gs|
  {
    var r := AddLocation(gs, l);
    if |gs| > 0 && gs[0].state == l.state {
      assert r[0].state == gs[0].state;
      assert forall k :: 1 <= k < |r| ==> r[k] == gs[k];
    } else if |gs| > 0 {
      var rest := AddLocation(gs[1..], l);
      AddLocationDistinct(gs[1..], l);
      AddLocationStates(gs[1..], l);
      assert r == [gs[0]] + rest;
      forall i, j | 0 <= i < j < |r|
        ensures r[i].state != r[j].state
      {
        if i > 0 {
          assert r[i] == rest[i - 1] && r[j] == rest[j - 1];
        } else {
          assert r[j] == rest[j - 1];
          assert rest[j - 1].state == l.state || exists m :: 0 <= m < |gs[1..]| && gs[1..][m].state == rest[j - 1].state;
          if rest[j - 1].state != l.state {
            var m :| 0 <= m < |gs[1..]| && gs[1..][m].state == rest[j - 1].state;
            assert gs[m + 1].state == r[j].state;
          }
        }
      }
    }
  }

  /** A state has cities exactly when one of the rows belongs to it. */
  lemma {:induction false} CitiesOfPresent(ls: seq<Location>, state: string)
    ensures CitiesOf(ls, state) != [] <==> exists i :: 0 <= i < |ls| && ls[i].state == state
    ensures |CitiesOf(ls, state)| <= |ls|
  {
    if |ls| > 0 {
      var front := ls[..|ls| - 1];
      CitiesOfPresent(front, state);
      if exists i :: 0 <= i < |front| && front[i].state == state {
        var i :| 0 <= i < |front| && front[i].state == state;
        assert ls[i].state == state;
      }
      if exists i :: 0 <= i < |ls| && ls[i].state == state {
        var i :| 0 <= i < |ls| && ls[i].state == state;
        if i < |front| {
          assert front[i].state == state;
        }
      }
    }
  }
}

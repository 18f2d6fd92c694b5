/** Queries over the game's actor lists that both copies of GamePanel share:
    lane membership, the insertion-time space check, sorting along the lane,
    off-board culling and the frog's hit tests. */
module Spacing {
  import opened Board
  import opened Geometry
  import opened Actors

  datatype Option<T> = None | Some(value: T)

  function Abs(n: int): int {
    if n < 0 then -n else n
  }

  /** No actor appears twice. */
  ghost predicate Distinct(s: seq<Actor>) {
    forall i, j :: 0 <= i < j < |s| ==> s[i] != s[j]
  }

  ghost predicate AllOfKind(s: seq<Actor>, k: Kind) {
    forall a | a in s :: a.kind == k
  }

  ghost function Elems(s: seq<Actor>): set<Actor> {
    set a | a in s
  }

  /** Kind and size of every actor of a list, whatever lane it came from. */
  ghost predicate Sized(s: seq<Actor>, k: Kind) {
    forall a | a in s :: a.kind == k && a.w > 0 && a.h > 0
  }

  /** The road's two lists: each without repeats, every vehicle of positive size. */
  ghost predicate RoadReady(cars: seq<Actor>, trucks: seq<Actor>) {
    && Distinct(cars) && Distinct(trucks)
    && (forall a | a in Elems(cars) + Elems(trucks) :: a.w > 0 && a.h > 0)
  }

  /** The critter lane's two lists: each without repeats, every critter of positive size. */
  ghost predicate CritterReady(birds: seq<Actor>, snakes: seq<Actor>) {
    && Distinct(birds) && Distinct(snakes)
    && (forall a | a in Elems(birds) + Elems(snakes) :: a.w > 0 && a.h > 0)
  }

  /** Lane membership: the actor's y is less than `band` away from `laneY`. */
  predicate InLane(a: Actor, laneY: int, band: int) {
    Abs(a.y - laneY) < band
  }

  /** Some actor of `pool` lies in the lane. */
  ghost predicate Occupied(pool: set<Actor>, laneY: int, band: int) {
    exists a | a in pool :: InLane(a, laneY, band)
  }

  /** The space check: walks `pool` and answers false at the first actor in the lane
      whose bounds, widened by `gap`, intersect the candidate. */
  function Clear(pool: seq<Actor>, laneY: int, band: int, cand: Rect, gap: int): (ok: bool)
    reads set a | a in pool
    ensures ok <==> forall i :: 0 <= i < |pool| ==>
                      !(InLane(pool[i], laneY, band) && Intersects(Expanded(pool[i].Bounds(), gap), cand))
  {
    if pool == [] then true
    else if InLane(pool[0], laneY, band) && Intersects(Expanded(pool[0].Bounds(), gap), cand) then false
    else Clear(pool[1..], laneY, band, cand, gap)
  }

  /** Every two different actors of `pool` in the lane pass the widened test against each
      other: neither one's bounds, widened by `gap`, meet the other's. */
  ghost predicate LaneSpaced(pool: set<Actor>, laneY: int, band: int, gap: int)
    reads set a | a in pool && InLane(a, laneY, band)
  {
    forall a, b {:trigger Expanded(a.Bounds(), gap), b.Bounds()}
      | a in pool && b in pool && a != b && InLane(a, laneY, band) && InLane(b, laneY, band) ::
      !Intersects(Expanded(a.Bounds(), gap), b.Bounds())
  }

  /** Adding an actor that passed the space check keeps a lane spaced. */
  lemma Admit(pool: set<Actor>, a: Actor, laneY: int, band: int, gap: int)
    requires LaneSpaced(pool, laneY, band, gap)
    requires forall b | b in pool && InLane(b, laneY, band) :: b.w > 0 && b.h > 0
    requires forall b | b in pool && InLane(b, laneY, band) :: !Intersects(Expanded(b.Bounds(), gap), a.Bounds())
    requires a.w > 0 && a.h > 0 && gap >= 0
    ensures LaneSpaced(pool + {a}, laneY, band, gap)
  {
    forall b | b in pool && b != a && InLane(b, laneY, band) && InLane(a, laneY, band)
      ensures !Intersects(Expanded(a.Bounds(), gap), b.Bounds())
    {
      ExpandedSymmetric(a.Bounds(), b.Bounds(), gap);
    }
  }

  /** Actors added outside a lane do not disturb its spacing. */
  lemma AddOutsideLane(pool: set<Actor>, extra: set<Actor>, laneY: int, band: int, gap: int)
    requires LaneSpaced(pool, laneY, band, gap)
    requires forall a | a in extra :: !InLane(a, laneY, band)
    ensures LaneSpaced(pool + extra, laneY, band, gap)
  {
  }

  /** Horizontally clear co-lane actors are spaced. */
  lemma ClearIsSpaced(pool: set<Actor>, laneY: int, band: int, gap: int)
    requires forall a, b | a in pool && b in pool && a != b && InLane(a, laneY, band) && InLane(b, laneY, band) ::
               HorizontallyClear(a.Bounds(), b.Bounds(), gap)
    ensures LaneSpaced(pool, laneY, band, gap)
  {
    forall a, b | a in pool && b in pool && a != b && InLane(a, laneY, band) && InLane(b, laneY, band)
      ensures !Intersects(Expanded(a.Bounds(), gap), b.Bounds())
    {
      ClearNeverIntersects(a.Bounds(), b.Bounds(), gap);
    }
  }

  /** Removing actors keeps a lane spaced. */
  lemma SpacedSubset(pool: set<Actor>, kept: set<Actor>, laneY: int, band: int, gap: int)
    requires LaneSpaced(pool, laneY, band, gap) && kept <= pool
    ensures LaneSpaced(kept, laneY, band, gap)
  {
  }

  /** The actors of `s` in the lane, in their list order. */
  function InLaneOf(s: seq<Actor>, laneY: int, band: int): (r: seq<Actor>)
    ensures forall a | a in r :: a in s && InLane(a, laneY, band)
    ensures forall a | a in s && InLane(a, laneY, band) :: a in r
    ensures Distinct(s) ==> Distinct(r)
  {
    if s == [] then []
    else
      var rest := InLaneOf(s[1..], laneY, band);
      assert forall a | a in s[1..] :: a in s;
      if InLane(s[0], laneY, band) then
        assert Distinct(s) ==> s[0] !in s[1..];
        [s[0]] + rest
      else rest
  }

  lemma DistinctConcat(a: seq<Actor>, b: seq<Actor>)
    requires Distinct(a) && Distinct(b) && forall o | o in a :: o !in b
    ensures Distinct(a + b)
  {
    forall i, j | 0 <= i < j < |a + b| ensures (a + b)[i] != (a + b)[j] {
      if j < |a| {
      } else if i >= |a| {
        assert (a + b)[i] == b[i - |a|] && (a + b)[j] == b[j - |a|];
      } else {
        assert (a + b)[i] in a && (a + b)[j] in b;
      }
    }
  }

  /** Two lists of different kinds joined together have no repeated actor. */
  lemma DistinctKinds(a: seq<Actor>, ka: Kind, b: seq<Actor>, kb: Kind)
    requires Distinct(a) && Distinct(b) && AllOfKind(a, ka) && AllOfKind(b, kb) && ka != kb
    ensures Distinct(a + b)
  {
    DistinctConcat(a, b);
  }

  // ---------- ordering along the lane ----------

  /** `a` may come before `b` in the lane's sort order (ascending or descending x). */
  predicate Before(a: Actor, b: Actor, ascending: bool)
    reads a, b
  {
    if ascending then a.x <= b.x else a.x >= b.x
  }

  ghost predicate SortedAlong(s: seq<Actor>, ascending: bool)
    reads set a | a in s
  {
    forall i :: 0 < i < |s| ==> Before(s[i - 1], s[i], ascending)
  }

  /** A position `p` may come before a position `q` in the lane's sort order. */
  predicate BeforeAt(p: real, q: real, ascending: bool) {
    if ascending then p <= q else p >= q
  }

  /** Every actor of `s` has a recorded position in `key`. */
  predicate Keyed(s: seq<Actor>, key: map<Actor, real>) {
    forall o | o in s :: o in key
  }

  /** `s` is in the lane's sort order by the positions recorded in `key`. */
  predicate SortedAt(s: seq<Actor>, key: map<Actor, real>, ascending: bool)
    requires Keyed(s, key)
  {
    forall i | 0 < i < |s| :: BeforeAt(key[s[i - 1]], key[s[i]], ascending)
  }

  /** The current positions of the actors of `s`. */
  function XMap(s: seq<Actor>): (key: map<Actor, real>)
    reads set a | a in s
    ensures Keyed(s, key) && forall o | o in s :: key[o] == o.x
  {
    map a | a in s :: a.x
  }

  /** Insert `a` in front of the first element it may precede, by the positions in `key`. */
  function InsertAt(a: Actor, s: seq<Actor>, key: map<Actor, real>, ascending: bool): (r: seq<Actor>)
    requires a in key && Keyed(s, key)
    ensures multiset(r) == multiset(s) + multiset{a} && Keyed(r, key)
    ensures |r| > 0 && (r[0] == a || (|s| > 0 && r[0] == s[0]))
  {
    if s == [] then [a]
    else if BeforeAt(key[a], key[s[0]], ascending) then [a] + s
    else
      assert s == [s[0]] + s[1..];
      var rest := InsertAt(a, s[1..], key, ascending);
      assert forall o | o in [s[0]] + rest :: o == s[0] || o in rest;
      [s[0]] + rest
  }

  /** Putting `x` in front of a sorted list that it may precede keeps it sorted. */
  lemma SortedCons(x: Actor, t: seq<Actor>, key: map<Actor, real>, ascending: bool)
    requires x in key && Keyed(t, key) && SortedAt(t, key, ascending)
    requires t == [] || BeforeAt(key[x], key[t[0]], ascending)
    ensures Keyed([x] + t, key) && SortedAt([x] + t, key, ascending)
  {
    forall i | 0 < i < |[x] + t|
      ensures BeforeAt(key[([x] + t)[i - 1]], key[([x] + t)[i]], ascending)
    {
      if i > 1 {
        assert ([x] + t)[i - 1] == t[i - 2] && ([x] + t)[i] == t[i - 1];
      }
    }
  }

  /** Inserting into a sorted list keeps it sorted. */
  lemma {:induction false} InsertSorted(a: Actor, s: seq<Actor>, key: map<Actor, real>, ascending: bool)
    requires a in key && Keyed(s, key) && SortedAt(s, key, ascending)
    ensures SortedAt(InsertAt(a, s, key, ascending), key, ascending)
  {
    if s == [] {
    } else if BeforeAt(key[a], key[s[0]], ascending) {
      SortedCons(a, s, key, ascending);
    } else {
      assert forall i | 0 < i < |s[1..]| :: s[1..][i - 1] == s[i] && s[1..][i] == s[i + 1];
      InsertSorted(a, s[1..], key, ascending);
      var rest := InsertAt(a, s[1..], key, ascending);
      assert BeforeAt(key[s[0]], key[rest[0]], ascending);
      SortedCons(s[0], rest, key, ascending);
    }
  }

  /** The list sorted by the positions in `key` along the lane, by insertion (the model of
      `List.sort` with the lane's comparator; the order among equal positions is the list
      order). */
  function SortAt(s: seq<Actor>, key: map<Actor, real>, ascending: bool): (r: seq<Actor>)
    requires Keyed(s, key)
    ensures multiset(r) == multiset(s) && Keyed(r, key)
    ensures SortedAt(r, key, ascending)
  {
    if s == [] then []
    else
      assert s == [s[0]] + s[1..];
      var rest := SortAt(s[1..], key, ascending);
      InsertSorted(s[0], rest, key, ascending);
      InsertAt(s[0], rest, key, ascending)
  }

  lemma {:induction false} InsertAgree(a: Actor, s: seq<Actor>, key: map<Actor, real>, key': map<Actor, real>, ascending: bool)
    requires a in key && a in key' && Keyed(s, key) && Keyed(s, key')
    requires key[a] == key'[a] && forall o | o in s :: key[o] == key'[o]
    ensures InsertAt(a, s, key, ascending) == InsertAt(a, s, key', ascending)
  {
    if s != [] && !BeforeAt(key[a], key[s[0]], ascending) {
      InsertAgree(a, s[1..], key, key', ascending);
    }
  }

  /** The order depends on nothing but the positions of the sorted actors: two records
      that agree on them give the same order. */
  lemma {:induction false} SortAtAgree(s: seq<Actor>, key: map<Actor, real>, key': map<Actor, real>, ascending: bool)
    requires Keyed(s, key) && Keyed(s, key') && forall o | o in s :: key[o] == key'[o]
    ensures SortAt(s, key, ascending) == SortAt(s, key', ascending)
  {
    if s != [] {
      assert s == [s[0]] + s[1..];
      SortAtAgree(s[1..], key, key', ascending);
      var rest := SortAt(s[1..], key, ascending);
      PermutationFacts(s[1..], rest);
      InsertAgree(s[0], rest, key, key', ascending);
    }
  }

  /** The list sorted by x along the lane: sorted by the actors' current positions. */
  function SortByX(s: seq<Actor>, ascending: bool): (r: seq<Actor>)
    reads set a | a in s
    ensures SortedAlong(r, ascending)
    ensures multiset(r) == multiset(s)
  {
    var key := XMap(s);
    var r := SortAt(s, key, ascending);
    PermutationFacts(s, r);
    assert forall o | o in r :: key[o] == o.x;
    r
  }

  /** A permutation has the same elements, and of a list without repetitions it is one too. */
  lemma PermutationFacts(s: seq<Actor>, r: seq<Actor>)
    requires multiset(r) == multiset(s)
    ensures |r| == |s|
    ensures forall o | o in r :: o in s
    ensures forall o | o in s :: o in r
    ensures Distinct(s) ==> Distinct(r)
  {
    assert |r| == |multiset(r)| == |multiset(s)| == |s|;
    forall o | o in r ensures o in s { assert o in multiset(r); }
    forall o | o in s ensures o in r { assert o in multiset(s); }
    if Distinct(s) {
      DistinctCounts(s);
      forall i, j | 0 <= i < j < |r| ensures r[i] != r[j] {
        if r[i] == r[j] {
          TwiceCounted(r, i, j);
          assert false;
        }
      }
    }
  }

  lemma {:induction false} DistinctCounts(s: seq<Actor>)
    requires Distinct(s)
    ensures forall o :: multiset(s)[o] <= 1
  {
    if s != [] {
      assert s == [s[0]] + s[1..];
      DistinctCounts(s[1..]);
      assert s[0] !in multiset(s[1..]);
    }
  }

  lemma TwiceCounted(r: seq<Actor>, i: int, j: int)
    requires 0 <= i < j < |r| && r[i] == r[j]
    ensures multiset(r)[r[i]] >= 2
  {
    assert r == r[..j] + r[j..];
    assert r[i] in r[..j];
    assert r[j] in r[j..];
    assert multiset(r) == multiset(r[..j]) + multiset(r[j..]);
  }

  // ---------- culling ----------

  /** Kept by the off-board cleanup: not beyond the cull margin on either side. */
  predicate OnBoard(a: Actor)
    reads a
  {
    !(a.x < (-a.w - CULL_MARGIN) as real || a.x > (WIDTH + CULL_MARGIN) as real)
  }

  /** Wholly outside the board, to the left or to the right. */
  predicate OffBoard(a: Actor)
    reads a
  {
    a.x + a.w as real < 0.0 || a.x > WIDTH as real
  }

  /** `r` is `s` with some actors removed, the rest in their order: walking `s` from the
      front, each actor of `r` is met in turn. */
  predicate Subsequence(r: seq<Actor>, s: seq<Actor>)
    decreases |s|
  {
    if r == [] then true
    else if s == [] then false
    else if r[0] == s[0] then Subsequence(r[1..], s[1..])
    else Subsequence(r, s[1..])
  }

  /** `removeIf` with the off-board test: exactly the on-board actors remain, in order. */
  function Culled(s: seq<Actor>): (r: seq<Actor>)
    reads set a | a in s
    ensures forall a | a in r :: a in s && OnBoard(a)
    ensures forall a | a in s && OnBoard(a) :: a in r
    ensures forall i :: 0 <= i < |r| ==> OnBoard(r[i])
    ensures |r| <= |s|
    ensures Distinct(s) ==> Distinct(r)
    ensures Subsequence(r, s)
  {
    if s == [] then []
    else
      var rest := Culled(s[1..]);
      assert forall a | a in s[1..] :: a in s;
      if OnBoard(s[0]) then
        assert Distinct(s) ==> s[0] !in s[1..];
        [s[0]] + rest
      else rest
  }

  // ---------- the frog's tests ----------

  /** Some actor of `s` intersects the frog's rectangle `fr`. */
  function HitsAny(s: seq<Actor>, fr: Rect): (hit: bool)
    reads set a | a in s
    ensures hit <==> exists i :: 0 <= i < |s| && Intersects(s[i].Bounds(), fr)
  {
    if s == [] then false
    else if Intersects(s[0].Bounds(), fr) then true
    else
      var hit := HitsAny(s[1..], fr);
      assert forall i :: 0 < i < |s| ==> s[i] == s[1..][i - 1];
      hit
  }

  /** The speed of the first log under the frog, if any (the river's `carry`). */
  function FirstCarrier(logs: seq<Actor>, fr: Rect): (carry: Option<real>)
    reads set a | a in logs
    ensures carry.None? <==> forall i :: 0 <= i < |logs| ==> !Intersects(logs[i].Bounds(), fr)
    ensures carry.Some? ==> exists i :: 0 <= i < |logs| && Intersects(logs[i].Bounds(), fr)
                              && carry.value == logs[i].speed
                              && forall j :: 0 <= j < i ==> !Intersects(logs[j].Bounds(), fr)
  {
    if logs == [] then None
    else if Intersects(logs[0].Bounds(), fr) then Some(logs[0].speed)
    else
      var carry := FirstCarrier(logs[1..], fr);
      assert forall i :: 0 < i < |logs| ==> logs[i] == logs[1..][i - 1];
      if carry.Some? then
        ghost var k :| 0 <= k < |logs[1..]| && Intersects(logs[1..][k].Bounds(), fr)
                       && carry.value == logs[1..][k].speed
                       && forall j :: 0 <= j < k ==> !Intersects(logs[1..][j].Bounds(), fr);
        assert Intersects(logs[k + 1].Bounds(), fr) && carry.value == logs[k + 1].speed;
        assert forall j :: 0 <= j < k + 1 ==> !Intersects(logs[j].Bounds(), fr);
        carry
      else carry
  }
}

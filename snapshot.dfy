/**
 * What one successful poll derives from the fetched orders before it touches any state:
 * the newest-first list, whether any order is assigned, whether an assigned order is new
 * since the previous poll, and from those two which alarm calls the poll makes.
 */
module Snapshot {
  import opened Orders

  /** Newest first: timestamps never increase along the list. */
  ghost predicate NewestFirst(s: seq<Order>) {
    forall i, j :: 0 <= i < j < |s| ==> s[i].createdAt >= s[j].createdAt
  }

  /** The orders of `s` stamped `t`, in the order `s` has them. */
  function Stamped(s: seq<Order>, t: int): seq<Order> {
    if s == [] then []
    else (if s[0].createdAt == t then [s[0]] else []) + Stamped(s[1..], t)
  }

  /**
   * A sort is stable when, for every timestamp, the orders carrying it keep their
   * relative order: the comparator `b - a` reports such orders as equal.
   */
  ghost predicate StableFor(r: seq<Order>, s: seq<Order>) {
    forall t :: Stamped(r, t) == Stamped(s, t)
  }

  /** Places `x` before the first order of `r` that is not newer than it. */
  function Insert(x: Order, r: seq<Order>): (q: seq<Order>)
    requires NewestFirst(r)
    ensures NewestFirst(q)
    ensures |q| == |r| + 1 && (q[0] == x || (r != [] && q[0] == r[0]))
  {
    if r == [] || x.createdAt >= r[0].createdAt then
      [x] + r
    else
      var q' := Insert(x, r[1..]);
      assert r[0].createdAt >= q'[0].createdAt;
      [r[0]] + q'
  }

  /** Inserting adds `x` and loses nothing. */
  lemma {:induction false} InsertPermutes(x: Order, r: seq<Order>)
    requires NewestFirst(r)
    ensures multiset(Insert(x, r)) == multiset(r) + multiset{x}
  {
    if r != [] && x.createdAt < r[0].createdAt {
      InsertPermutes(x, r[1..]);
      assert r == [r[0]] + r[1..];
    }
  }

  /** Inserting `x` adds it at the front of the orders stamped like it and leaves every other timestamp alone. */
  lemma {:induction false} InsertStamped(x: Order, r: seq<Order>, t: int)
    requires NewestFirst(r)
    ensures Stamped(Insert(x, r), t) == (if x.createdAt == t then [x] else []) + Stamped(r, t)
  {
    if r == [] || x.createdAt >= r[0].createdAt {
      assert ([x] + r)[1..] == r;
    } else {
      var q' := Insert(x, r[1..]);
      assert ([r[0]] + q')[1..] == q';
      InsertStamped(x, r[1..], t);
      var head := if r[0].createdAt == t then [r[0]] else [];
      var xs := if x.createdAt == t then [x] else [];
      assert Stamped(r, t) == head + Stamped(r[1..], t);
      assert Stamped([r[0]] + q', t) == head + Stamped(q', t);
      assert head == [] || xs == [];
    }
  }

  /**
   * `[...data].sort((a, b) => b.createdAt - a.createdAt)`: ECMAScript requires a stable
   * sort, so equal timestamps keep the server's order.
   */
  function SortNewestFirst(s: seq<Order>): (r: seq<Order>)
    ensures NewestFirst(r)
    ensures multiset(r) == multiset(s)
    ensures StableFor(r, s)
  {
    if s == [] then []
    else
      var rest := SortNewestFirst(s[1..]);
      assert s == [s[0]] + s[1..];
      InsertPermutes(s[0], rest);
      assert StableFor(Insert(s[0], rest), s) by {
        forall t ensures Stamped(Insert(s[0], rest), t) == Stamped(s, t) {
          InsertStamped(s[0], rest, t);
        }
      }
      Insert(s[0], rest)
  }

  lemma {:induction false} StampedMember(s: seq<Order>, t: int, o: Order)
    requires o in Stamped(s, t)
    ensures o in s && o.createdAt == t
  {
    if s != [] {
      if o != s[0] || s[0].createdAt != t {
        StampedMember(s[1..], t, o);
      }
    }
  }

  lemma {:induction false} StampedHasFirst(s: seq<Order>)
    requires s != []
    ensures Stamped(s, s[0].createdAt) != []
  {
  }

  /** Two stable newest-first lists start with the same order. */
  lemma StableHeadsAgree(a: seq<Order>, b: seq<Order>)
    requires a != [] && b != []
    requires NewestFirst(a) && NewestFirst(b) && StableFor(a, b)
    ensures a[0] == b[0]
  {
    var ta, tb := a[0].createdAt, b[0].createdAt;
    StampedHasFirst(a);
    StampedMember(b, ta, Stamped(b, ta)[0]);
    StampedHasFirst(b);
    StampedMember(a, tb, Stamped(a, tb)[0]);
    assert ta == tb;
    assert Stamped(a, ta) == [a[0]] + Stamped(a[1..], ta);
    assert Stamped(b, ta) == [b[0]] + Stamped(b[1..], ta);
  }

  /** Dropping a common first order keeps two lists stable with respect to each other. */
  lemma StableTails(a: seq<Order>, b: seq<Order>)
    requires a != [] && b != [] && a[0] == b[0] && StableFor(a, b)
    ensures StableFor(a[1..], b[1..])
  {
    forall t ensures Stamped(a[1..], t) == Stamped(b[1..], t) {
      assert Stamped(a, t) == Stamped(b, t);
      var head := if a[0].createdAt == t then [a[0]] else [];
      assert Stamped(a, t) == head + Stamped(a[1..], t);
      assert Stamped(b, t) == head + Stamped(b[1..], t);
      assert Stamped(a[1..], t) == Stamped(a, t)[|head|..];
    }
  }

  /**
   * The stable newest-first order is unique: any two lists that are newest first and
   * stable with respect to one another are equal, so the model's insertion sort gives
   * exactly the list that any conforming `Array.prototype.sort` gives.
   */
  lemma {:induction false} StableNewestFirstUnique(a: seq<Order>, b: seq<Order>)
    requires NewestFirst(a) && NewestFirst(b) && StableFor(a, b)
    ensures a == b
    decreases |a| + |b|
  {
    if a == [] && b == [] {
    } else if a == [] {
      StampedHasFirst(b);
      assert false;
    } else if b == [] {
      StampedHasFirst(a);
      assert false;
    } else {
      StableHeadsAgree(a, b);
      StableTails(a, b);
      StableNewestFirstUnique(a[1..], b[1..]);
      assert a == [a[0]] + a[1..] && b == [b[0]] + b[1..];
    }
  }

  /** Any stable newest-first arrangement of the fetched orders is the one the model computes. */
  lemma SortNewestFirstIsTheStableSort(s: seq<Order>, r: seq<Order>)
    requires NewestFirst(r) && StableFor(r, s)
    ensures r == SortNewestFirst(s)
  {
    var q := SortNewestFirst(s);
    assert StableFor(r, q);
    StableNewestFirstUnique(r, q);
  }

  /** An assigned order whose id the previous poll did not return. */
  predicate IsNewAssigned(o: Order, prevOrderIds: seq<string>) {
    IsAssigned(o) && o.id !in prevOrderIds
  }

  /** `Array.prototype.some`: whether some order of `s` satisfies `p`. */
  function Any(s: seq<Order>, p: Order -> bool): (r: bool)
    ensures r <==> exists i :: 0 <= i < |s| && p(s[i])
  {
    if s == [] then false
    else
      var rest := Any(s[1..], p);
      assert rest ==> exists i :: 0 <= i < |s| && p(s[i]) by {
        if rest {
          var j :| 0 <= j < |s| - 1 && p(s[1..][j]);
          assert s[j + 1] == s[1..][j];
        }
      }
      assert (exists i :: 0 <= i < |s| && p(s[i])) ==> p(s[0]) || rest by {
        if exists i :: 0 <= i < |s| && p(s[i]) {
          var i :| 0 <= i < |s| && p(s[i]);
          if i > 0 { assert s[1..][i - 1] == s[i]; }
        }
      }
      p(s[0]) || rest
  }

  /** `orders.some(o => o.status.trim().toLowerCase() === 'assigned')`. */
  function HasAssigned(s: seq<Order>): (r: bool)
    ensures r <==> exists i :: 0 <= i < |s| && IsAssigned(s[i])
  {
    Any(s, IsAssigned)
  }

  /** Some assigned order's id is missing from `prevOrderIds`. */
  function IsNewAssignedOrder(s: seq<Order>, prevOrderIds: seq<string>): (r: bool)
    ensures r <==> exists i :: 0 <= i < |s| && IsNewAssigned(s[i], prevOrderIds)
  {
    Any(s, o => IsNewAssigned(o, prevOrderIds))
  }

  /** `orders.map(o => o._id)`. */
  function Ids(s: seq<Order>): (r: seq<string>)
    ensures |r| == |s|
    ensures forall i :: 0 <= i < |s| ==> r[i] == s[i].id
  {
    if s == [] then [] else [s[0].id] + Ids(s[1..])
  }

  /** The alarm calls one poll makes: `triggerAlarm()` and/or `stopAlarm()`. */
  datatype AlarmCalls = AlarmCalls(trigger: bool, stop: bool)

  /**
   * The alarm decision of one poll: trigger on an edge (an assigned order whose id was
   * not seen last time), stop on a level (no assigned order at all). The two never
   * coincide, since a new assigned order is in particular an assigned order.
   */
  function Decide(s: seq<Order>, prevOrderIds: seq<string>): (c: AlarmCalls)
    ensures c.trigger <==> exists i :: 0 <= i < |s| && IsNewAssigned(s[i], prevOrderIds)
    ensures c.stop <==> forall i :: 0 <= i < |s| ==> !IsAssigned(s[i])
    ensures !(c.trigger && c.stop)
  {
    AlarmCalls(IsNewAssignedOrder(s, prevOrderIds), !HasAssigned(s))
  }

  /** A poll that returns one order. */
  lemma SingleOrderPoll(o: Order, prevOrderIds: seq<string>)
    ensures SortNewestFirst([o]) == [o] && Ids([o]) == [o.id]
    ensures Decide([o], prevOrderIds) == AlarmCalls(IsAssigned(o) && o.id !in prevOrderIds, !IsAssigned(o))
  {
    assert [o][1..] == [];
  }

  /** Whether an order is assigned depends on its status alone. */
  lemma SameStatusSameAssigned(x: Order, y: Order)
    requires x.status == y.status
    ensures IsAssigned(x) == IsAssigned(y)
  {
  }

  /** The decision reads nothing of an order but its status and its id. */
  lemma DecideSeesOnlyStatusAndId(a: seq<Order>, b: seq<Order>, prevOrderIds: seq<string>)
    requires |a| == |b|
    requires forall i :: 0 <= i < |a| ==> a[i].status == b[i].status && a[i].id == b[i].id
    ensures Decide(a, prevOrderIds) == Decide(b, prevOrderIds)
  {
    var da, db := Decide(a, prevOrderIds), Decide(b, prevOrderIds);
    if da.trigger {
      var i :| 0 <= i < |a| && IsNewAssigned(a[i], prevOrderIds);
      SameStatusSameAssigned(a[i], b[i]);
      assert IsNewAssigned(b[i], prevOrderIds);
    }
    if db.trigger {
      var i :| 0 <= i < |b| && IsNewAssigned(b[i], prevOrderIds);
      SameStatusSameAssigned(a[i], b[i]);
      assert IsNewAssigned(a[i], prevOrderIds);
    }
    if !da.stop {
      var i :| 0 <= i < |a| && IsAssigned(a[i]);
      SameStatusSameAssigned(a[i], b[i]);
      assert IsAssigned(b[i]);
    }
    if !db.stop {
      var i :| 0 <= i < |b| && IsAssigned(b[i]);
      SameStatusSameAssigned(a[i], b[i]);
      assert IsAssigned(a[i]);
    }
  }

  /** The decision depends on which orders arrived, not on their order. */
  lemma DecideIgnoresOrder(a: seq<Order>, b: seq<Order>, prevOrderIds: seq<string>)
    requires multiset(a) == multiset(b)
    ensures Decide(a, prevOrderIds) == Decide(b, prevOrderIds)
  {
    forall i | 0 <= i < |a| ensures a[i] in b {
      assert a[i] in multiset(b);
    }
    forall i | 0 <= i < |b| ensures b[i] in a {
      assert b[i] in multiset(a);
    }
  }

  /**
   * Edge triggering: when every assigned order of the next poll already had its id among
   * the previous poll's orders, the next poll does not trigger the alarm. In particular a
   * poll that returns the same orders again never triggers.
   */
  lemma NoTriggerWithoutNewId(prev: seq<Order>, next: seq<Order>)
    requires forall o :: o in next && IsAssigned(o) ==> o.id in Ids(prev)
    ensures !Decide(SortNewestFirst(next), Ids(SortNewestFirst(prev))).trigger
  {
    var s, p := SortNewestFirst(next), SortNewestFirst(prev);
    forall i | 0 <= i < |s| ensures !IsNewAssigned(s[i], Ids(p)) {
      if IsAssigned(s[i]) {
        assert s[i] in multiset(next);
        IdsOfPermutation(prev, p, s[i].id);
      }
    }
  }

  /** Two lists with the same orders have the same ids. */
  lemma IdsOfPermutation(a: seq<Order>, b: seq<Order>, id: string)
    requires multiset(a) == multiset(b)
    requires id in Ids(a)
    ensures id in Ids(b)
  {
    var k :| 0 <= k < |a| && Ids(a)[k] == id;
    assert a[k] in multiset(b);
    var j :| 0 <= j < |b| && b[j] == a[k];
    assert Ids(b)[j] == id;
  }

  /** Fetching the same orders twice in a row does not trigger on the second poll. */
  lemma RefetchDoesNotTrigger(data: seq<Order>)
    ensures !Decide(SortNewestFirst(data), Ids(SortNewestFirst(data))).trigger
  {
    forall o | o in data && IsAssigned(o) ensures o.id in Ids(data) {
      var k :| 0 <= k < |data| && data[k] == o;
      assert Ids(data)[k] == o.id;
    }
    NoTriggerWithoutNewId(data, data);
  }
}

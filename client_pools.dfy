/** The connection pools of a JPPF client (AbstractJPPFClient): connections grouped by
    priority into pools, each pool handing out its connections round-robin, and the
    selection of an ACTIVE connection from the highest-priority pool that has one,
    pruning FAILED connections and emptied pools on the way.

    The pools live in a TreeMap ordered by a descending comparator; the model keeps the
    map and, beside it, its keys in the comparator's order. The status of a connection
    is changed by other threads; the model takes it as a snapshot, a function from
    connection to status, fixed for one scan of the pools. */
module ClientPools {
  import opened JavaLang

  /** JPPFClientConnectionStatus. */
  datatype Status = New | Disconnected | Connecting | Active | Executing | Failed

  /** A driver connection: its name, its priority and an identity (connections are
      compared by reference). */
  datatype Connection = Connection(name: string, priority: int, id: nat)

  /** The status of every connection at one point in time. */
  type Snapshot = Connection -> Status

  // ---------------------------------------------------------------------------
  // DescendingIntegerComparator, the order of the pools map.
  // ---------------------------------------------------------------------------

  /** The comparator as written: the 32-bit difference o2 - o1. */
  function CompareDescendingAsWritten(o1: int, o2: int): (r: int)
    requires IsInt(o1) && IsInt(o2)
    ensures IsInt(r)
  {
    WrapInt(o2 - o1)
  }

  /** The documented comparator: -1 if o1 > o2, 0 if equal, 1 if o1 < o2. */
  function CompareDescending(o1: int, o2: int): (r: int)
    ensures r == -1 || r == 0 || r == 1
    ensures r < 0 <==> o1 > o2
    ensures r == 0 <==> o1 == o2
    ensures r > 0 <==> o1 < o2
  {
    if o1 > o2 then -1 else if o1 == o2 then 0 else 1
  }

  /** The documented comparator is a total order: antisymmetric and transitive. */
  lemma CompareDescendingIsOrder(a: int, b: int, c: int)
    ensures CompareDescending(a, b) == -CompareDescending(b, a)
    ensures CompareDescending(a, b) < 0 && CompareDescending(b, c) < 0 ==> CompareDescending(a, c) < 0
    ensures CompareDescending(a, b) == 0 ==> CompareDescending(a, c) == CompareDescending(b, c)
  {
  }

  /** Where the subtraction does not overflow, the comparator as written orders
      priorities as documented. */
  lemma CompareDescendingAgreesWithoutOverflow(o1: int, o2: int)
    requires IsInt(o1) && IsInt(o2) && IsInt(o2 - o1)
    ensures Sign(CompareDescendingAsWritten(o1, o2)) == CompareDescending(o1, o2)
  {
  }

  /** The comparator as written puts Integer.MIN_VALUE before 1 in a descending order,
      and is not transitive: 1 before 0 and 0 before MIN_VALUE, yet MIN_VALUE before 1. */
  lemma CompareDescendingAsWrittenOverflows()
    ensures CompareDescendingAsWritten(1, INT_MIN) > 0
    ensures CompareDescending(1, INT_MIN) < 0
    ensures CompareDescendingAsWritten(1, 0) < 0 && CompareDescendingAsWritten(0, INT_MIN) < 0
  {
  }

  // ---------------------------------------------------------------------------
  // One pool: its list of connections and its round-robin cursor.
  // ---------------------------------------------------------------------------

  /** The contents of a ClientPool. */
  datatype PoolState = PoolState(list: seq<Connection>, lastUsedIndex: int)

  /** What a pool always satisfies: a connection appears once, the list size fits an
      int, and the cursor is at least -1 and can be incremented without overflow. */
  predicate PoolValid(p: PoolState) {
    Distinct(p.list) && |p.list| <= INT_MAX && -1 <= p.lastUsedIndex < INT_MAX
  }

  /** The slot nextClient moves the cursor to. */
  function Start(p: PoolState): (i: int)
    requires PoolValid(p) && |p.list| > 0
    ensures 0 <= i < |p.list|
  {
    (p.lastUsedIndex + 1) % |p.list|
  }

  /** ClientPool.nextClient on a pool's contents: the returned connection, if any, and
      the new contents. */
  function Next(p: PoolState): (r: (Option<Connection>, PoolState))
    requires PoolValid(p)
    ensures r.0.None? <==> |p.list| == 0
    ensures r.1.list == p.list && PoolValid(r.1)
    ensures r.0.Some? ==> 0 <= r.1.lastUsedIndex < |p.list| && r.0.value == p.list[r.1.lastUsedIndex]
  {
    if |p.list| == 0 then (None, p)
    else (Some(p.list[Start(p)]), PoolState(p.list, Start(p)))
  }

  /** The list read from slot s round to slot s - 1. */
  function RotateAt(l: seq<Connection>, s: int): (r: seq<Connection>)
    requires 0 <= s <= |l|
    ensures |r| == |l|
  {
    l[s..] + l[..s]
  }

  /** The connections of a pool in the order nextClient hands them out, starting with
      the one after the cursor. */
  function Rotation(p: PoolState): (r: seq<Connection>)
    requires PoolValid(p)
    ensures |r| == |p.list|
  {
    if |p.list| == 0 then [] else RotateAt(p.list, Start(p))
  }

  /** The rotation holds the connections of the pool, each as often. */
  lemma RotationPermutes(p: PoolState)
    requires PoolValid(p)
    ensures multiset(Rotation(p)) == multiset(p.list)
  {
    if |p.list| > 0 {
      var s := Start(p);
      assert p.list == p.list[..s] + p.list[s..];
    }
  }

  lemma RotateAtAdvance(l: seq<Connection>, i: int)
    requires 0 <= i < |l|
    ensures RotateAt(l, i)[0] == l[i]
    ensures RotateAt(l, if i + 1 < |l| then i + 1 else 0) == RotateAt(l, i)[1..] + [l[i]]
  {
    if i + 1 < |l| {
      assert l[..i + 1] == l[..i] + [l[i]];
    } else {
      assert l == l[..i] + [l[i]];
    }
  }

  lemma RotateAtRemove(l: seq<Connection>, i: int)
    requires 0 <= i < |l|
    ensures var m := l[..i] + l[i + 1..];
      && (|m| > 0 ==> RotateAt(m, if i < |m| then i else 0) == RotateAt(l, i)[1..])
      && (|m| == 0 ==> RotateAt(l, i)[1..] == [])
  {
    var m := l[..i] + l[i + 1..];
    if i < |m| {
      assert m[i..] == l[i + 1..];
      assert m[..i] == l[..i];
    } else {
      assert m == l[..i];
    }
  }

  lemma ModStep(n: int, i: int)
    requires 0 <= i < n
    ensures (i + 1) % n == if i + 1 < n then i + 1 else 0
  {
  }

  lemma ModSmall(n: int, i: int)
    requires 0 <= i <= n && n > 0
    ensures i % n == if i < n then i else 0
  {
  }

  /** After nextClient, the rotation starts one further on and ends with the connection
      just handed out. */
  lemma RotationAdvance(p: PoolState)
    requires PoolValid(p) && |p.list| > 0
    ensures Rotation(p)[0] == p.list[Start(p)]
    ensures Rotation(PoolState(p.list, Start(p))) == Rotation(p)[1..] + [p.list[Start(p)]]
  {
    ModStep(|p.list|, Start(p));
    RotateAtAdvance(p.list, Start(p));
  }

  /** Removing the connection just handed out and stepping the cursor back by one keeps
      the rest of the rotation as it was. */
  lemma RotationRemove(p: PoolState)
    requires PoolValid(p) && |p.list| > 0
    ensures var q := PoolState(RemoveFirst(p.list, p.list[Start(p)]), Start(p) - 1);
      PoolValid(q) && Rotation(q) == Rotation(p)[1..]
  {
    var i := Start(p);
    var m := p.list[..i] + p.list[i + 1..];
    RemoveFirstDistinct(p.list, i);
    DistinctRemoveFirst(p.list, p.list[i]);
    var q := PoolState(m, i - 1);
    assert PoolValid(q);
    RotateAtRemove(p.list, i);
    assert Rotation(p) == RotateAt(p.list, i);
    if |m| > 0 {
      ModSmall(|m|, i);
      assert Start(q) == (if i < |m| then i else 0);
    }
  }

  /** Repeated nextClient calls: the first k connections handed out. */
  function NextCalls(p: PoolState, k: nat): (r: seq<Connection>)
    requires PoolValid(p)
    ensures |p.list| > 0 ==> |r| == k
    decreases k
  {
    if k == 0 || |p.list| == 0 then []
    else
      var r := Next(p);
      [r.0.value] + NextCalls(r.1, k - 1)
  }

  /** Round robin: up to a full cycle, nextClient hands out the rotation of the pool, so
      a full cycle hands out every connection exactly once. */
  lemma {:induction false} NextCallsRoundRobin(p: PoolState, k: nat)
    requires PoolValid(p) && k <= |p.list|
    ensures NextCalls(p, k) == Rotation(p)[..k]
    ensures k == |p.list| ==> multiset(NextCalls(p, k)) == multiset(p.list)
    decreases k
  {
    if k > 0 {
      var q := PoolState(p.list, Start(p));
      RotationAdvance(p);
      NextCallsRoundRobin(q, k - 1);
      assert NextCalls(p, k) == [p.list[Start(p)]] + NextCalls(q, k - 1);
      assert Rotation(q)[..k - 1] == Rotation(p)[1..k];
      assert Rotation(p)[..k] == [Rotation(p)[0]] + Rotation(p)[1..k];
    }
    if k == |p.list| {
      assert Rotation(p)[..k] == Rotation(p);
      RotationPermutes(p);
    }
  }

  /** The connections of xs whose status is not FAILED, in order. */
  function Kept(xs: seq<Connection>, st: Snapshot): (r: seq<Connection>)
    ensures forall c :: c in r <==> c in xs && st(c) != Failed
    decreases |xs|
  {
    if |xs| == 0 then []
    else
      assert xs == xs[..|xs| - 1] + [xs[|xs| - 1]];
      Kept(xs[..|xs| - 1], st) + (if st(xs[|xs| - 1]) == Failed then [] else [xs[|xs| - 1]])
  }

  lemma KeptSnoc(xs: seq<Connection>, j: int, st: Snapshot)
    requires 0 <= j < |xs|
    ensures Kept(xs[..j + 1], st) == Kept(xs[..j], st) + (if st(xs[j]) == Failed then [] else [xs[j]])
  {
    assert xs[..j + 1][..j] == xs[..j];
  }

  /** Removing an element keeps a list free of duplicates. */
  lemma {:induction false} DistinctRemoveFirst(s: seq<Connection>, x: Connection)
    requires Distinct(s)
    ensures Distinct(RemoveFirst(s, x))
    decreases |s|
  {
    if |s| > 0 && s[0] != x {
      var t := s[1..];
      assert Distinct(t) by {
        forall a, b | 0 <= a < b < |t| ensures t[a] != t[b] {
          assert t[a] == s[a + 1] && t[b] == s[b + 1];
        }
      }
      DistinctRemoveFirst(t, x);
      RemoveFirstSubset(t, x);
      var u := RemoveFirst(t, x);
      assert s[0] !in t;
      assert s[0] !in u;
      assert RemoveFirst(s, x) == [s[0]] + u;
    }
  }

  /** The result of scanning one pool: the ACTIVE connection found, if any, and the new
      contents of the pool. */
  datatype PoolScan = PoolScan(found: Option<Connection>, pool: PoolState)

  /** The scan of one pool inside getClientConnection, corrected: examine, from the
      connection after the cursor, each of the `remaining` connections once; stop at an
      ACTIVE one; remove a FAILED one and step the cursor back so that the connection
      that slides into its slot is examined next. */
  function ScanPool(p: PoolState, remaining: nat, st: Snapshot): (r: PoolScan)
    requires PoolValid(p)
    ensures PoolValid(r.pool)
    ensures r.found.Some? ==> st(r.found.value) == Active && r.found.value in r.pool.list
    ensures forall c :: c in r.pool.list ==> c in p.list
    decreases remaining
  {
    if remaining == 0 || |p.list| == 0 then PoolScan(None, p)
    else
      var c := p.list[Start(p)];
      if st(c) == Active then PoolScan(Some(c), PoolState(p.list, Start(p)))
      else if st(c) == Failed then
        DistinctRemoveFirst(p.list, c);
        RemoveFirstSubset(p.list, c);
        ScanPool(PoolState(RemoveFirst(p.list, c), Start(p) - 1), remaining - 1, st)
      else ScanPool(PoolState(p.list, Start(p)), remaining - 1, st)
  }

  /** One step of the scan, in terms of nextClient. */
  lemma ScanPoolStep(p: PoolState, n: nat, st: Snapshot)
    requires PoolValid(p) && n > 0 && |p.list| > 0
    ensures var q := Next(p).1; var c := Next(p).0.value;
      PoolValid(PoolState(RemoveFirst(q.list, c), q.lastUsedIndex - 1))
    ensures var q := Next(p).1; var c := Next(p).0.value;
      && (st(c) == Active ==> ScanPool(p, n, st) == PoolScan(Some(c), q))
      && (st(c) == Failed ==> ScanPool(p, n, st) == ScanPool(PoolState(RemoveFirst(q.list, c), q.lastUsedIndex - 1), n - 1, st))
      && (st(c) != Active && st(c) != Failed ==> ScanPool(p, n, st) == ScanPool(q, n - 1, st))
  {
    DistinctRemoveFirst(p.list, p.list[Start(p)]);
  }

  /** The scan invariant: after examining R[..j], none of them ACTIVE, the rotation of
      the pool is the unexamined R[j..] followed by the examined connections kept. */
  ghost predicate ScanAt(p: PoolState, st: Snapshot, R: seq<Connection>, j: int)
    requires PoolValid(p)
  {
    0 <= j <= |R| && Rotation(p) == R[j..] + Kept(R[..j], st)
    && forall k :: 0 <= k < j ==> st(R[k]) != Active
  }

  /** What a scan from ScanAt(p, st, R, j) ends with. */
  ghost predicate ScanEnds(r: PoolScan, st: Snapshot, R: seq<Connection>, j: int)
    requires 0 <= j <= |R|
  {
    && (r.found.None? ==>
          (forall k :: 0 <= k < |R| ==> st(R[k]) != Active)
          && multiset(r.pool.list) == multiset(Kept(R, st)))
    && (r.found.Some? ==>
          exists m :: j <= m < |R| && R[m] == r.found.value
            && (forall k :: 0 <= k < m ==> st(R[k]) != Active)
            && multiset(r.pool.list) == multiset(R[m..] + Kept(R[..m], st)))
  }

  lemma ScanStepHead(p: PoolState, st: Snapshot, R: seq<Connection>, j: int)
    requires PoolValid(p) && ScanAt(p, st, R, j) && j < |R|
    ensures |p.list| > 0 && p.list[Start(p)] == R[j]
    ensures Rotation(p)[1..] == R[j + 1..] + Kept(R[..j], st)
  {
    var K := Kept(R[..j], st);
    assert R[j..] == [R[j]] + R[j + 1..];
    assert Rotation(p) == [R[j]] + (R[j + 1..] + K);
    RotationAdvance(p);
  }

  lemma ScanStepFailed(p: PoolState, st: Snapshot, R: seq<Connection>, j: int)
    requires PoolValid(p) && ScanAt(p, st, R, j) && j < |R|
    requires st(R[j]) == Failed
    ensures |p.list| > 0 && p.list[Start(p)] == R[j]
    ensures var q := PoolState(RemoveFirst(p.list, R[j]), Start(p) - 1);
      PoolValid(q) && ScanAt(q, st, R, j + 1)
  {
    ScanStepHead(p, st, R, j);
    RotationRemove(p);
    KeptSnoc(R, j, st);
    var q := PoolState(RemoveFirst(p.list, R[j]), Start(p) - 1);
    assert Kept(R[..j + 1], st) == Kept(R[..j], st);
    assert Rotation(q) == R[j + 1..] + Kept(R[..j + 1], st);
    assert forall k :: 0 <= k < j + 1 ==> st(R[k]) != Active;
  }

  lemma ScanStepKept(p: PoolState, st: Snapshot, R: seq<Connection>, j: int)
    requires PoolValid(p) && ScanAt(p, st, R, j) && j < |R|
    requires st(R[j]) != Failed && st(R[j]) != Active
    ensures |p.list| > 0 && p.list[Start(p)] == R[j]
    ensures ScanAt(PoolState(p.list, Start(p)), st, R, j + 1)
  {
    ScanStepHead(p, st, R, j);
    RotationAdvance(p);
    KeptSnoc(R, j, st);
  }

  lemma ScanStepActive(p: PoolState, st: Snapshot, R: seq<Connection>, j: int)
    requires PoolValid(p) && ScanAt(p, st, R, j) && j < |R|
    requires st(R[j]) == Active
    ensures |p.list| > 0 && p.list[Start(p)] == R[j]
    ensures ScanEnds(PoolScan(Some(R[j]), PoolState(p.list, Start(p))), st, R, j)
  {
    ScanStepHead(p, st, R, j);
    RotationPermutes(p);
  }

  lemma {:induction false} ScanPoolFrom(p: PoolState, st: Snapshot, R: seq<Connection>, j: int)
    requires PoolValid(p) && ScanAt(p, st, R, j)
    ensures ScanEnds(ScanPool(p, |R| - j, st), st, R, j)
    decreases |R| - j
  {
    if j == |R| {
      assert R[..j] == R && R[j..] == [];
      assert Rotation(p) == Kept(R, st);
      RotationPermutes(p);
      assert ScanPool(p, |R| - j, st) == PoolScan(None, p);
    } else {
      var c := R[j];
      if st(c) == Active {
        ScanStepActive(p, st, R, j);
        assert ScanPool(p, |R| - j, st) == PoolScan(Some(c), PoolState(p.list, Start(p)));
      } else if st(c) == Failed {
        ScanStepFailed(p, st, R, j);
        var q := PoolState(RemoveFirst(p.list, c), Start(p) - 1);
        ScanPoolFrom(q, st, R, j + 1);
        assert ScanPool(p, |R| - j, st) == ScanPool(q, |R| - (j + 1), st);
      } else {
        ScanStepKept(p, st, R, j);
        var q := PoolState(p.list, Start(p));
        ScanPoolFrom(q, st, R, j + 1);
        assert ScanPool(p, |R| - j, st) == ScanPool(q, |R| - (j + 1), st);
      }
    }
  }

  /** A scan of a whole pool returns an ACTIVE connection exactly when the pool has one:
      the first in round-robin order, dropping only the FAILED connections met before
      it. When it finds none, the pool keeps exactly its connections that are not
      FAILED. */
  lemma ScanPoolSpec(p: PoolState, st: Snapshot)
    requires PoolValid(p)
    ensures var r := ScanPool(p, |p.list|, st);
      && (r.found.None? <==> forall c :: c in p.list ==> st(c) != Active)
      && (r.found.None? ==> forall c :: c in r.pool.list <==> c in p.list && st(c) != Failed)
      && (r.found.Some? ==> ScanEnds(r, st, Rotation(p), 0))
  {
    var R := Rotation(p);
    assert R[..0] == [] && R[0..] == R;
    RotationPermutes(p);
    ScanPoolFrom(p, st, R, 0);
    assert |R| - 0 == |p.list|;
    var r := ScanPool(p, |p.list|, st);
    assert ScanEnds(r, st, R, 0);
    SameMembers(R, p.list);
    if r.found.None? {
      SameMembers(r.pool.list, Kept(R, st));
      forall c | c in p.list ensures st(c) != Active {
        var k :| 0 <= k < |R| && R[k] == c;
      }
    }
  }

  /** Two lists with the same multiset hold the same elements. */
  lemma SameMembers(a: seq<Connection>, b: seq<Connection>)
    requires multiset(a) == multiset(b)
    ensures forall c :: c in a <==> c in b
  {
    forall c ensures c in a <==> c in b {
      assert c in a <==> c in multiset(a);
      assert c in b <==> c in multiset(b);
    }
  }

  /** The scan as written: the loop stops when its count of examined connections reaches
      the current size of the pool, which shrinks with every removal; and after removing
      a FAILED connection the cursor steps back only when it was at the end of the list,
      so the connection that slides into the freed slot is skipped. */
  function ScanPoolAsWritten(p: PoolState, count: nat, st: Snapshot): (r: PoolScan)
    requires PoolValid(p)
    decreases |p.list| - count
  {
    if count >= |p.list| then PoolScan(None, p)
    else
      var i := Start(p);
      var c := p.list[i];
      if st(c) == Active then PoolScan(Some(c), PoolState(p.list, i))
      else if st(c) == Failed then
        var l := RemoveFirst(p.list, c);
        DistinctRemoveFirst(p.list, c);
        ScanPoolAsWritten(PoolState(l, if i >= |l| then i - 1 else i), count + 1, st)
      else ScanPoolAsWritten(PoolState(p.list, i), count + 1, st)
  }

  /** A pool [f, a] whose cursor is on a: f is FAILED and removed, and a, ACTIVE, is never
      examined, whereas the corrected scan returns it. */
  lemma ScanPoolAsWrittenSkipsActive()
    ensures var f := Connection("f", 5, 0);
      var a := Connection("a", 5, 1);
      var st: Snapshot := c => if c == f then Failed else Active;
      && ScanPoolAsWritten(PoolState([f, a], 1), 0, st) == PoolScan(None, PoolState([a], 0))
      && ScanPool(PoolState([f, a], 1), 2, st) == PoolScan(Some(a), PoolState([a], 0))
  {
    var f := Connection("f", 5, 0);
    var a := Connection("a", 5, 1);
    assert RemoveFirst([f, a], f) == [a];
  }

  // ---------------------------------------------------------------------------
  // All the pools: the TreeMap as a map and its keys in descending order.
  // ---------------------------------------------------------------------------

  /** The pools by priority, and their priorities in the map's iteration order. */
  datatype Pools = Pools(byPriority: map<int, PoolState>, order: seq<int>)

  predicate Descending(order: seq<int>) {
    forall i, j :: 0 <= i < j < |order| ==> order[i] > order[j]
  }

  predicate MapValid(m: map<int, PoolState>) {
    forall k :: k in m ==> PoolValid(m[k])
  }

  /** The keys listed are exactly those of the map, in descending order, and each pool
      is valid. */
  predicate PoolsValid(ps: Pools) {
    && Descending(ps.order)
    && (forall k :: k in ps.byPriority ==> k in ps.order)
    && (forall k :: k in ps.order ==> k in ps.byPriority)
    && MapValid(ps.byPriority)
  }

  /** Every pool holds only connections of its own priority. */
  predicate Keyed(m: map<int, PoolState>) {
    forall k, c :: k in m && c in m[k].list ==> c.priority == k
  }

  lemma DescendingCons(h: int, rest: seq<int>)
    ensures Descending(rest) && (forall x :: x in rest ==> x < h) ==> Descending([h] + rest)
  {
    if Descending(rest) && (forall x :: x in rest ==> x < h) {
      var l := [h] + rest;
      forall i, j | 0 <= i < j < |l| ensures l[i] > l[j] {
        assert l[j] == rest[j - 1] && rest[j - 1] in rest;
        if i > 0 {
          assert l[i] == rest[i - 1];
        } else {
          assert l[i] == h;
        }
      }
    }
  }

  lemma DescendingTail(order: seq<int>)
    requires |order| > 0
    ensures Descending(order) ==> Descending(order[1..]) && forall x :: x in order[1..] ==> x < order[0]
  {
    if Descending(order) {
      var t := order[1..];
      forall x | x in t ensures x < order[0] {
        var j :| 0 <= j < |t| && t[j] == x;
        assert order[j + 1] == x;
      }
      forall i, j | 0 <= i < j < |t| ensures t[i] > t[j] {
        assert t[i] == order[i + 1] && t[j] == order[j + 1];
      }
    }
  }

  /** The keys of `order` not in s, in order. */
  function Without(order: seq<int>, s: set<int>): (r: seq<int>)
    ensures forall k :: k in r <==> k in order && k !in s
    ensures Descending(order) ==> Descending(r)
  {
    if |order| == 0 then []
    else
      var rest := Without(order[1..], s);
      DescendingTail(order);
      DescendingCons(order[0], rest);
      assert order == [order[0]] + order[1..];
      (if order[0] in s then [] else [order[0]]) + rest
  }

  /** TreeMap.put of a new key under the descending comparator, in its corrected form
      (CompareDescending): the overflowing comparator as written orders no TreeMap
      consistently. */
  function InsertDescending(order: seq<int>, k: int): (r: seq<int>)
    requires Descending(order) && k !in order
    ensures Descending(r)
    ensures forall x :: x in r <==> x in order || x == k
  {
    if |order| == 0 then [k]
    else if k > order[0] then
      DescendingTail(order);
      DescendingCons(k, order);
      [k] + order
    else
      DescendingTail(order);
      assert order == [order[0]] + order[1..];
      var rest := InsertDescending(order[1..], k);
      DescendingCons(order[0], rest);
      [order[0]] + rest
  }

  /** The key order kept beside the map is the order of the corrected comparator: each
      key compares before every later one. */
  lemma DescendingIsCompareOrder(o: seq<int>)
    ensures Descending(o) <==> forall i, j :: 0 <= i < j < |o| ==> CompareDescending(o[i], o[j]) < 0
  {
  }

  /** The pools whose priorities are listed in `keys`, scanned in that order until one
      yields an ACTIVE connection. */
  function ScanPools(m: map<int, PoolState>, keys: seq<int>, st: Snapshot): (r: (Option<Connection>, map<int, PoolState>))
    requires MapValid(m) && forall k :: k in keys ==> k in m
    ensures MapValid(r.1) && r.1.Keys == m.Keys
    ensures r.0.Some? ==> st(r.0.value) == Active
    decreases |keys|
  {
    if |keys| == 0 then (None, m)
    else
      var k := keys[0];
      var scan := ScanPool(m[k], |m[k].list|, st);
      if scan.found.Some? then (scan.found, m[k := scan.pool])
      else ScanPools(m[k := scan.pool], keys[1..], st)
  }

  /** No connection of pool k is ACTIVE. */
  ghost predicate NoneActive(m: map<int, PoolState>, k: int, st: Snapshot)
    requires k in m
  {
    forall c :: c in m[k].list ==> st(c) != Active
  }

  /** One step of ScanPools: the first listed pool is scanned. */
  lemma ScanPoolsUnfold(m: map<int, PoolState>, keys: seq<int>, st: Snapshot)
    requires MapValid(m) && (forall k :: k in keys ==> k in m) && |keys| > 0 && keys[0] in m
    requires PoolValid(m[keys[0]])
    ensures var scan := ScanPool(m[keys[0]], |m[keys[0]].list|, st);
      ScanPools(m, keys, st) ==
        if scan.found.Some? then (scan.found, m[keys[0] := scan.pool])
        else ScanPools(m[keys[0] := scan.pool], keys[1..], st)
  {
  }

  /** Scanning the pools listed changes no other pool, and only removes connections. */
  lemma {:induction false} ScanPoolsShrinks(m: map<int, PoolState>, keys: seq<int>, st: Snapshot)
    requires MapValid(m) && Descending(keys) && forall k :: k in keys ==> k in m
    ensures var r := ScanPools(m, keys, st);
      && (forall k :: k in m && k !in keys ==> r.1[k] == m[k])
      && (forall k, c :: k in m && c in r.1[k].list ==> c in m[k].list)
    decreases |keys|
  {
    if |keys| > 0 {
      var k := keys[0];
      var scan := ScanPool(m[k], |m[k].list|, st);
      if scan.found.None? {
        DescendingTail(keys);
        ScanPoolsShrinks(m[k := scan.pool], keys[1..], st);
      }
    }
  }

  /** A scan that finds nothing went through every pool listed, none of them with an
      ACTIVE connection. */
  lemma {:induction false} ScanPoolsNone(m: map<int, PoolState>, keys: seq<int>, st: Snapshot)
    requires MapValid(m) && Descending(keys) && forall k :: k in keys ==> k in m
    ensures ScanPools(m, keys, st).0.None? ==> forall i :: 0 <= i < |keys| ==> NoneActive(m, keys[i], st)
    decreases |keys|
  {
    if |keys| > 0 {
      var k := keys[0];
      var scan := ScanPool(m[k], |m[k].list|, st);
      ScanPoolSpec(m[k], st);
      if scan.found.None? {
        var m' := m[k := scan.pool];
        var rest := keys[1..];
        DescendingTail(keys);
        ScanPoolsNone(m', rest, st);
        if ScanPools(m', rest, st).0.None? {
          forall i | 0 <= i < |keys| ensures NoneActive(m, keys[i], st) {
            if i > 0 {
              assert keys[i] == rest[i - 1];
              assert k != rest[i - 1];
              assert NoneActive(m', rest[i - 1], st);
            }
          }
        }
      }
    }
  }

  /** A scan that finds nothing leaves each pool listed with exactly its connections
      not FAILED. */
  lemma {:induction false} ScanPoolsNoneKept(m: map<int, PoolState>, keys: seq<int>, st: Snapshot)
    requires MapValid(m) && Descending(keys) && forall k :: k in keys ==> k in m
    ensures var r := ScanPools(m, keys, st);
      r.0.None? ==> forall k, c :: k in keys ==> (c in r.1[k].list <==> c in m[k].list && st(c) != Failed)
    decreases |keys|
  {
    if |keys| > 0 {
      var k := keys[0];
      var scan := ScanPool(m[k], |m[k].list|, st);
      ScanPoolSpec(m[k], st);
      if scan.found.None? {
        var m' := m[k := scan.pool];
        var rest := keys[1..];
        DescendingTail(keys);
        assert k !in rest;
        ScanPoolsNoneKept(m', rest, st);
        ScanPoolsShrinks(m', rest, st);
        var r := ScanPools(m', rest, st);
        assert r.1[k] == scan.pool;
        forall k2 | k2 in rest ensures m'[k2] == m[k2] { }
      }
    }
  }

  /** A scan that finds a connection found it in one of the pools listed, all the
      pools listed before that one having no ACTIVE connection. */
  lemma {:induction false} ScanPoolsFound(m: map<int, PoolState>, keys: seq<int>, st: Snapshot)
    requires MapValid(m) && Descending(keys) && forall k :: k in keys ==> k in m
    ensures var r := ScanPools(m, keys, st);
      r.0.Some? ==>
        exists i :: 0 <= i < |keys| && r.0.value in m[keys[i]].list
          && forall j :: 0 <= j < i ==> NoneActive(m, keys[j], st)
    decreases |keys|
  {
    if |keys| > 0 {
      var k := keys[0];
      var scan := ScanPool(m[k], |m[k].list|, st);
      ScanPoolSpec(m[k], st);
      if scan.found.None? {
        var m' := m[k := scan.pool];
        var rest := keys[1..];
        DescendingTail(keys);
        assert k !in rest;
        ScanPoolsFound(m', rest, st);
        var r := ScanPools(m', rest, st);
        if r.0.Some? {
          var i :| 0 <= i < |rest| && r.0.value in m'[rest[i]].list
            && forall j :: 0 <= j < i ==> NoneActive(m', rest[j], st);
          assert keys[i + 1] == rest[i] && m'[rest[i]] == m[rest[i]];
          forall j | 0 <= j < i + 1 ensures NoneActive(m, keys[j], st) {
            if j > 0 {
              assert keys[j] == rest[j - 1];
              assert NoneActive(m', rest[j - 1], st);
            }
          }
        }
      } else {
        assert scan.found.value in m[keys[0]].list;
      }
    }
  }

  /** The priorities whose pool is empty. */
  function Empties(m: map<int, PoolState>): (s: set<int>)
    ensures forall k :: k in s <==> k in m && |m[k].list| == 0
  {
    set k | k in m && |m[k].list| == 0
  }

  lemma EmptiesUpdate(m: map<int, PoolState>, k: int, p: PoolState)
    requires k in m
    ensures Empties(m[k := p]) == (Empties(m) - {k}) + (if |p.list| == 0 then {k} else {})
  {
  }

  /** One step of the loop of a round, on values: pool order[i] has just been scanned,
      giving `found` and its new contents p. */
  lemma RoundStep(m0: map<int, PoolState>, order: seq<int>, st: Snapshot, i: int,
                  before: map<int, PoolState>, p: PoolState, found: Option<Connection>, toRemove: set<int>)
    requires Descending(order) && 0 <= i < |order|
    requires (forall k :: k in order ==> k in before) && MapValid(before)
    requires (forall k :: k in order ==> k in m0) && MapValid(m0)
    requires toRemove == Empties(before) && (forall x :: x in toRemove ==> x in order[..i])
    requires ScanPools(m0, order, st) == ScanPools(before, order[i..], st)
    requires PoolScan(found, p) == ScanPool(before[order[i]], |before[order[i]].list|, st)
    ensures var after := before[order[i] := p];
      var removed := if |p.list| == 0 then toRemove + {order[i]} else toRemove;
      && MapValid(after) && removed == Empties(after) && (forall x :: x in removed ==> x in order[..i + 1])
      && (found.None? ==> ScanPools(m0, order, st) == ScanPools(after, order[i + 1..], st))
      && (found.Some? ==> ScanPools(m0, order, st) == (found, after))
  {
    var k := order[i];
    ScanPoolsUnfold(before, order[i..], st);
    assert order[i..][1..] == order[i + 1..];
    forall j | 0 <= j < i ensures order[..i][j] != k {
      assert order[..i][j] == order[j];
    }
    assert k !in order[..i];
    assert order[..i + 1] == order[..i] + [k];
    EmptiesUpdate(before, k, p);
  }

  /** One round of getClientConnection's outer loop over the pools, in the map's order,
      with the pools that became empty removed afterwards. */
  function Round(ps: Pools, st: Snapshot): (r: (Option<Connection>, Pools))
    requires PoolsValid(ps)
    ensures PoolsValid(r.1) && r.1.byPriority.Keys <= ps.byPriority.Keys
    ensures forall k :: k in r.1.byPriority ==> |r.1.byPriority[k].list| > 0
    ensures r.0.Some? ==> st(r.0.value) == Active
  {
    var s := ScanPools(ps.byPriority, ps.order, st);
    var gone := Empties(s.1);
    (s.0, Pools(s.1 - gone, Without(ps.order, gone)))
  }

  /** A round returns null exactly when no pool has an ACTIVE connection. */
  lemma RoundNullIffNoneActive(ps: Pools, st: Snapshot)
    requires PoolsValid(ps)
    ensures var m := ps.byPriority;
      Round(ps, st).0.None? <==> forall k :: k in m ==> NoneActive(m, k, st)
  {
    var m := ps.byPriority;
    var r := Round(ps, st);
    if r.0.Some? {
      ScanPoolsFound(m, ps.order, st);
      var i :| 0 <= i < |ps.order| && r.0.value in m[ps.order[i]].list
        && forall j :: 0 <= j < i ==> NoneActive(m, ps.order[j], st);
      assert !NoneActive(m, ps.order[i], st);
    } else {
      ScanPoolsNone(m, ps.order, st);
      forall k | k in m ensures NoneActive(m, k, st) {
        var j :| 0 <= j < |ps.order| && ps.order[j] == k;
      }
    }
  }

  /** A connection a round returns is ACTIVE and belongs to the highest-priority pool
      that has one. */
  lemma RoundFindsHighestActive(ps: Pools, st: Snapshot)
    requires PoolsValid(ps)
    ensures var m := ps.byPriority; var r := Round(ps, st);
      r.0.Some? ==>
        && st(r.0.value) == Active
        && exists k :: k in m && r.0.value in m[k].list && HigherNoneActive(m, k, st)
  {
    var m := ps.byPriority;
    var r := Round(ps, st);
    if r.0.Some? {
      ScanPoolsFound(m, ps.order, st);
      var i :| 0 <= i < |ps.order| && r.0.value in m[ps.order[i]].list
        && forall j :: 0 <= j < i ==> NoneActive(m, ps.order[j], st);
      var k := ps.order[i];
      forall k2 | k2 in m && k2 > k ensures NoneActive(m, k2, st) {
        var j :| 0 <= j < |ps.order| && ps.order[j] == k2;
        DescendingBefore(ps.order, i, j);
      }
      assert HigherNoneActive(m, k, st);
    }
  }

  /** In a descending order, a larger key sits at an earlier position. */
  lemma DescendingBefore(order: seq<int>, i: int, j: int)
    requires Descending(order) && 0 <= i < |order| && 0 <= j < |order| && order[j] > order[i]
    ensures j < i
  {
  }

  /** No pool of a priority higher than k has an ACTIVE connection. */
  ghost predicate HigherNoneActive(m: map<int, PoolState>, k: int, st: Snapshot) {
    forall k2 :: k2 in m && k2 > k ==> NoneActive(m, k2, st)
  }

  /** A round that finds nothing leaves every pool with exactly its connections that
      are not FAILED, and removes the pools left empty. */
  lemma RoundPrunesFailed(ps: Pools, st: Snapshot)
    requires PoolsValid(ps)
    ensures var m := ps.byPriority; var r := Round(ps, st);
      && (r.0.None? ==> forall k :: k in r.1.byPriority <==> k in m && exists c :: c in m[k].list && st(c) != Failed)
      && (r.0.None? ==> forall k, c :: k in r.1.byPriority ==> (c in r.1.byPriority[k].list <==> c in m[k].list && st(c) != Failed))
  {
    var m := ps.byPriority;
    ScanPoolsNoneKept(m, ps.order, st);
    ScanPoolsShrinks(m, ps.order, st);
    var s := ScanPools(m, ps.order, st);
    var r := Round(ps, st);
    if r.0.None? {
      forall k | k in m ensures k in r.1.byPriority <==> exists c :: c in m[k].list && st(c) != Failed {
        if exists c :: c in m[k].list && st(c) != Failed {
          var c :| c in m[k].list && st(c) != Failed;
          assert c in s.1[k].list;
        } else if |s.1[k].list| > 0 {
          assert s.1[k].list[0] in m[k].list;
        }
      }
    }
  }

  /** Every connection of a pool after a round was in the pool of the same priority
      before it. */
  predicate Within(m2: map<int, PoolState>, m: map<int, PoolState>) {
    forall k, c :: k in m2 && c in m2[k].list ==> k in m && c in m[k].list
  }

  /** A round only removes connections and pools, and returns a connection of one of
      its pools. */
  lemma RoundWithin(ps: Pools, st: Snapshot)
    requires PoolsValid(ps)
    ensures var r := Round(ps, st);
      && Within(r.1.byPriority, ps.byPriority)
      && (r.0.Some? ==> exists k :: k in ps.byPriority && r.0.value in ps.byPriority[k].list)
  {
    var m := ps.byPriority;
    ScanPoolsShrinks(m, ps.order, st);
    var r := Round(ps, st);
    if r.0.Some? {
      ScanPoolsFound(m, ps.order, st);
      var i :| 0 <= i < |ps.order| && r.0.value in m[ps.order[i]].list
        && forall j :: 0 <= j < i ==> NoneActive(m, ps.order[j], st);
    }
  }

  /** What getClientConnection returns: a connection, null, or, when the snapshots given
      run out while the client would still be waiting for an ACTIVE connection, a
      marker saying so. */
  datatype Lookup = Found(connection: Connection) | NoConnection | StillWaiting

  /** getClientConnection(oneAttempt) over a sequence of status snapshots, one per round:
      rounds are repeated while nothing is found and pools remain, unless oneAttempt. */
  function Attempts(ps: Pools, oneAttempt: bool, rounds: seq<Snapshot>): (r: (Lookup, Pools))
    requires PoolsValid(ps)
    ensures PoolsValid(r.1) && r.1.byPriority.Keys <= ps.byPriority.Keys
    decreases |rounds|
  {
    if |ps.byPriority| == 0 then (NoConnection, ps)
    else if |rounds| == 0 then (StillWaiting, ps)
    else
      var next := Round(ps, rounds[0]);
      if next.0.Some? then (Found(next.0.value), next.1)
      else if oneAttempt then (NoConnection, next.1)
      else Attempts(next.1, false, rounds[1..])
  }

  /** Waiting for a connection only ever removes connections and pools. */
  lemma {:induction false} AttemptsShrink(ps: Pools, oneAttempt: bool, rounds: seq<Snapshot>)
    requires PoolsValid(ps)
    ensures Within(Attempts(ps, oneAttempt, rounds).1.byPriority, ps.byPriority)
    decreases |rounds|
  {
    if |ps.byPriority| > 0 && |rounds| > 0 {
      var next := Round(ps, rounds[0]);
      RoundWithin(ps, rounds[0]);
      if next.0.None? && !oneAttempt {
        AttemptsShrink(next.1, false, rounds[1..]);
      }
    }
  }

  lemma ActiveInLaterRound(rounds: seq<Snapshot>, c: Connection)
    requires |rounds| > 0 && exists t :: 0 <= t < |rounds[1..]| && rounds[1..][t](c) == Active
    ensures exists t :: 0 <= t < |rounds| && rounds[t](c) == Active
  {
    var t :| 0 <= t < |rounds[1..]| && rounds[1..][t](c) == Active;
    assert rounds[t + 1] == rounds[1..][t];
  }

  /** A connection returned is ACTIVE in the snapshot of the round that found it. */
  lemma {:induction false} AttemptsFoundActive(ps: Pools, oneAttempt: bool, rounds: seq<Snapshot>)
    requires PoolsValid(ps)
    ensures var r := Attempts(ps, oneAttempt, rounds);
      r.0.Found? ==> exists t :: 0 <= t < |rounds| && rounds[t](r.0.connection) == Active
    decreases |rounds|
  {
    if |ps.byPriority| > 0 && |rounds| > 0 {
      var next := Round(ps, rounds[0]);
      if next.0.Some? {
        assert Attempts(ps, oneAttempt, rounds).0 == Found(next.0.value);
        assert rounds[0](next.0.value) == Active;
      } else if !oneAttempt {
        AttemptsFoundActive(next.1, false, rounds[1..]);
        var r := Attempts(next.1, false, rounds[1..]);
        assert Attempts(ps, oneAttempt, rounds) == r;
        if r.0.Found? {
          ActiveInLaterRound(rounds, r.0.connection);
        }
      }
    }
  }

  /** A connection returned belongs to one of the pools the client started from. */
  lemma {:induction false} AttemptsFoundInPools(ps: Pools, oneAttempt: bool, rounds: seq<Snapshot>)
    requires PoolsValid(ps)
    ensures var r := Attempts(ps, oneAttempt, rounds);
      r.0.Found? ==> exists k :: k in ps.byPriority && r.0.connection in ps.byPriority[k].list
    decreases |rounds|
  {
    if |ps.byPriority| > 0 && |rounds| > 0 {
      var next := Round(ps, rounds[0]);
      RoundWithin(ps, rounds[0]);
      if next.0.None? && !oneAttempt {
        AttemptsFoundInPools(next.1, false, rounds[1..]);
        var r := Attempts(next.1, false, rounds[1..]);
        if r.0.Found? {
          var k :| k in next.1.byPriority && r.0.connection in next.1.byPriority[k].list;
          assert r.0.connection in ps.byPriority[k].list;
        }
      }
    }
  }

  /** Without oneAttempt, null is returned only once no pool is left; with oneAttempt,
      only the first snapshot is used and the client never waits. */
  lemma {:induction false} AttemptsGiveUp(ps: Pools, oneAttempt: bool, rounds: seq<Snapshot>)
    requires PoolsValid(ps)
    ensures var r := Attempts(ps, oneAttempt, rounds);
      && (r.0.NoConnection? && !oneAttempt ==> |r.1.byPriority| == 0)
      && (oneAttempt && |rounds| > 0 ==> r == Attempts(ps, oneAttempt, rounds[..1]) && !r.0.StillWaiting?)
    decreases |rounds|
  {
    if |ps.byPriority| > 0 && |rounds| > 0 {
      assert rounds[..1][0] == rounds[0];
      var next := Round(ps, rounds[0]);
      if next.0.None? && !oneAttempt {
        AttemptsGiveUp(next.1, false, rounds[1..]);
      }
    }
  }

  // ---------------------------------------------------------------------------
  // statusChanged: pruning a connection that failed.
  // ---------------------------------------------------------------------------

  /** The outcome of statusChanged: handled, or the fatal JPPFError raised once no
      pool is left. */
  datatype StatusOutcome = Handled | NoMoreConnections

  /** statusChanged on the pools: a FAILED connection is removed from the pool of its
      priority, which is dropped once empty; no pool left is a fatal error. Any other
      status, or a priority without a pool, changes nothing. */
  function AfterStatusChange(ps: Pools, c: Connection, status: Status): (r: (StatusOutcome, Pools))
    requires PoolsValid(ps)
    ensures PoolsValid(r.1)
  {
    if status != Failed || c.priority !in ps.byPriority then (Handled, ps)
    else
      var k := c.priority;
      var p := ps.byPriority[k];
      DistinctRemoveFirst(p.list, c);
      var l := RemoveFirst(p.list, c);
      var next :=
        if |l| == 0 then Pools(ps.byPriority - {k}, Without(ps.order, {k}))
        else Pools(ps.byPriority[k := PoolState(l, p.lastUsedIndex)], ps.order);
      (if |next.byPriority| == 0 then NoMoreConnections else Handled, next)
  }

  lemma SpliceMembers(l: seq<Connection>, i: int, x: Connection)
    requires Distinct(l) && 0 <= i < |l|
    ensures x in l[..i] + l[i + 1..] <==> x in l && x != l[i]
  {
    var r := l[..i] + l[i + 1..];
    if x in l && x != l[i] {
      var j :| 0 <= j < |l| && l[j] == x;
      if j < i { assert r[j] == x; } else { assert r[j - 1] == x; }
    }
    if x in r {
      var j :| 0 <= j < |r| && r[j] == x;
      if j < i { assert l[j] == x; } else { assert l[j + 1] == x; }
    }
  }

  /** The list without c no longer holds c, and holds every other connection. */
  lemma RemoveFromDistinct(l: seq<Connection>, c: Connection)
    requires Distinct(l)
    ensures forall x :: x in RemoveFirst(l, c) <==> x in l && x != c
    ensures |RemoveFirst(l, c)| == 0 <==> l == [] || l == [c]
  {
    if c in l {
      var i :| 0 <= i < |l| && l[i] == c;
      RemoveFirstDistinct(l, i);
      forall x ensures x in RemoveFirst(l, c) <==> x in l && x != c {
        SpliceMembers(l, i, x);
      }
      if |RemoveFirst(l, c)| == 0 {
        assert l == [c];
      }
    }
  }

  /** A FAILED connection is in no pool afterwards, every other connection stays where
      it was, and the error is raised exactly when that connection was the last one
      left in all the pools. */
  lemma AfterStatusChangeSpec(ps: Pools, c: Connection, status: Status)
    requires PoolsValid(ps) && Keyed(ps.byPriority)
    requires forall k :: k in ps.byPriority ==> |ps.byPriority[k].list| > 0
    ensures var m := ps.byPriority; var r := AfterStatusChange(ps, c, status);
      && (status != Failed ==> r == (Handled, ps))
      && (status == Failed ==> forall k :: k in r.1.byPriority ==> c !in r.1.byPriority[k].list)
      && (forall k, x :: k in m && x in m[k].list && x != c ==> k in r.1.byPriority && x in r.1.byPriority[k].list)
      && (forall k, x :: k in r.1.byPriority && x in r.1.byPriority[k].list ==> k in m && x in m[k].list)
      && (forall k :: k in r.1.byPriority ==> |r.1.byPriority[k].list| > 0)
      && (r.0 == NoMoreConnections <==> status == Failed && m.Keys == {c.priority} && m[c.priority].list == [c])
  {
    var m := ps.byPriority;
    if status == Failed && c.priority in m {
      var k := c.priority;
      RemoveFromDistinct(m[k].list, c);
      var r := AfterStatusChange(ps, c, status);
      assert forall k2 :: k2 in m && k2 != k ==> k2 in r.1.byPriority;
      if m.Keys == {k} && m[k].list == [c] {
        assert |r.1.byPriority| == 0;
      }
    }
  }

  // ---------------------------------------------------------------------------
  // Registering a connection.
  // ---------------------------------------------------------------------------

  /** Every pool is non-empty and holds only connections of its own priority, taken from
      `all`. */
  predicate Owned(m: map<int, PoolState>, all: seq<Connection>) {
    && Keyed(m)
    && (forall k :: k in m ==> |m[k].list| > 0)
    && (forall k, c :: k in m && c in m[k].list ==> c in all)
  }

  lemma DistinctAppend(l: seq<Connection>, c: Connection)
    requires Distinct(l) && c !in l
    ensures Distinct(l + [c])
  {
    var r := l + [c];
    forall i, j | 0 <= i < j < |r| ensures r[i] != r[j] {
      assert r[i] == l[i];
      if j == |l| {
        assert l[i] in l;
      } else {
        assert r[j] == l[j];
      }
    }
  }

  /** The assumed effect of addClientConnection on the pools (its body is not part of
      this model): the connection is put into the pool of its priority, at the end of
      its list, and a missing pool is created as a new ClientPool, cursor on slot 0. */
  function AddConnection(ps: Pools, c: Connection): (r: Pools)
    requires PoolsValid(ps)
    requires c.priority in ps.byPriority ==>
      c !in ps.byPriority[c.priority].list && |ps.byPriority[c.priority].list| < INT_MAX
    ensures PoolsValid(r)
  {
    var k := c.priority;
    if k in ps.byPriority then
      var p := ps.byPriority[k];
      DistinctAppend(p.list, c);
      Pools(ps.byPriority[k := PoolState(p.list + [c], p.lastUsedIndex)], ps.order)
    else
      Pools(ps.byPriority[k := PoolState([c], 0)], InsertDescending(ps.order, k))
  }

  /** Under the assumed addClientConnection, the new connection lands last in the pool
      of its priority, every other pool is untouched, and the round-robin cursor does
      not move. */
  lemma AddConnectionSpec(ps: Pools, c: Connection, all: seq<Connection>)
    requires PoolsValid(ps) && Owned(ps.byPriority, all) && c !in all
    requires c.priority in ps.byPriority ==> |ps.byPriority[c.priority].list| < INT_MAX
    ensures var m := ps.byPriority; var k := c.priority; var r := AddConnection(ps, c).byPriority;
      && r.Keys == m.Keys + {k}
      && (forall k2 :: k2 in m && k2 != k ==> r[k2] == m[k2])
      && (k in m ==> r[k] == PoolState(m[k].list + [c], m[k].lastUsedIndex))
      && (k !in m ==> r[k] == PoolState([c], 0))
  {
    var k := c.priority;
    if k in ps.byPriority {
      assert c !in ps.byPriority[k].list;
    }
  }

  /** The assumed addClientConnection keeps the pools owned by the connections
      created. */
  lemma AddConnectionOwned(ps: Pools, c: Connection, all: seq<Connection>)
    requires PoolsValid(ps) && Owned(ps.byPriority, all) && c !in all
    requires c.priority in ps.byPriority ==> |ps.byPriority[c.priority].list| < INT_MAX
    ensures Owned(AddConnection(ps, c).byPriority, all + [c])
  {
    AddConnectionSpec(ps, c, all);
  }

  /** Keeping only some of the connections of some of the pools, none of them emptied,
      keeps the pools owned. */
  lemma OwnedShrink(m: map<int, PoolState>, m2: map<int, PoolState>, all: seq<Connection>)
    requires Owned(m, all)
    requires forall k :: k in m2 ==> |m2[k].list| > 0
    requires forall k, c :: k in m2 && c in m2[k].list ==> k in m && c in m[k].list
    ensures Owned(m2, all)
  {
  }

  /** statusChanged keeps the pools owned by the connections created. */
  lemma AfterStatusChangeOwned(ps: Pools, c: Connection, status: Status, all: seq<Connection>)
    requires PoolsValid(ps) && Owned(ps.byPriority, all)
    ensures Owned(AfterStatusChange(ps, c, status).1.byPriority, all)
  {
    AfterStatusChangeSpec(ps, c, status);
    OwnedShrink(ps.byPriority, AfterStatusChange(ps, c, status).1.byPriority, all);
  }

  // ---------------------------------------------------------------------------
  // The objects.
  // ---------------------------------------------------------------------------

  /** ClientPool: the connections of one priority and the index of the last one used. */
  class ClientPool {
    const priority: int
    var lastUsedIndex: int
    var clientList: seq<Connection>

    function State(): PoolState
      reads this
    {
      PoolState(clientList, lastUsedIndex)
    }

    predicate Valid()
      reads this
    {
      PoolValid(State())
    }

    constructor (priority: int)
      ensures this.priority == priority && lastUsedIndex == 0 && clientList == []
      ensures Valid()
    {
      this.priority := priority;
      lastUsedIndex := 0;
      clientList := [];
    }

    /** nextClient: null on an empty pool, otherwise the connection after the last one
        used, round robin. */
    method NextClient() returns (c: Option<Connection>)
      requires Valid()
      modifies this
      ensures Valid()
      ensures (c, State()) == Next(old(State()))
    {
      if |clientList| == 0 {
        return None;
      }
      lastUsedIndex := (lastUsedIndex + 1) % |clientList|;
      c := Some(clientList[lastUsedIndex]);
    }

    /** Removes the connection just returned by nextClient and steps the cursor back. */
    method DropCurrent(c: Connection)
      requires Valid() && 0 <= lastUsedIndex < |clientList| && c == clientList[lastUsedIndex]
      modifies this
      ensures Valid()
      ensures State() == PoolState(RemoveFirst(old(clientList), c), old(lastUsedIndex) - 1)
    {
      DistinctRemoveFirst(clientList, c);
      clientList := RemoveFirst(clientList, c);
      lastUsedIndex := lastUsedIndex - 1;
    }

    /** One pass of the scan loop: take the next connection; keep it if ACTIVE, drop it
        if FAILED. `empty` tells that the pool had no connection left. */
    method ScanStep(st: Snapshot, ghost n: nat) returns (found: Option<Connection>, empty: bool)
      requires Valid() && n > 0
      modifies this
      ensures Valid()
      ensures empty ==> found.None? && ScanPool(old(State()), n, st) == PoolScan(None, State())
      ensures !empty && found.None? ==> ScanPool(old(State()), n, st) == ScanPool(State(), n - 1, st)
      ensures found.Some? ==> ScanPool(old(State()), n, st) == PoolScan(found, State())
    {
      ghost var before := State();
      found := None;
      var c := NextClient();
      empty := c.None?;
      if empty {
        return;
      }
      ScanPoolStep(before, n, st);
      var status := st(c.value);
      if status == Active {
        found := c;
      } else if status == Failed {
        DropCurrent(c.value);
      }
    }

    /** The inner loop of getClientConnection on this pool, corrected: each connection
        present at the start is examined once; a FAILED one is removed and the cursor
        stepped back. */
    method Scan(st: Snapshot) returns (found: Option<Connection>)
      requires Valid()
      modifies this
      ensures Valid()
      ensures PoolScan(found, State()) == ScanPool(old(State()), |old(clientList)|, st)
    {
      ghost var start := State();
      var size := |clientList|;
      var count := 0;
      found := None;
      while found.None? && count < size
        invariant 0 <= count <= size
        invariant Valid()
        invariant found.None? ==> ScanPool(start, size, st) == ScanPool(State(), size - count, st)
        invariant found.Some? ==> ScanPool(start, size, st) == PoolScan(found, State())
        decreases size - count
      {
        var empty;
        found, empty := ScanStep(st, size - count);
        if empty {
          break;
        }
        count := count + 1;
      }
    }
  }

  /** AbstractJPPFClient: the pools by priority, the priorities in the pools map's
      order, and all the connections created. */
  class Client {
    const uuid: string
    var pools: map<int, ClientPool>
    var order: seq<int>
    var allConnections: seq<Connection>

    /** Two priorities never share a pool object. */
    predicate Separate()
      reads this
    {
      forall k1, k2 :: k1 in pools && k2 in pools && k1 != k2 ==> pools[k1] != pools[k2]
    }

    /** The contents of the pools, by priority. */
    function PoolMap(): map<int, PoolState>
      reads this, pools.Values
    {
      map k | k in pools :: pools[k].State()
    }

    function State(): Pools
      reads this, pools.Values
    {
      Pools(PoolMap(), order)
    }

    /** The priorities are listed in descending order; every pool is valid, non-empty,
        registered under its own priority and holds only connections of that priority
        created by this client. */
    ghost predicate Valid()
      reads this, pools.Values
    {
      && PoolsValid(State())
      && Owned(PoolMap(), allConnections)
      && (forall k :: k in pools ==> pools[k].priority == k)
      && Separate()
    }

    constructor (uuid: string)
      ensures this.uuid == uuid && pools == map[] && order == [] && allConnections == []
      ensures Valid()
    {
      this.uuid := uuid;
      pools := map[];
      order := [];
      allConnections := [];
    }

    /** Sets the contents of the pool of priority k, leaving every other pool as it
        was. */
    method SetPool(k: int, list: seq<Connection>, lastUsedIndex: int)
      requires k in pools && Separate()
      modifies pools[k]
      ensures PoolMap() == old(PoolMap())[k := PoolState(list, lastUsedIndex)]
    {
      var pool := pools[k];
      ghost var before := PoolMap();
      pool.clientList := list;
      pool.lastUsedIndex := lastUsedIndex;
      forall k2 | k2 in pools ensures PoolMap()[k2] == before[k := pool.State()][k2] {
        if k2 != k {
          assert pools[k2] != pool;
        }
      }
    }

    /** Drops the pools of the priorities in s from the map and from the priorities. */
    method DropPools(s: set<int>)
      modifies this
      ensures pools == old(pools) - s && order == Without(old(order), s)
      ensures allConnections == old(allConnections)
      ensures PoolMap() == old(PoolMap()) - s
    {
      ghost var before := PoolMap();
      pools := pools - s;
      order := Without(order, s);
      forall k2 | k2 in pools ensures PoolMap()[k2] == (before - s)[k2] {
      }
    }

    /** Puts a new pool of priority k holding `list`, with its cursor on slot 0. */
    method AddPool(k: int, list: seq<Connection>)
      requires k !in pools && Descending(order) && k !in order
      modifies this
      ensures k in pools && fresh(pools[k]) && pools[k].priority == k
      ensures pools == old(pools)[k := pools[k]] && order == InsertDescending(old(order), k)
      ensures allConnections == old(allConnections)
      ensures PoolMap() == old(PoolMap())[k := PoolState(list, 0)]
    {
      ghost var before := PoolMap();
      var pool := new ClientPool(k);
      pool.clientList := list;
      pools := pools[k := pool];
      order := InsertDescending(order, k);
      assert PoolMap() == before[k := pool.State()];
    }

    /** addClientConnection, whose body is not part of this model, as assumed here: the
        connection is appended to allConnections and to the pool of its priority, which
        is created when missing. */
    method AddClientConnection(c: Connection)
      requires Valid() && c !in allConnections
      requires c.priority in pools ==> |pools[c.priority].clientList| < INT_MAX
      modifies this, pools.Values
      ensures Valid()
      ensures allConnections == old(allConnections) + [c]
      ensures State() == AddConnection(old(State()), c)
    {
      var k := c.priority;
      ghost var s0 := State();
      ghost var all0 := allConnections;
      if k in pools {
        var p := s0.byPriority[k];
        SetPool(k, pools[k].clientList + [c], pools[k].lastUsedIndex);
      } else {
        AddPool(k, [c]);
      }
      allConnections := allConnections + [c];
      assert State() == AddConnection(s0, c);
      AddConnectionOwned(s0, c, all0);
    }

    /** getAllConnectionNames: the names of all the connections, in creation order. */
    method GetAllConnectionNames() returns (names: seq<string>)
      ensures |names| == |allConnections|
      ensures forall i :: 0 <= i < |allConnections| ==> names[i] == allConnections[i].name
    {
      names := [];
      for i := 0 to |allConnections|
        invariant |names| == i
        invariant forall j :: 0 <= j < i ==> names[j] == allConnections[j].name
      {
        names := names + [allConnections[i].name];
      }
    }

    /** getClientConnection(name): the first connection created with that name, or
        null. */
    method GetClientConnectionByName(name: string) returns (r: Option<Connection>)
      ensures r.Some? ==> (r.value.name == name
        && exists i :: 0 <= i < |allConnections| && allConnections[i] == r.value
             && forall j :: 0 <= j < i ==> allConnections[j].name != name)
      ensures r.None? <==> forall c :: c in allConnections ==> c.name != name
    {
      for i := 0 to |allConnections|
        invariant forall j :: 0 <= j < i ==> allConnections[j].name != name
      {
        if allConnections[i].name == name {
          return Some(allConnections[i]);
        }
      }
      return None;
    }

    /** Scans the pool of priority k, leaving every other pool as it was. */
    method ScanOne(k: int, st: Snapshot) returns (found: Option<Connection>)
      requires k in pools && pools[k].Valid() && Separate()
      modifies pools[k]
      ensures PoolMap() == old(PoolMap())[k := pools[k].State()]
      ensures PoolScan(found, pools[k].State()) == ScanPool(old(PoolMap())[k], |old(PoolMap())[k].list|, st)
    {
      var pool := pools[k];
      ghost var before := PoolMap();
      assert pool.State() == before[k];
      found := pool.Scan(st);
      forall k2 | k2 in pools ensures PoolMap()[k2] == before[k := pool.State()][k2] {
        if k2 != k {
          assert pools[k2] != pool;
        }
      }
      assert PoolMap() == before[k := pool.State()];
    }

    /** The loop of one round: the pools in the map's order until one yields an ACTIVE
        connection; returns the priorities whose pool was emptied. */
    method ScanInOrder(st: Snapshot) returns (found: Option<Connection>, toRemove: set<int>)
      requires Descending(order) && (forall k :: k in order ==> k in pools) && MapValid(PoolMap())
      requires (forall k :: k in PoolMap() ==> |PoolMap()[k].list| > 0) && Separate()
      modifies pools.Values
      ensures (found, PoolMap()) == ScanPools(old(PoolMap()), order, st)
      ensures toRemove == Empties(PoolMap())
    {
      ghost var m0 := PoolMap();
      ghost var cur := m0;
      toRemove := {};
      assert forall k :: k !in Empties(cur);
      var i := 0;
      found := None;
      while found.None? && i < |order|
        invariant 0 <= i <= |order| && cur == PoolMap()
        invariant Descending(order) && (forall k :: k in order ==> k in pools && k in m0) && MapValid(m0)
        invariant Separate()
        invariant MapValid(cur) && cur.Keys == m0.Keys
        invariant toRemove == Empties(cur) && (forall x :: x in toRemove ==> x in order[..i])
        invariant found.None? ==> ScanPools(m0, order, st) == ScanPools(cur, order[i..], st)
        invariant found.Some? ==> ScanPools(m0, order, st) == (found, cur)
        decreases |order| - i
      {
        var k := order[i];
        assert cur[k] == pools[k].State();
        found := ScanOne(k, st);
        ghost var p := pools[k].State();
        RoundStep(m0, order, st, i, cur, p, found, toRemove);
        cur := cur[k := p];
        if |pools[k].clientList| == 0 {
          toRemove := toRemove + {k};
        }
        i := i + 1;
      }
    }

    /** One round over the pools in the map's order, then removal of the pools left
        empty. */
    method ScanRound(st: Snapshot) returns (found: Option<Connection>)
      requires Valid()
      modifies this, pools.Values
      ensures Valid() && pools.Values <= old(pools.Values) && allConnections == old(allConnections)
      ensures (found, State()) == Round(old(State()), st)
    {
      ghost var s0 := State();
      var toRemove;
      found, toRemove := ScanInOrder(st);
      DropPools(toRemove);
      assert State() == Round(s0, st).1;
      RoundWithin(s0, st);
      OwnedShrink(s0.byPriority, PoolMap(), allConnections);
    }

    /** getClientConnection(oneAttempt), one status snapshot per round; StillWaiting
        when the snapshots run out while the client would go on waiting. */
    method GetClientConnection(oneAttempt: bool, rounds: seq<Snapshot>) returns (r: Lookup)
      requires Valid()
      modifies this, pools.Values
      ensures Valid() && allConnections == old(allConnections)
      ensures (r, State()) == Attempts(old(State()), oneAttempt, rounds)
    {
      var t := 0;
      while true
        invariant Valid() && pools.Values <= old(pools.Values) && allConnections == old(allConnections)
        invariant 0 <= t <= |rounds| && (t > 0 ==> !oneAttempt)
        invariant Attempts(old(State()), oneAttempt, rounds) == Attempts(State(), oneAttempt, rounds[t..])
        decreases |rounds| - t
      {
        if |pools| == 0 {
          assert |PoolMap()| == 0;
          return NoConnection;
        }
        assert PoolMap().Keys == pools.Keys;
        assert |PoolMap()| > 0;
        if t == |rounds| {
          return StillWaiting;
        }
        var found := ScanRound(rounds[t]);
        if found.Some? {
          return Found(found.value);
        }
        if oneAttempt {
          return NoConnection;
        }
        assert rounds[t..][1..] == rounds[t + 1..];
        t := t + 1;
      }
    }

    /** Removes c from the pool of its priority, and the pool once it is empty. */
    method RemoveFailed(c: Connection)
      requires PoolsValid(State()) && Separate() && c.priority in pools
      modifies this, pools.Values
      ensures pools == old(pools) || pools == old(pools) - {c.priority}
      ensures allConnections == old(allConnections)
      ensures State() == AfterStatusChange(old(State()), c, Failed).1
    {
      ghost var s0 := State();
      var k := c.priority;
      var l := RemoveFirst(pools[k].clientList, c);
      var idx := pools[k].lastUsedIndex;
      assert PoolState(pools[k].clientList, idx) == s0.byPriority[k];
      SetPool(k, l, idx);
      if |l| == 0 {
        DropPools({k});
      }
    }

    /** statusChanged: prunes a connection that FAILED from the pool of its priority. */
    method StatusChanged(c: Connection, status: Status) returns (outcome: StatusOutcome)
      requires Valid()
      modifies this, pools.Values
      ensures Valid() && allConnections == old(allConnections)
      ensures (outcome, State()) == AfterStatusChange(old(State()), c, status)
    {
      ghost var s0 := State();
      AfterStatusChangeOwned(s0, c, status, allConnections);
      outcome := Handled;
      if status == Failed && c.priority in pools {
        RemoveFailed(c);
        assert PoolMap().Keys == pools.Keys;
        if |pools| == 0 {
          outcome := NoMoreConnections;
        }
      }
    }
  }
}

/** The bounded frame store, against the history of its insertions. */
module Frames {
  import opened Basics

  datatype FrameId = FrameId(text: string)

  /** `V` is a frame together with its snapshot. */
  datatype StoredFrame<V> = StoredFrame(value: V, ordinal: nat)

  datatype Insertion<V> = Insertion(id: FrameId, value: V)

  // ---- the specification: a history of insertions since the last clear ----

  /** Where `id` was last inserted; -1 if never. */
  function LastIndex<V>(h: seq<Insertion<V>>, id: FrameId): (i: int)
    ensures -1 <= i < |h|
    ensures i >= 0 ==> h[i].id == id
  {
    if h == [] then -1
    else if h[|h| - 1].id == id then |h| - 1
    else LastIndex(h[..|h| - 1], id)
  }

  lemma {:induction false} LastIndexIsLast<V>(h: seq<Insertion<V>>, id: FrameId, j: nat)
    requires j < |h| && h[j].id == id
    ensures LastIndex(h, id) >= j
  {
    if j < |h| - 1 && h[|h| - 1].id != id {
      LastIndexIsLast(h[..|h| - 1], id, j);
    }
  }

  /** The distinct ids of `h`, by last insertion, oldest first. */
  function Recency<V>(h: seq<Insertion<V>>): seq<FrameId> {
    if h == [] then [] else
    Without(Recency(h[..|h| - 1]), h[|h| - 1].id) + [h[|h| - 1].id]
  }

  /** The ids inserted more recently than `id`. */
  ghost function Newer<V>(h: seq<Insertion<V>>, id: FrameId): set<FrameId> {
    set x | x in Recency(h) && LastIndex(h, x) > LastIndex(h, id)
  }

  predicate Distinct(s: seq<FrameId>) {
    s == [] || (s[|s| - 1] !in s[..|s| - 1] && Distinct(s[..|s| - 1]))
  }

  /** `LastIndex` increases along `s`. */
  ghost predicate Ascending<V>(h: seq<Insertion<V>>, s: seq<FrameId>) {
    s != [] ==>
    && Ascending(h, s[..|s| - 1])
    && forall x :: x in s[..|s| - 1] ==> LastIndex(h, x) < LastIndex(h, s[|s| - 1])
  }

  lemma {:induction false} AscendingAt<V>(h: seq<Insertion<V>>, s: seq<FrameId>, i: nat, j: nat)
    requires Ascending(h, s) && i < j < |s|
    ensures LastIndex(h, s[i]) < LastIndex(h, s[j])
  {
    var init := s[..|s| - 1];
    if j == |s| - 1 {
      assert init[i] in init;
    } else {
      AscendingAt(h, init, i, j);
    }
  }

  lemma {:induction false} AscendingDistinct<V>(h: seq<Insertion<V>>, s: seq<FrameId>)
    requires Ascending(h, s)
    ensures Distinct(s)
  {
    if s != [] {
      var (init, last) := (s[..|s| - 1], s[|s| - 1]);
      AscendingDistinct(h, init);
      assert forall x :: x in init ==> LastIndex(h, x) < LastIndex(h, last);
      assert last !in init;
    }
  }

  /** Removing an id keeps the order, and other ids may be judged by a later history. */
  lemma {:induction false} WithoutAscending<V>(h: seq<Insertion<V>>, k: seq<Insertion<V>>, s: seq<FrameId>, x: FrameId)
    requires Ascending(h, s)
    requires forall y :: y in s && y != x ==> LastIndex(k, y) == LastIndex(h, y)
    ensures Ascending(k, Without(s, x))
  {
    if s != [] {
      var (init, last) := (s[..|s| - 1], s[|s| - 1]);
      WithoutAscending(h, k, init, x);
      if last != x {
        assert Without(s, x)[..|Without(init, x)|] == Without(init, x);
      }
    }
  }

  lemma {:induction false} WithoutOne(s: seq<FrameId>, x: FrameId)
    requires Distinct(s)
    ensures |Without(s, x)| == if x in s then |s| - 1 else |s|
    ensures x !in s ==> Without(s, x) == s
  {
    if s != [] {
      WithoutOne(s[..|s| - 1], x);
      assert s == s[..|s| - 1] + [s[|s| - 1]];
    }
  }

  lemma {:induction false} RecencyLists<V>(h: seq<Insertion<V>>, id: FrameId)
    ensures id in Recency(h) <==> LastIndex(h, id) >= 0
    decreases |h|
  {
    if h != [] {
      RecencyLists(h[..|h| - 1], id);
    }
  }

  /** The latest insertion is the newest of all. */
  lemma LatestIsLast<V>(h: seq<Insertion<V>>, s: seq<FrameId>)
    requires h != [] && Ascending(h, s) && h[|h| - 1].id !in s
    ensures Ascending(h, s + [h[|h| - 1].id])
  {
    var id := h[|h| - 1].id;
    assert (s + [id])[..|s|] == s;
    forall x | x in s
      ensures LastIndex(h, x) < LastIndex(h, id)
    {
      assert LastIndex(h, id) == |h| - 1;
      assert x != id;
    }
  }

  /** `Recency` lists exactly the inserted ids, in the order of their last insertions. */
  lemma {:induction false} RecencySorts<V>(h: seq<Insertion<V>>)
    ensures forall id :: id in Recency(h) <==> LastIndex(h, id) >= 0
    ensures Ascending(h, Recency(h)) && Distinct(Recency(h))
    decreases |h|
  {
    forall id: FrameId
      ensures id in Recency(h) <==> LastIndex(h, id) >= 0
    {
      RecencyLists(h, id);
    }
    if h != [] {
      var (init, id) := (h[..|h| - 1], h[|h| - 1].id);
      RecencySorts(init);
      WithoutAscending(init, h, Recency(init), id);
      LatestIsLast(h, Without(Recency(init), id));
    }
    AscendingDistinct(h, Recency(h));
  }

  lemma {:induction false} DistinctSize(s: seq<FrameId>)
    requires Distinct(s)
    ensures |set x | x in s| == |s|
  {
    if s != [] {
      var init := s[..|s| - 1];
      DistinctSize(init);
      assert (set x | x in s) == (set x | x in init) + {s[|s| - 1]};
    }
  }

  lemma {:induction false} DistinctAt(s: seq<FrameId>, i: nat, j: nat)
    requires Distinct(s) && i < j < |s|
    ensures s[i] != s[j]
  {
    if j < |s| - 1 {
      DistinctAt(s[..|s| - 1], i, j);
    }
  }

  lemma TailMember(s: seq<FrameId>, i: nat, x: FrameId)
    requires i <= |s| && x !in s
    ensures x !in s[i..]
  {
  }

  lemma {:induction false} DistinctTail(s: seq<FrameId>, i: nat)
    requires Distinct(s) && i <= |s|
    ensures Distinct(s[i..])
  {
    if i < |s| {
      DistinctTail(s[..|s| - 1], i);
      assert s[i..][..|s| - i - 1] == s[..|s| - 1][i..];
      assert s[i..][|s| - i - 1] == s[|s| - 1];
      TailMember(s[..|s| - 1], i, s[|s| - 1]);
    }
  }

  lemma InTail(s: seq<FrameId>, i: nat, j: nat)
    requires Distinct(s) && i <= |s| && j < |s|
    ensures s[j] in s[i..] <==> j >= i
  {
    if j >= i {
      assert s[i..][j - i] == s[j];
    } else if s[j] in s[i..] {
      var k :| 0 <= k < |s| - i && s[i..][k] == s[j];
      DistinctAt(s, j, i + k);
    }
  }

  lemma TailIsNewer<V>(h: seq<Insertion<V>>, r: seq<FrameId>, i: nat, x: FrameId)
    requires Ascending(h, r) && Distinct(r) && i < |r|
    ensures x in r[i + 1..] <==> x in r && LastIndex(h, x) > LastIndex(h, r[i])
  {
    if x in r {
      var j :| 0 <= j < |r| && r[j] == x;
      InTail(r, i + 1, j);
      if j < i {
        AscendingAt(h, r, j, i);
      } else if j > i {
        AscendingAt(h, r, i, j);
      }
    } else {
      TailMember(r, i + 1, x);
    }
  }

  lemma {:induction false} AscendingTail<V>(h: seq<Insertion<V>>, s: seq<FrameId>, i: nat)
    requires Ascending(h, s) && i <= |s|
    ensures Ascending(h, s[i..])
  {
    if i < |s| {
      var (init, last) := (s[..|s| - 1], s[|s| - 1]);
      AscendingTail(h, init, i);
      assert s[i..][..|s| - i - 1] == init[i..] && s[i..][|s| - i - 1] == last;
      assert forall x :: x in init ==> LastIndex(h, x) < LastIndex(h, last);
      assert forall k :: 0 <= k < |init[i..]| ==> init[i..][k] == init[i + k];
    }
  }

  /** Position in `Recency` counts the newer ids. */
  lemma RecencyRanks<V>(h: seq<Insertion<V>>, i: nat)
    requires i < |Recency(h)|
    ensures |Newer(h, Recency(h)[i])| == |Recency(h)| - 1 - i
  {
    var tail := Recency(h)[i + 1..];
    RecencySorts(h);
    forall x
      ensures x in Newer(h, Recency(h)[i]) <==> x in tail
    {
      TailIsNewer(h, Recency(h), i, x);
    }
    assert Newer(h, Recency(h)[i]) == set x | x in tail;
    DistinctTail(Recency(h), i + 1);
    DistinctSize(tail);
  }

  function Suffix(s: seq<FrameId>, n: nat): seq<FrameId> { if |s| <= n then s else s[|s| - n..] }

  /** A suffix of `Recency` holds exactly the ids that fewer than `limit` others are
      newer than. */
  lemma SuffixIsMostRecent<V>(h: seq<Insertion<V>>, limit: nat, id: FrameId)
    ensures id in Suffix(Recency(h), limit) <==> LastIndex(h, id) >= 0 && |Newer(h, id)| < limit
  {
    var r := Recency(h);
    RecencySorts(h);
    if id in r {
      var i :| 0 <= i < |r| && r[i] == id;
      RecencyRanks(h, i);
      if |r| > limit {
        var cut := |r| - limit;
        if i >= cut {
          assert r[cut..][i - cut] == id;
        } else if id in r[cut..] {
          var j :| 0 <= j < limit && r[cut..][j] == id;
          DistinctAt(r, i, cut + j);
        }
      }
    } else {
      assert forall x :: x in Suffix(r, limit) ==> x in r;
    }
  }

  lemma {:induction false} WithoutAppend(a: seq<FrameId>, b: seq<FrameId>, x: FrameId)
    ensures Without(a + b, x) == Without(a, x) + Without(b, x)
  {
    if b == [] {
      assert a + b == a;
    } else {
      WithoutAppend(a, b[..|b| - 1], x);
      assert (a + b)[..|a + b| - 1] == a + b[..|b| - 1];
    }
  }

  lemma SuffixOfAppend(a: seq<FrameId>, b: seq<FrameId>, n: nat)
    requires a == [] || |b| >= n
    ensures Suffix(a + b, n) == Suffix(b, n)
  {
    assert a == [] ==> a + b == b;
  }

  /** Refreshing `id` in the kept suffix and cutting to the limit gives the suffix of
      the longer history. */
  lemma InsertKeepsOrder<V>(h: seq<Insertion<V>>, e: Insertion<V>, limit: nat)
    requires limit >= 1
    ensures Suffix(Without(Suffix(Recency(h), limit), e.id) + [e.id], limit) == Suffix(Recency(h + [e]), limit)
    ensures Distinct(Suffix(Recency(h), limit))
  {
    var r := Recency(h);
    RecencySorts(h);
    assert (h + [e])[..|h|] == h;
    var kept := Suffix(r, limit);
    var cut := r[..|r| - |kept|];
    assert r == cut + kept;
    DistinctTail(r, |cut|);
    WithoutAppend(cut, kept, e.id);
    WithoutOne(kept, e.id);
    assert Recency(h + [e]) == Without(cut, e.id) + (Without(kept, e.id) + [e.id]);
    SuffixOfAppend(Without(cut, e.id), Without(kept, e.id) + [e.id], limit);
  }

  lemma LastIndexAfter<V>(h: seq<Insertion<V>>, e: Insertion<V>, id: FrameId)
    ensures LastIndex(h + [e], id) == if id == e.id then |h| else LastIndex(h, id)
  {
    assert (h + [e])[..|h|] == h;
  }

  lemma HeadNotInTail(s: seq<FrameId>)
    requires Distinct(s) && s != []
    ensures s[0] !in s[1..]
  {
    if s[0] in s[1..] {
      var j :| 0 <= j < |s| - 1 && s[1..][j] == s[0];
      DistinctAt(s, 0, j + 1);
    }
  }

  lemma WithoutDistinct(s: seq<FrameId>, x: FrameId)
    requires Distinct(s)
    ensures Distinct(Without(s, x) + [x])
  {
    WithoutKeepsDistinct(s, x);
    assert (Without(s, x) + [x])[..|Without(s, x)|] == Without(s, x);
  }

  lemma {:induction false} WithoutKeepsDistinct(s: seq<FrameId>, x: FrameId)
    requires Distinct(s)
    ensures Distinct(Without(s, x))
  {
    if s != [] {
      var (init, last) := (s[..|s| - 1], s[|s| - 1]);
      WithoutKeepsDistinct(init, x);
      if last != x {
        assert Without(s, x)[..|Without(init, x)|] == Without(init, x);
      }
    }
  }

  /** `order` lists the map's keys, once each. */
  ghost predicate Lists<T>(order: seq<FrameId>, m: map<FrameId, T>) {
    Distinct(order) && forall id :: id in m <==> id in order
  }

  lemma ListsSize<T>(order: seq<FrameId>, m: map<FrameId, T>)
    requires Lists(order, m)
    ensures |m| == |order|
  {
    DistinctSize(order);
    assert m.Keys == set x | x in order;
  }

  lemma ListsRefresh<T>(order: seq<FrameId>, m: map<FrameId, T>, id: FrameId, v: T)
    requires Lists(order, m)
    ensures Lists(Without(order, id) + [id], m[id := v])
    ensures id !in m ==> Without(order, id) == order
  {
    WithoutDistinct(order, id);
    WithoutOne(order, id);
  }

  /** `m` is a part of `n`. */
  ghost predicate Within<T>(m: map<FrameId, T>, n: map<FrameId, T>) {
    forall id :: id in m ==> id in n && m[id] == n[id]
  }

  lemma ShorterSuffix(s: seq<FrameId>, n: nat)
    requires 0 < n <= |s|
    ensures Suffix(s, n)[1..] == Suffix(s, n - 1) && |Suffix(s, n - 1)| == n - 1
  {
  }

  lemma ListsPop<T>(order: seq<FrameId>, m: map<FrameId, T>)
    requires Lists(order, m) && order != []
    ensures order[0] in m && Lists(order[1..], m - {order[0]})
  {
    DistinctTail(order, 1);
    HeadNotInTail(order);
    assert order == [order[0]] + order[1..];
  }

  // ---- the store ----

  class FrameStore<V(!new)> {
    var byId: map<FrameId, StoredFrame<V>>
    var order: seq<FrameId>
    var limit: nat
    var ordinalCounter: nat
    ghost var history: seq<Insertion<V>>

    constructor (limit: nat)
      ensures Valid() && this.limit == Max(limit, 1) && history == []
    {
      byId, order, ordinalCounter, history := map[], [], 0, [];
      this.limit := Max(limit, 1);
    }

    /** `order` is the recent end of the history, and the map holds exactly its ids,
        each with the value and the counter reading of its last insertion. */
    ghost predicate Valid()
      reads this
    {
      && limit >= 1 && ordinalCounter >= |history|
      && order == Suffix(Recency(history), limit)
      && Lists(order, byId)
      && Stores(byId, history, ordinalCounter)
    }

    /** What `Valid` means to a caller: exactly the `limit` most recent distinct ids,
        `order` without duplicates, ordinals strictly increasing along it. */
    lemma Retained()
      requires Valid()
      ensures forall id :: id in byId <==> LastIndex(history, id) >= 0 && |Newer(history, id)| < limit
      ensures |order| == |byId|
      ensures forall i, j :: 0 <= i < j < |order| ==> OrderedAt(i, j)
    {
      forall id
        ensures id in byId <==> LastIndex(history, id) >= 0 && |Newer(history, id)| < limit
      {
        SuffixIsMostRecent(history, limit, id);
      }
      ListsSize(order, byId);
      forall i, j | 0 <= i < j < |order|
        ensures OrderedAt(i, j)
      {
        RetainedInOrder(i, j);
      }
    }

    lemma RetainedInOrder(i: nat, j: nat)
      requires Valid() && i < j < |order|
      ensures OrderedAt(i, j)
    {
      RecencySorts(history);
      AscendingTail(history, Recency(history), |Recency(history)| - |order|);
      AscendingAt(history, order, i, j);
      StoredAt(order[i]);
      StoredAt(order[j]);
    }

    lemma StoredAt(id: FrameId)
      requires Valid() && id in order
      ensures id in byId && byId[id].ordinal == ordinalCounter - |history| + LastIndex(history, id) + 1
    {
    }

    ghost predicate OrderedAt(i: nat, j: nat)
      reads this
      requires i < |order| && j < |order|
    {
      && order[i] != order[j] && order[i] in byId && order[j] in byId
      && byId[order[i]].ordinal < byId[order[j]].ordinal
    }

    method Insert(id: FrameId, value: V)
      requires Valid()
      modifies this
      ensures Valid()
      ensures history == old(history) + [Insertion(id, value)]
      ensures limit == old(limit) && ordinalCounter == old(ordinalCounter) + 1
    {
      ghost var e := Insertion(id, value);
      ordinalCounter := ordinalCounter + 1;
      ListsRefresh(order, byId, id, StoredFrame(value, ordinalCounter));
      if id in byId {
        order := Without(order, id);
      }
      byId := byId[id := StoredFrame(value, ordinalCounter)];
      order := order + [id];
      history := history + [e];
      StoresInsert(old(byId), old(history), e, ordinalCounter);
      InsertKeepsOrder(old(history), e, limit);
      ghost var all := byId;
      EnforceLimit();
      StoresSome(all, byId, history, ordinalCounter);
    }

    /** One round: both halves of the source's pop succeed, so neither of its early
        exits is ever taken. */
    method PopOldest()
      requires Lists(order, byId) && order != []
      modifies this`order, this`byId
      ensures order == old(order)[1..]
      ensures Lists(order, byId) && Within(byId, old(byId))
    {
      ListsPop(order, byId);
      var oldest := order[0];
      order := order[1..];
      assert oldest in byId;
      byId := byId - {oldest};
    }

    method EnforceLimit()
      requires Lists(order, byId)
      modifies this`order, this`byId
      ensures order == Suffix(old(order), limit)
      ensures Lists(order, byId) && Within(byId, old(byId))
    {
      ListsSize(order, byId);
      while |byId| > limit
        invariant Lists(order, byId) && |byId| == |order| <= |old(order)|
        invariant order == Suffix(old(order), |order|)
        invariant order == old(order) || |order| >= limit
        invariant Within(byId, old(byId))
        decreases |order|
      {
        ShorterSuffix(old(order), |order|);
        PopOldest();
        ListsSize(order, byId);
      }
    }

    method Clear()
      requires Valid()
      modifies this
      ensures Valid() && history == [] && byId == map[]
      ensures limit == old(limit) && ordinalCounter == old(ordinalCounter)
    {
      byId, order, history := map[], [], [];
    }

    method Get(id: FrameId) returns (r: Option<StoredFrame<V>>)
      requires Valid()
      ensures r.Some? <==> LastIndex(history, id) >= 0 && |Newer(history, id)| < limit
      ensures r.Some? ==> LastIndex(history, id) >= 0 && r.value.value == history[LastIndex(history, id)].value
    {
      Retained();
      r := if id in byId then Some(byId[id]) else None;
    }
  }

  /** Every entry is its id's last insertion, stamped with the counter at that time. */
  ghost predicate Stores<V>(m: map<FrameId, StoredFrame<V>>, h: seq<Insertion<V>>, counter: nat) {
    counter >= |h| &&
    forall id :: id in m ==>
      && LastIndex(h, id) >= 0
      && m[id] == StoredFrame(h[LastIndex(h, id)].value, counter - |h| + LastIndex(h, id) + 1)
  }

  lemma StoresSome<V>(m: map<FrameId, StoredFrame<V>>, part: map<FrameId, StoredFrame<V>>, h: seq<Insertion<V>>,
          counter: nat)
    requires Stores(m, h, counter) && forall id :: id in part ==> id in m && part[id] == m[id]
    ensures Stores(part, h, counter)
  {
  }

  lemma StoresInsert<V>(m: map<FrameId, StoredFrame<V>>, h: seq<Insertion<V>>, e: Insertion<V>, counter: nat)
    requires counter > 0 && Stores(m, h, counter - 1)
    ensures Stores(m[e.id := StoredFrame(e.value, counter)], h + [e], counter)
  {
    forall id
      ensures LastIndex(h + [e], id) == if id == e.id then |h| else LastIndex(h, id)
    {
      LastIndexAfter(h, e, id);
    }
  }
}

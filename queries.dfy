/**
 * The pure part of Shared/queries.py: the lowest-free id allocator shared by
 * getNextIngredientId, getNextRecipeId and getNextUserId, and the id-ordered
 * listing returned by getAllIngredients, getAllRecipes and getAllUsers. The
 * three copies of each are the same code over different collections, so each
 * is modelled once, generic in the rest of the record.
 */
module Queries {
  import opened Wrappers

  /** One stored record: the queries read only its `id`; `data` is the rest. */
  datatype Row<T> = Row(id: int, data: T)

  /** Why a query raises instead of returning. */
  datatype QueryError =
    | NoCollection  // the store answers None: the collection is absent or empty
    | MaxOfEmpty    // `max(ids)` over an empty list of ids
    | MinOfEmpty    // `min(...)` over an empty candidate set

  /** `[row["id"] for row in rows]`. */
  function IdsOf<T>(rows: seq<Row<T>>): seq<int> {
    seq(|rows|, i requires 0 <= i < |rows| => rows[i].id)
  }

  /** Python's `max` over a non-empty list of ints. */
  function Max(ids: seq<int>): (m: int)
    requires ids != []
    ensures m in ids
    ensures forall i :: 0 <= i < |ids| ==> ids[i] <= m
  {
    if |ids| == 1 then ids[0]
    else
      var rest := Max(ids[1..]);
      if rest < ids[0] then ids[0] else rest
  }

  /** Walking up from the lower bound `lo` reaches a least element no later than `w`. */
  lemma {:induction false} LeastAbove(s: set<int>, w: int, lo: int)
    requires w in s
    requires forall x :: x in s ==> lo <= x
    ensures exists m :: m in s && forall x :: x in s ==> m <= x
    decreases w - lo
  {
    if lo in s {
      assert forall x :: x in s ==> lo <= x;
    } else {
      LeastAbove(s, w, lo + 1);
    }
  }

  lemma HasLeast(s: set<int>)
    requires exists w :: w in s
    requires forall x :: x in s ==> 0 <= x
    ensures exists m :: m in s && forall x :: x in s ==> m <= x
  {
    var w :| w in s;
    LeastAbove(s, w, 0);
  }

  /** Python's `min` over a non-empty set of non-negative ints. */
  function MinOf(s: set<int>): (m: int)
    requires exists w :: w in s
    requires forall x :: x in s ==> 0 <= x
    ensures m in s && forall x :: x in s ==> m <= x
  {
    HasLeast(s);
    var m :| m in s && forall x :: x in s ==> m <= x; m
  }

  /** `set(range(0, max(ids) + 2)) - set(ids)`. */
  function Candidates(ids: seq<int>): set<int>
    requires ids != []
  {
    set k | 0 <= k < Max(ids) + 2 && k !in ids
  }

  /**
   * The allocator's promise, independently of how it is computed: `r` is a
   * non-negative id that is not in use while every smaller one is.
   */
  ghost predicate IsLowestFree(ids: seq<int>, r: int) {
    0 <= r && r !in ids && forall k :: 0 <= k < r ==> k in ids
  }

  /**
   * `min(set(range(0, max(ids) + 2)) - set(ids))`. Python evaluates it only
   * for a non-empty list whose maximum is at least -1: otherwise `max` or
   * `min` is applied to an empty argument and raises (see NextId).
   */
  function LowestFreeId(ids: seq<int>): (r: nat)
    requires ids != [] && Max(ids) >= -1
    ensures r !in ids
    ensures r <= Max(ids) + 1
    ensures forall k :: 0 <= k < r ==> k in ids
  {
    assert Max(ids) + 1 in Candidates(ids);
    assert forall k :: 0 <= k < Max(ids) + 2 && k !in ids ==> k in Candidates(ids);
    MinOf(Candidates(ids))
  }

  /** Only one id meets the allocator's promise, so the promise fixes the result. */
  lemma LowestFreeIsUnique(ids: seq<int>, r: int)
    requires ids != [] && Max(ids) >= -1
    requires IsLowestFree(ids, r)
    ensures r == LowestFreeId(ids)
  {
  }

  /** `max` depends only on which values occur, not on order or repetition. */
  lemma MaxDependsOnlyOnSet(a: seq<int>, b: seq<int>)
    requires a != [] && forall x :: x in a <==> x in b
    ensures b != [] && Max(a) == Max(b)
  {
    assert a[0] in a;
    var ma, mb := Max(a), Max(b);
    assert ma in b;
    assert mb in a;
    assert forall x :: x in a ==> x <= ma;
    assert forall x :: x in b ==> x <= mb;
  }

  /**
   * The allocated id depends only on the set of ids in use: reordering the
   * collection or repeating an id does not change it.
   */
  lemma LowestFreeDependsOnlyOnSet(a: seq<int>, b: seq<int>)
    requires a != [] && Max(a) >= -1
    requires forall x :: x in a <==> x in b
    ensures b != [] && Max(b) >= -1
    ensures LowestFreeId(a) == LowestFreeId(b)
  {
    MaxDependsOnlyOnSet(a, b);
    LowestFreeIsUnique(b, LowestFreeId(a));
  }

  /** When the ids in use are exactly 0 .. n-1, the next id is n. */
  lemma LowestFreeOfDenseIds(ids: seq<int>, n: int)
    requires 0 < n
    requires forall x :: x in ids <==> 0 <= x < n
    ensures ids != [] && Max(ids) >= -1
    ensures LowestFreeId(ids) == n
  {
    assert 0 in ids;
    assert Max(ids) in ids;
    LowestFreeIsUnique(ids, n);
  }

  /** Two allocations: the hole at 1 is reused; a dense list yields its length. */
  lemma LowestFreeExamples()
    ensures [0, 2, 3] != [] && Max([0, 2, 3]) >= -1 && LowestFreeId([0, 2, 3]) == 1
    ensures [0, 1, 2] != [] && Max([0, 1, 2]) >= -1 && LowestFreeId([0, 1, 2]) == 3
  {
    var a: seq<int> := [0, 2, 3];
    assert a[0] == 0;
    LowestFreeIsUnique(a, 1);
    LowestFreeOfDenseIds([0, 1, 2], 3);
  }

  /** Rows in ascending id order. */
  ghost predicate SortedById<T>(rows: seq<Row<T>>) {
    forall i, j :: 0 <= i < j < |rows| ==> rows[i].id <= rows[j].id
  }

  /** The rows whose id is `k`, in their order in `rows`. */
  function OfId<T>(rows: seq<Row<T>>, k: int): seq<Row<T>> {
    if rows == [] then []
    else (if rows[0].id == k then [rows[0]] else []) + OfId(rows[1..], k)
  }

  /** Places `x` before the first row whose id is not smaller than its own. */
  function InsertById<T>(x: Row<T>, sorted: seq<Row<T>>): (r: seq<Row<T>>)
    requires SortedById(sorted)
    ensures SortedById(r)
    ensures multiset(r) == multiset(sorted) + multiset{x}
    ensures r[0] == x || (sorted != [] && r[0] == sorted[0])
  {
    if sorted == [] || x.id <= sorted[0].id then [x] + sorted
    else
      var rest := InsertById(x, sorted[1..]);
      assert sorted == [sorted[0]] + sorted[1..];
      assert sorted[0].id <= rest[0].id;
      assert forall j :: 0 <= j < |rest| ==> sorted[0].id <= rest[j].id;
      [sorted[0]] + rest
  }

  /** `sorted(rows, key=lambda row: row["id"])`. */
  function SortById<T>(rows: seq<Row<T>>): (r: seq<Row<T>>)
    ensures SortedById(r)
    ensures multiset(r) == multiset(rows)
  {
    if rows == [] then []
    else
      assert rows == [rows[0]] + rows[1..];
      InsertById(rows[0], SortById(rows[1..]))
  }

  /** OfId of a row put in front of a list. */
  lemma OfIdCons<T>(h: Row<T>, t: seq<Row<T>>, k: int)
    ensures OfId([h] + t, k) == (if h.id == k then [h] else []) + OfId(t, k)
  {
    assert ([h] + t)[1..] == t;
  }

  /** Inserting `x` places it among the rows of its id after none of them: before the first. */
  lemma {:induction false} InsertByIdOfId<T>(x: Row<T>, sorted: seq<Row<T>>, k: int)
    requires SortedById(sorted)
    ensures OfId(InsertById(x, sorted), k) == (if x.id == k then [x] else []) + OfId(sorted, k)
  {
    if sorted == [] || x.id <= sorted[0].id {
      OfIdCons(x, sorted, k);
    } else {
      var head, tail := sorted[0], sorted[1..];
      var rest := InsertById(x, tail);
      InsertByIdOfId(x, tail, k);
      OfIdCons(head, rest, k);
      assert sorted == [head] + tail;
      OfIdCons(head, tail, k);
      if head.id == k {
        assert OfId(rest, k) == OfId(tail, k);
      } else {
        assert OfId(InsertById(x, sorted), k) == OfId(rest, k);
      }
    }
  }

  /**
   * The sort is stable, as Python's `sorted` is: rows that share an id keep
   * their stored order.
   */
  lemma {:induction false} SortByIdIsStable<T>(rows: seq<Row<T>>)
    ensures forall k :: OfId(SortById(rows), k) == OfId(rows, k)
  {
    if rows != [] {
      SortByIdIsStable(rows[1..]);
      forall k ensures OfId(SortById(rows), k) == OfId(rows, k) {
        InsertByIdOfId(rows[0], SortById(rows[1..]), k);
      }
    }
  }

  lemma GroupOfHead<T>(s: seq<Row<T>>)
    ensures s != [] ==> OfId(s, s[0].id) != [] && OfId(s, s[0].id)[0] == s[0]
  {
  }

  lemma {:induction false} GroupMembers<T>(s: seq<Row<T>>, k: int)
    ensures forall e :: e in OfId(s, k) ==> e in s && e.id == k
  {
    if s != [] {
      GroupMembers(s[1..], k);
      assert forall e :: e in s[1..] ==> e in s;
    }
  }

  /** Two id-sorted sequences with the same rows under every id, in the same order, are equal. */
  lemma {:induction false} SortedGroupsDetermine<T>(a: seq<Row<T>>, b: seq<Row<T>>)
    requires SortedById(a) && SortedById(b)
    requires forall k :: OfId(a, k) == OfId(b, k)
    ensures a == b
    decreases |a|
  {
    GroupOfHead(a);
    GroupOfHead(b);
    if a != [] && b != [] {
      var ka, kb := a[0].id, b[0].id;
      GroupMembers(a, kb);
      GroupMembers(b, ka);
      var ea, eb := OfId(b, ka)[0], OfId(a, kb)[0];
      assert ea in b && ea.id == ka;
      assert eb in a && eb.id == kb;
      var i :| 0 <= i < |a| && a[i] == eb;
      var j :| 0 <= j < |b| && b[j] == ea;
      assert ka <= a[i].id && kb <= b[j].id;
      assert a[0] == b[0];
      forall k ensures OfId(a[1..], k) == OfId(b[1..], k) {
        var head := if a[0].id == k then [a[0]] else [];
        assert OfId(a, k) == head + OfId(a[1..], k);
        assert OfId(b, k) == head + OfId(b[1..], k);
        assert OfId(a[1..], k) == (head + OfId(a[1..], k))[|head|..];
        assert OfId(b[1..], k) == (head + OfId(b[1..], k))[|head|..];
      }
      SortedGroupsDetermine(a[1..], b[1..]);
      assert a == [a[0]] + a[1..] && b == [b[0]] + b[1..];
    }
  }

  /**
   * Sorting by id and stability together determine the listing: an ordering
   * of the rows that is ascending by id and keeps the stored order among
   * equal ids is exactly the one SortById returns.
   */
  lemma SortByIdIsDetermined<T>(rows: seq<Row<T>>, listing: seq<Row<T>>)
    requires SortedById(listing)
    requires forall k :: OfId(listing, k) == OfId(rows, k)
    ensures listing == SortById(rows)
  {
    SortByIdIsStable(rows);
    SortedGroupsDetermine(listing, SortById(rows));
  }

  /**
   * `getAllIngredients` (and its copies `getAllRecipes`, `getAllUsers`):
   * the stored rows in ascending id order, stable among equal ids; a store
   * answer of None raises.
   */
  function GetAll<T>(stored: Option<seq<Row<T>>>): (r: Result<seq<Row<T>>, QueryError>)
    ensures r.Err? <==> stored.None?
    ensures r.Err? ==> r.error == NoCollection
    ensures r.Ok? ==> SortedById(r.value) && multiset(r.value) == multiset(stored.value)
    ensures r.Ok? ==> forall k :: OfId(r.value, k) == OfId(stored.value, k)
  {
    match stored
    case None => Err(NoCollection)
    case Some(rows) =>
      SortByIdIsStable(rows);
      Ok(SortById(rows))
  }

  /** Two orderings of the same rows carry the same ids. */
  lemma SameIds<T>(rows: seq<Row<T>>, perm: seq<Row<T>>)
    requires multiset(perm) == multiset(rows)
    ensures forall x :: x in IdsOf(perm) <==> x in IdsOf(rows)
  {
    forall x ensures x in IdsOf(perm) ==> x in IdsOf(rows) {
      if x in IdsOf(perm) {
        var i :| 0 <= i < |perm| && perm[i].id == x;
        assert perm[i] in multiset(rows);
        var j :| 0 <= j < |rows| && rows[j] == perm[i];
        assert IdsOf(rows)[j] == x;
      }
    }
    forall x ensures x in IdsOf(rows) ==> x in IdsOf(perm) {
      if x in IdsOf(rows) {
        var i :| 0 <= i < |rows| && rows[i].id == x;
        assert rows[i] in multiset(perm);
        var j :| 0 <= j < |perm| && perm[j] == rows[i];
        assert IdsOf(perm)[j] == x;
      }
    }
  }

  /**
   * `getNextIngredientId` (and its copies `getNextRecipeId`,
   * `getNextUserId`): the lowest id not in use in the stored collection. It
   * raises when the store answers None, when the collection holds no rows,
   * and when every id is below -1; otherwise the id is fresh, every smaller
   * non-negative id is in use, and it is at most one above the largest id.
   */
  function NextId<T>(stored: Option<seq<Row<T>>>): (r: Result<nat, QueryError>)
    ensures r.Ok? <==> stored.Some? && stored.value != [] && Max(IdsOf(stored.value)) >= -1
    ensures stored.None? ==> r == Err(NoCollection)
    ensures stored == Some([]) ==> r == Err(MaxOfEmpty)
    ensures stored.Some? && stored.value != [] && Max(IdsOf(stored.value)) < -1 ==> r == Err(MinOfEmpty)
    ensures r.Ok? ==> IsLowestFree(IdsOf(stored.value), r.value)
    ensures r.Ok? ==> r.value <= Max(IdsOf(stored.value)) + 1
  {
    match GetAll(stored)
    case Err(e) => Err(e)
    case Ok(rows) =>
      var ids := IdsOf(rows);
      SameIds(stored.value, rows);
      if ids == [] then Err(MaxOfEmpty)
      else
        MaxDependsOnlyOnSet(ids, IdsOf(stored.value));
        if Max(ids) + 2 <= 0 then Err(MinOfEmpty)
        else
          LowestFreeDependsOnlyOnSet(ids, IdsOf(stored.value));
          Ok(LowestFreeId(ids))
  }
}

/**
 * The query shapes shared by both backends: keep the records that pass a
 * filter, order them newest first (`ORDER BY date DESC`), and cut a page
 * (`OFFSET skip LIMIT limit`).
 */
module Queries {
  import opened Wrappers
  import opened Dates

  /** Newest first: no later record has a later date than an earlier one. */
  predicate NewestFirst<T>(s: seq<T>, date: T -> Date) {
    forall i, j :: 0 <= i < j < |s| ==> OnOrBefore(date(s[j]), date(s[i]))
  }

  /** Puts `x` before the first record that is not newer than it. */
  function Insert<T>(x: T, s: seq<T>, date: T -> Date): (r: seq<T>)
    requires NewestFirst(s, date)
    ensures NewestFirst(r, date)
    ensures multiset(r) == multiset(s) + multiset{x}
    ensures forall y :: y in r ==> y == x || y in s
  {
    if s == [] then [x]
    else if OnOrBefore(date(s[0]), date(x)) then
      assert forall k :: 0 <= k < |s| ==> OnOrBefore(date(s[k]), date(s[0]));
      [x] + s
    else
      var t := Insert(x, s[1..], date);
      assert forall y :: y in t ==> OnOrBefore(date(y), date(s[0])) by {
        forall y | y in t
          ensures OnOrBefore(date(y), date(s[0]))
        {
          if y != x {
            var k :| 1 <= k < |s| && s[k] == y;
          }
        }
      }
      assert s == [s[0]] + s[1..];
      [s[0]] + t
  }

  /** `ORDER BY date DESC` over the records in their table order. */
  function SortNewestFirst<T>(s: seq<T>, date: T -> Date): (r: seq<T>)
    ensures NewestFirst(r, date)
    ensures multiset(r) == multiset(s)
  {
    if s == [] then []
    else
      assert s == [s[0]] + s[1..];
      Insert(s[0], SortNewestFirst(s[1..], date), date)
  }

  /** `OFFSET skip LIMIT limit`. */
  function Page<T>(s: seq<T>, skip: nat, limit: nat): (r: seq<T>)
    ensures |r| <= limit
    ensures |r| == if skip >= |s| then 0 else if |s| - skip < limit then |s| - skip else limit
    ensures forall i :: 0 <= i < |r| ==> r[i] == s[skip + i]
  {
    var rest := if skip >= |s| then [] else s[skip..];
    if |rest| <= limit then rest else rest[..limit]
  }

  /**
   * `r` is the page of `s` that `OFFSET skip LIMIT limit` selects, as SQLite
   * reads the endpoints' unchecked integers: a negative offset is no offset
   * and a negative limit is no limit. The page starts at the offset and runs
   * to the limit or to the end of `s`, whichever comes first.
   */
  ghost predicate SqlWindow<T>(r: seq<T>, s: seq<T>, skip: int, limit: int) {
    var from := if skip < 0 then 0 else skip;
    |r| == (if from >= |s| then 0 else if limit < 0 || |s| - from < limit then |s| - from else limit)
    && forall i :: 0 <= i < |r| ==> from + i < |s| && r[i] == s[from + i]
  }

  /** `.offset(skip).limit(limit)` with the endpoints' unchecked integers. */
  function SqlPage<T>(s: seq<T>, skip: int, limit: int): (r: seq<T>)
    ensures SqlWindow(r, s, skip, limit)
    ensures limit >= 0 ==> |r| <= limit
  {
    Page(s, if skip < 0 then 0 else skip, if limit < 0 then |s| else limit)
  }

  /** A page of a newest-first sequence is newest first. */
  lemma PageNewestFirst<T>(s: seq<T>, skip: nat, limit: nat, date: T -> Date)
    requires NewestFirst(s, date)
    ensures NewestFirst(Page(s, skip, limit), date)
  {
    var r := Page(s, skip, limit);
    forall i, j | 0 <= i < j < |r|
      ensures OnOrBefore(date(r[j]), date(r[i]))
    {
      assert r[i] == s[skip + i] && r[j] == s[skip + j];
    }
  }

  /** The records of `s` that pass `keep`, in their original order. */
  function Filter<T>(s: seq<T>, keep: T -> bool): (r: seq<T>)
    ensures forall y :: y in r ==> y in s && keep(y)
    ensures forall y :: y in s && keep(y) ==> y in r
    ensures |r| <= |s|
  {
    if s == [] then []
    else if keep(s[0]) then [s[0]] + Filter(s[1..], keep)
    else Filter(s[1..], keep)
  }

  /** `next(x for x in s if p(x))` as a position: the first element that satisfies `p`. */
  function FirstIndex<T>(s: seq<T>, p: T -> bool): (r: Option<nat>)
    ensures r.Some? ==> r.value < |s| && p(s[r.value]) && forall k :: 0 <= k < r.value ==> !p(s[k])
    ensures r.None? <==> forall k :: 0 <= k < |s| ==> !p(s[k])
  {
    if s == [] then None
    else if p(s[0]) then Some(0)
    else match FirstIndex(s[1..], p)
      case None => None
      case Some(k) => Some(k + 1)
  }

  /** No two records share an id. */
  predicate UniqueIds<T>(s: seq<T>, idOf: T -> int) {
    forall i, j :: 0 <= i < j < |s| ==> idOf(s[i]) != idOf(s[j])
  }

  /** Every id was handed out by a counter that now stands at `next`. */
  predicate IdsBelow<T>(s: seq<T>, idOf: T -> int, next: int) {
    forall i :: 0 <= i < |s| ==> 1 <= idOf(s[i]) < next
  }

  /** `query.filter(id == id).first()` as a position. */
  function IndexOfId<T>(s: seq<T>, idOf: T -> int, id: int): (r: Option<nat>)
    ensures r.Some? ==> r.value < |s| && idOf(s[r.value]) == id
    ensures r.None? <==> forall k :: 0 <= k < |s| ==> idOf(s[k]) != id
  {
    if s == [] then None
    else if idOf(s[0]) == id then Some(0)
    else match IndexOfId(s[1..], idOf, id)
      case None => None
      case Some(k) => Some(k + 1)
  }

  /** The sequence without its element at position `i`, the others kept in order. */
  function RemoveAt<T>(s: seq<T>, i: nat): (r: seq<T>)
    requires i < |s|
    ensures |r| == |s| - 1
    ensures forall k :: 0 <= k < i ==> r[k] == s[k]
    ensures forall k :: i <= k < |r| ==> r[k] == s[k + 1]
  {
    s[..i] + s[i + 1..]
  }

  /** Removing the record with a unique id leaves no record with that id and keeps ids unique. */
  lemma RemoveUniqueId<T>(s: seq<T>, idOf: T -> int, i: nat)
    requires i < |s| && UniqueIds(s, idOf)
    ensures UniqueIds(RemoveAt(s, i), idOf)
    ensures forall k :: 0 <= k < |s| - 1 ==> idOf(RemoveAt(s, i)[k]) != idOf(s[i])
  {
    var r := RemoveAt(s, i);
    forall a, b | 0 <= a < b < |r|
      ensures idOf(r[a]) != idOf(r[b])
    {
      var a' := if a < i then a else a + 1;
      var b' := if b < i then b else b + 1;
      assert r[a] == s[a'] && r[b] == s[b'];
    }
    forall k | 0 <= k < |r|
      ensures idOf(r[k]) != idOf(s[i])
    {
      var k' := if k < i then k else k + 1;
      assert r[k] == s[k'];
    }
  }
}

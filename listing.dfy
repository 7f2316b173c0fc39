/**
 * The listing convention shared by every paginated endpoint: the matching records,
 * newest first, `.limit(limit).skip((page - 1) * limit)`, together with the total
 * and `totalPages: Math.ceil(total / limit)`.
 */
module Listing {
  import opened Wrappers
  import opened Seqs

  /** `page` and `limit` when the query string leaves them out. */
  const DefaultPage: int := 1
  const DefaultLimit: int := 10

  function Abs(x: int): nat {
    if x < 0 then -x else x
  }

  function Min(a: int, b: int): int {
    if a <= b then a else b
  }

  /**
   * `Math.ceil(total / limit)`. With `limit == 0` the quotient is `Infinity` or `NaN`,
   * both of which JSON prints as `null`: that is `None`.
   */
  function TotalPages(total: nat, limit: int): (r: Option<int>)
    ensures r.None? <==> limit == 0
    ensures limit > 0 ==> r.Some? && (r.value - 1) * limit < total <= r.value * limit
    ensures limit < 0 ==> r.Some? && r.value * limit <= total < (r.value - 1) * limit
  {
    if limit == 0 then None
    else if limit > 0 then
      var q := (total + limit - 1) / limit;
      assert total + limit - 1 == q * limit + (total + limit - 1) % limit;
      assert (q - 1) * limit == q * limit - limit;
      Some(q)
    else
      var b := -limit;
      var q := total / b;
      assert total == q * b + total % b;
      assert -q * limit == q * b;
      assert (-q - 1) * limit == q * b + b;
      Some(-q)
  }

  /** The number of records skipped, `(page - 1) * limit`. */
  function Skip(page: int, limit: int): int {
    (page - 1) * limit
  }

  /**
   * `.limit(limit).skip((page - 1) * limit)` applied to an ordered result. The database
   * refuses a negative skip (`None`); a limit of 0 means no limit, and a negative limit
   * counts by its absolute value.
   */
  function Paginate<T>(items: seq<T>, page: int, limit: int): (r: Option<seq<T>>)
    ensures r.None? <==> Skip(page, limit) < 0
    ensures r.Some? ==>
      var rest := if Skip(page, limit) <= |items| then |items| - Skip(page, limit) else 0;
      |r.value| == if limit == 0 then rest else Min(rest, Abs(limit))
    ensures r.Some? ==> forall k :: 0 <= k < |r.value| ==>
      Skip(page, limit) + k < |items| && r.value[k] == items[Skip(page, limit) + k]
  {
    var skip := Skip(page, limit);
    if skip < 0 then None
    else
      var rest := if skip <= |items| then items[skip..] else [];
      Some(if limit == 0 || |rest| <= Abs(limit) then rest else rest[..Abs(limit)])
  }

  lemma MulMonotone(a: int, b: int, c: int)
    requires a <= b && c > 0
    ensures a * c <= b * c
  {
    assert b * c - a * c == (b - a) * c;
  }

  /** With a positive limit, every item appears on page `i / limit + 1`, at position `i % limit`. */
  lemma ItemOnItsPage<T>(items: seq<T>, limit: int, i: int)
    requires limit > 0 && 0 <= i < |items|
    ensures var page := i / limit + 1;
      Paginate(items, page, limit).Some? &&
      i % limit < |Paginate(items, page, limit).value| &&
      Paginate(items, page, limit).value[i % limit] == items[i]
  {
    var page := i / limit + 1;
    assert i == (i / limit) * limit + i % limit;
    assert Skip(page, limit) == (i / limit) * limit;
  }

  /** With a positive limit, the pages that hold anything are exactly pages 1 to `totalPages`. */
  lemma NonEmptyPages<T>(items: seq<T>, page: int, limit: int)
    requires limit > 0 && page >= 1
    ensures Paginate(items, page, limit).Some?
    ensures |Paginate(items, page, limit).value| > 0 <==> page <= TotalPages(|items|, limit).value
  {
    var t := TotalPages(|items|, limit).value;
    MulMonotone(1, page, limit);
    if page <= t {
      MulMonotone(page - 1, t - 1, limit);
    } else {
      MulMonotone(t, page - 1, limit);
    }
  }

  /** Every element of `s` has a creation time. */
  ghost predicate Timed<K>(s: seq<K>, created: map<K, int>) {
    forall i :: 0 <= i < |s| ==> s[i] in created
  }

  /** `.sort({ createdAt: -1 })`: newest first; records created at the same time may come in any order. */
  ghost predicate Sorted<K>(s: seq<K>, created: map<K, int>)
    requires Timed(s, created)
  {
    forall i, j :: 0 <= i < j < |s| ==> created[s[i]] >= created[s[j]]
  }

  /** `s` lists the records `keys`, each once, newest first. */
  ghost predicate NewestFirst<K>(s: seq<K>, keys: set<K>, created: map<K, int>) {
    && Timed(s, created)
    && Sorted(s, created)
    && NoDup(s)
    && (forall i :: 0 <= i < |s| ==> s[i] in keys)
    && (forall k :: k in keys ==> k in s)
  }

  /** Where `k` goes in a newest-first list: after everything at least as new. */
  function InsertPos<K>(s: seq<K>, k: K, created: map<K, int>): (p: nat)
    requires k in created && Timed(s, created)
    ensures p <= |s|
    ensures forall i :: 0 <= i < p ==> created[s[i]] >= created[k]
    ensures p < |s| ==> created[s[p]] < created[k]
  {
    if s == [] || created[s[0]] < created[k] then 0
    else 1 + InsertPos(s[1..], k, created)
  }

  /** The elements of `s` with `k` inserted at position `p`. */
  lemma InsertedAt<K>(s: seq<K>, k: K, p: nat, i: int)
    requires p <= |s| && 0 <= i <= |s|
    ensures |s[..p] + [k] + s[p..]| == |s| + 1
    ensures (s[..p] + [k] + s[p..])[i] == if i < p then s[i] else if i == p then k else s[i - 1]
  {
  }

  /** Inserting at `InsertPos` keeps a list newest first. */
  lemma InsertKeepsOrder<K>(s: seq<K>, k: K, created: map<K, int>)
    requires k in created && Timed(s, created) && Sorted(s, created)
    ensures var r := s[..InsertPos(s, k, created)] + [k] + s[InsertPos(s, k, created)..];
      Timed(r, created) && Sorted(r, created)
  {
    var p := InsertPos(s, k, created);
    var r := s[..p] + [k] + s[p..];
    forall i | 0 <= i < |r| ensures r[i] in created {
      InsertedAt(s, k, p, i);
    }
    forall i, j | 0 <= i < j < |r| ensures created[r[i]] >= created[r[j]] {
      InsertedAt(s, k, p, i);
      InsertedAt(s, k, p, j);
      if i <= p < j && j - 1 != p {
        assert created[s[p]] >= created[s[j - 1]];
      }
    }
  }

  /** Inserting a new key keeps a list duplicate-free. */
  lemma InsertKeepsNoDup<K>(s: seq<K>, k: K, p: nat)
    requires p <= |s| && NoDup(s) && k !in s
    ensures NoDup(s[..p] + [k] + s[p..])
  {
    var r := s[..p] + [k] + s[p..];
    forall i, j | 0 <= i < j < |r| ensures r[i] != r[j] {
      InsertedAt(s, k, p, i);
      InsertedAt(s, k, p, j);
    }
  }

  /** Builds the newest-first listing of `keys`, one insertion at a time. */
  method SortNewestFirst<K(==)>(keys: set<K>, created: map<K, int>) returns (s: seq<K>)
    requires keys <= created.Keys
    ensures NewestFirst(s, keys, created)
  {
    s := [];
    var rest := keys;
    while rest != {}
      invariant rest <= keys
      invariant Timed(s, created) && Sorted(s, created) && NoDup(s)
      invariant forall i :: 0 <= i < |s| ==> s[i] in keys && s[i] !in rest
      invariant forall k :: k in keys && k !in rest ==> k in s
      decreases |rest|
    {
      var k :| k in rest;
      InsertKeepsOrder(s, k, created);
      var p := InsertPos(s, k, created);
      InsertKeepsNoDup(s, k, p);
      s := s[..p] + [k] + s[p..];
      rest := rest - {k};
    }
  }

  /** A page of a listing, as the JSON response carries it. */
  datatype Page<T> = Page(items: seq<T>, total: nat, currentPage: int, totalPages: Option<int>)

  /** The response for `page` of the ordered records `order`; `None` when the database refuses the skip. */
  function PageOf<T>(order: seq<T>, page: int, limit: int): Option<Page<T>> {
    match Paginate(order, page, limit)
    case None => None
    case Some(items) => Some(Page(items, |order|, page, TotalPages(|order|, limit)))
  }

  /** A listing of `keys`: newest first, one page of it, and the number of matching records. */
  method ListNewestFirst<K(==)>(keys: set<K>, created: map<K, int>, page: int, limit: int)
    returns (r: Option<Page<K>>)
    requires keys <= created.Keys
    ensures exists order :: NewestFirst(order, keys, created) && r == PageOf(order, page, limit)
    ensures r.Some? ==> r.value.total == |keys|
    ensures r.Some? <==> Skip(page, limit) >= 0
  {
    var order := SortNewestFirst(keys, created);
    NoDupCard(order);
    assert Elements(order) == keys;
    r := PageOf(order, page, limit);
  }
}

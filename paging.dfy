/** Offset/limit pagination shared by the product and inventory listings:
    `skip = (page - 1) * limit`, the window the store returns for that skip
    and limit, and `totalPages = Math.ceil(total / limit)`. */
module Paging {
  import opened Api

  function Abs(n: int): nat { if n < 0 then -n else n }

  /** The query defaults `page = 1, limit = 10`, used when the parameter is absent. */
  const DefaultPage: int := 1
  const DefaultLimit: int := 10

  /** A parsed query integer, or its default when the parameter is absent. */
  function QueryInt(v: Option<int>, default: int): (n: int)
    ensures v.Some? ==> n == v.value
    ensures v.None? ==> n == default
  {
    match v
    case Some(x) => x
    case None => default
  }

  /** Offset of the first document of a page: `(page - 1) * limit`. The first
      page starts at 0, and with a positive limit the offset is negative
      exactly for a page below 1. */
  function Skip(page: int, limit: int): (s: int)
    ensures page == 1 ==> s == 0
    ensures limit > 0 ==> (s < 0 <==> page < 1)
    ensures limit < 0 ==> (s < 0 <==> page > 1)
  {
    ProductSign(page - 1, limit);
    (page - 1) * limit
  }

  lemma ProductSign(a: int, b: int)
    ensures b > 0 ==> (a * b < 0 <==> a < 0)
    ensures b < 0 ==> (a * b < 0 <==> a > 0)
  {
    if b > 0 {
      if a >= 0 { MulMonotone(0, a, b); } else { MulMonotone(a, -1, b); }
    } else if b < 0 {
      assert a * b == (-a) * (-b);
      if a <= 0 { MulMonotone(0, -a, -b); } else { MulMonotone(-a, -1, -b); }
    }
  }

  /** `Math.ceil(total / limit)` for a non-zero limit, characterised as the
      least integer not below the quotient. */
  function CeilDiv(total: nat, limit: int): (r: int)
    requires limit != 0
    ensures limit > 0 ==> 0 <= r && (r - 1) * limit < total <= r * limit
    ensures limit < 0 ==> r <= 0 && r * limit <= total < (r - 1) * limit
  {
    if limit > 0 then
      var q := (total + limit - 1) / limit;
      assert q * limit + (total + limit - 1) % limit == total + limit - 1;
      q
    else
      var q := total / -limit;
      assert q * -limit + total % -limit == total;
      -q
  }

  /** `Math.ceil(total / limit)` as the response carries it: a limit of 0
      gives Infinity or NaN, which the JSON response writes as null. */
  function TotalPages(total: nat, limit: int): (r: Option<int>)
    ensures r.None? <==> limit == 0
    ensures limit > 0 ==> r.value >= 0 && (r.value - 1) * limit < total <= r.value * limit
  {
    if limit == 0 then None else Some(CeilDiv(total, limit))
  }

  /** The documents `.skip(skip).limit(limit)` returns: a limit of 0 means no
      limit, and a negative limit returns at most |limit| documents. */
  function Window<T>(rows: seq<T>, skip: nat, limit: int): (w: seq<T>)
    ensures skip >= |rows| ==> w == []
    ensures skip < |rows| ==> |w| == if limit == 0 || |rows| - skip <= Abs(limit) then |rows| - skip else Abs(limit)
    ensures forall k :: 0 <= k < |w| ==> skip + k < |rows| && w[k] == rows[skip + k]
  {
    var rest := if skip <= |rows| then rows[skip..] else [];
    if limit == 0 || |rest| <= Abs(limit) then rest else rest[..Abs(limit)]
  }

  /** A window of a sequence whose keys decrease has decreasing keys. */
  lemma WindowKeepsDecreasing<T>(rows: seq<T>, skip: nat, limit: int, key: T -> int)
    requires forall i, j :: 0 <= i < j < |rows| ==> key(rows[i]) > key(rows[j])
    ensures var w := Window(rows, skip, limit);
      forall i, j :: 0 <= i < j < |w| ==> key(w[i]) > key(w[j])
  {
    var w := Window(rows, skip, limit);
    forall i, j | 0 <= i < j < |w| ensures key(w[i]) > key(w[j]) {
      assert w[i] == rows[skip + i] && w[j] == rows[skip + j];
    }
  }

  /** The listing payload: `{ items, page, limit, total, totalPages }`. */
  datatype Listing<T> = Listing(items: seq<T>, page: int, limit: int, total: nat, totalPages: Option<int>)

  /** One page of `matches` (already in response order). A negative skip is
      refused by the store, which surfaces as an internal error. */
  function Paginate<T>(matches: seq<T>, page: int, limit: int): (r: Response<Listing<T>>)
    ensures r.Failure? <==> Skip(page, limit) < 0
    ensures r.Failure? ==> r.error == Internal
    ensures r.Success? ==> r.code == 200 && r.data.page == page && r.data.limit == limit
    ensures r.Success? ==> r.data.total == |matches|
    ensures r.Success? ==> r.data.items == Window(matches, Skip(page, limit), limit)
    ensures r.Success? ==> forall x :: x in r.data.items ==> x in matches
    ensures r.Success? && limit != 0 ==> |r.data.items| <= Abs(limit)
    ensures r.Success? && limit != 0 ==> r.data.totalPages == Some(CeilDiv(|matches|, limit))
    ensures r.Success? && limit == 0 ==> r.data.totalPages.None?
  {
    var skip := Skip(page, limit);
    if skip < 0 then Failure(Internal)
    else Success(200, Listing(Window(matches, skip, limit), page, limit, |matches|, TotalPages(|matches|, limit)))
  }

  /** A page past the last one is empty and is not an error. */
  lemma PageBeyondLastIsEmpty<T>(matches: seq<T>, page: int, limit: int)
    requires limit > 0 && page > CeilDiv(|matches|, limit)
    ensures Paginate(matches, page, limit) == Success(200, Listing([], page, limit, |matches|, Some(CeilDiv(|matches|, limit))))
  {
    var c := CeilDiv(|matches|, limit);
    MulMonotone(c, page - 1, limit);
  }

  lemma MulMonotone(a: int, b: int, limit: int)
    requires a <= b && limit > 0
    ensures a * limit <= b * limit
  {
    assert b * limit - a * limit == (b - a) * limit;
  }

  /** The document at position k of the response order is shown on page
      k / limit + 1, at position k % limit, and that page is within totalPages. */
  lemma PageOfPosition<T>(matches: seq<T>, k: nat, limit: int)
    requires limit > 0 && k < |matches|
    ensures 1 <= k / limit + 1 <= CeilDiv(|matches|, limit)
    ensures var r := Paginate(matches, k / limit + 1, limit);
      r.Success? && k % limit < |r.data.items| && r.data.items[k % limit] == matches[k]
  {
    var q, m := k / limit, k % limit;
    assert q * limit + m == k;
    var skip := Skip(q + 1, limit);
    assert skip == q * limit;
    QuotientBelow(k, CeilDiv(|matches|, limit), limit);
    var w := Window(matches, skip, limit);
    assert skip + m == k;
  }

  lemma QuotientBelow(k: nat, c: int, limit: int)
    requires limit > 0 && k < c * limit
    ensures k / limit < c
  {
    var q := k / limit;
    assert q * limit <= k;
    assert (c - q) * limit == c * limit - q * limit;
    assert (c - q) * limit > 0;
  }

  /** Pages 1..n of `matches`, concatenated. */
  ghost function PagesUpTo<T>(matches: seq<T>, limit: int, n: nat): seq<T>
    requires limit > 0
  {
    if n == 0 then [] else PagesUpTo(matches, limit, n - 1) + Window(matches, Skip(n, limit), limit)
  }

  function Min(a: int, b: int): int { if a <= b then a else b }

  lemma {:induction false} PagesUpToIsPrefix<T>(matches: seq<T>, limit: int, n: nat)
    requires limit > 0
    ensures PagesUpTo(matches, limit, n) == matches[..Min(n * limit, |matches|)]
  {
    if n > 0 {
      PagesUpToIsPrefix(matches, limit, n - 1);
      var skip := (n - 1) * limit;
      var end := n * limit;
      assert Skip(n, limit) == skip;
      assert end == skip + limit;
      var w := Window(matches, skip, limit);
      var before := matches[..Min(skip, |matches|)];
      assert PagesUpTo(matches, limit, n) == before + w;
      if skip >= |matches| {
        assert w == [];
      } else {
        assert before + w == matches[..Min(end, |matches|)];
      }
    }
  }

  /** Pages 1..totalPages show every match exactly once, in order. */
  lemma PagesCoverAllMatches<T>(matches: seq<T>, limit: int)
    requires limit > 0
    ensures PagesUpTo(matches, limit, CeilDiv(|matches|, limit)) == matches
  {
    var c := CeilDiv(|matches|, limit);
    PagesUpToIsPrefix(matches, limit, c);
    assert Min(c * limit, |matches|) == |matches|;
  }
}

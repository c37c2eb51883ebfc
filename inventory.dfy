/** The inventory collection: one row per (product, store) pair, each with a
    quantity, an expiry date and a status derived from that date. */
module Inventory {
  import opened Api
  import opened Collections
  import opened Paging

  /** The statuses the backend produces. */
  datatype Status = Fresh | Expired

  function StatusName(s: Status): string
  {
    match s
    case Fresh => "fresh"
    case Expired => "expired"
  }

  /** The status rule: expired exactly when the expiry date lies before `now`. */
  function StatusAt(expiryDate: int, now: int): (s: Status)
    ensures s == Expired <==> expiryDate < now
    ensures s == Fresh <==> now <= expiryDate
  {
    if expiryDate < now then Expired else Fresh
  }

  /** A date exactly at `now` is still fresh. */
  lemma ExpiryAtNowIsFresh(t: int)
    ensures StatusAt(t, t) == Fresh
  {
  }

  /** Once expired at some time, a row is expired at every later time. */
  lemma ExpiredStaysExpired(expiryDate: int, now: int, later: int)
    requires now <= later && StatusAt(expiryDate, now) == Expired
    ensures StatusAt(expiryDate, later) == Expired
  {
  }

  /** A stored row. `id` is the document id and also its creation order;
      times are milliseconds since the epoch. */
  datatype InventoryItem = InventoryItem(
    id: nat,
    product: string,
    store: string,
    quantity: Value,
    expiryDate: int,
    status: Status,
    wastePrediction: Value,
    recommendation: Value)

  /** The upsert body. An absent product or store is the empty string; the
      expiry date is the parsed date, None when absent or empty. */
  datatype UpsertRequest = UpsertRequest(product: string, store: string, quantity: Value, expiryDate: Option<int>)

  /** `!product || !store || !quantity || !expiryDate`: note that a quantity of 0 is missing too. */
  predicate MissingRequiredField(req: UpsertRequest)
    ensures req.quantity == Num(0.0) ==> MissingRequiredField(req)
    ensures !Truthy(req.quantity) ==> MissingRequiredField(req)
    ensures Truthy(req.quantity) && req.product != "" && req.store != "" && req.expiryDate.Some?
      ==> !MissingRequiredField(req)
    ensures req.product == "" || req.store == "" || req.expiryDate.None? ==> MissingRequiredField(req)
    ensures req.quantity.Num? && req.quantity.num != 0.0 && req.product != "" && req.store != "" && req.expiryDate.Some?
      ==> !MissingRequiredField(req)
  {
    req.product == "" || req.store == "" || !Truthy(req.quantity) || req.expiryDate.None?
  }

  predicate HasKey(x: InventoryItem, product: string, store: string)
  {
    x.product == product && x.store == store
  }

  function KeyIs(product: string, store: string): InventoryItem -> bool
  {
    x => HasKey(x, product, store)
  }

  function ProductIs(product: string): InventoryItem -> bool
  {
    (x: InventoryItem) => x.product == product
  }

  function IdIs(id: nat): InventoryItem -> bool
  {
    (x: InventoryItem) => x.id == id
  }

  function CreationOrder(x: InventoryItem): int
  {
    x.id
  }

  /** The listing filter: an empty store or status means no filter. */
  predicate Matches(x: InventoryItem, store: string, status: string): (b: bool)
    ensures store == "" && status == "" ==> b
    ensures b && store != "" ==> x.store == store
    ensures status == "" ==> (b <==> store == "" || x.store == store)
    ensures status == "fresh" ==> (b <==> x.status == Fresh && (store == "" || x.store == store))
    ensures status == "expired" ==> (b <==> x.status == Expired && (store == "" || x.store == store))
    ensures status != "" && status != "fresh" && status != "expired" ==> !b
  {
    (store == "" || x.store == store) && (status == "" || StatusName(x.status) == status)
  }

  function Selects(store: string, status: string): InventoryItem -> bool
  {
    x => Matches(x, store, status)
  }

  function Matching(rows: seq<InventoryItem>, store: string, status: string): seq<InventoryItem>
  {
    Filter(rows, Selects(store, status))
  }

  /** A filter value the backend never produces, such as "near expiry", selects nothing. */
  lemma UnknownStatusSelectsNothing(rows: seq<InventoryItem>, store: string, status: string)
    requires status != "" && status != "fresh" && status != "expired"
    ensures Matching(rows, store, status) == []
  {
    forall k | 0 <= k < |rows| ensures !Selects(store, status)(rows[k]) {
      assert StatusName(rows[k].status) in {"fresh", "expired"};
    }
    FilterSelectsNothing(rows, Selects(store, status));
  }

  function Refresh(x: InventoryItem, now: int): InventoryItem
  {
    x.(status := StatusAt(x.expiryDate, now))
  }

  /** Every row with its status re-derived at one instant `now`. */
  function Refreshed(rows: seq<InventoryItem>, now: int): (r: seq<InventoryItem>)
    ensures |r| == |rows|
    ensures forall k :: 0 <= k < |r| ==> (r[k].status == Expired <==> rows[k].expiryDate < now)
    ensures forall k :: 0 <= k < |r| ==> r[k] == rows[k].(status := r[k].status)
  {
    seq(|rows|, i requires 0 <= i < |rows| => Refresh(rows[i], now))
  }

  /** Refreshing twice at the same instant is the same as refreshing once. */
  lemma RefreshIdempotent(rows: seq<InventoryItem>, now: int)
    ensures Refreshed(Refreshed(rows, now), now) == Refreshed(rows, now)
  {
  }

  /** The sweep keeps ids, products and stores, so a well-formed collection
      stays well formed: ids still increase and every key still has one row. */
  lemma RefreshKeepsWellFormed(rows: seq<InventoryItem>, nextId: nat, now: int)
    requires WellFormed(rows, nextId)
    ensures WellFormed(Refreshed(rows, now), nextId)
  {
  }

  /** A row the sweep marks expired at one instant is marked expired by a
      sweep at any later instant. */
  lemma LaterRefreshKeepsExpired(rows: seq<InventoryItem>, now: int, later: int)
    requires now <= later
    ensures forall k :: 0 <= k < |rows| && Refreshed(rows, now)[k].status == Expired ==>
      Refreshed(rows, later)[k].status == Expired
  {
  }

  /** Ids are below `nextId` and increase along the collection (creation
      order), and no two rows share a (product, store) key. */
  ghost predicate WellFormed(rows: seq<InventoryItem>, nextId: nat)
  {
    && (forall i :: 0 <= i < |rows| ==> rows[i].id < nextId)
    && (forall i, j :: 0 <= i < j < |rows| ==> rows[i].id < rows[j].id)
    && (forall i, j :: 0 <= i < j < |rows| ==> !HasKey(rows[j], rows[i].product, rows[i].store))
  }

  /** Rewriting a row in place, keeping its id and key, keeps the collection well formed. */
  lemma UpdateInPlaceKeepsWellFormed(rows: seq<InventoryItem>, nextId: nat, i: nat, item: InventoryItem)
    requires WellFormed(rows, nextId) && i < |rows|
    requires item.id == rows[i].id && HasKey(item, rows[i].product, rows[i].store)
    ensures WellFormed(rows[i := item], nextId)
  {
  }

  /** Appending a row with a fresh id and a new key keeps the collection well
      formed: no key ever has two rows. */
  lemma InsertKeepsWellFormed(rows: seq<InventoryItem>, nextId: nat, item: InventoryItem)
    requires WellFormed(rows, nextId) && item.id == nextId
    requires forall j :: 0 <= j < |rows| ==> !HasKey(rows[j], item.product, item.store)
    ensures WellFormed(rows + [item], nextId + 1)
  {
  }

  class InventoryTable {
    var rows: seq<InventoryItem>
    var nextId: nat

    ghost predicate Valid()
      reads this
    {
      WellFormed(rows, nextId)
    }

    constructor ()
      ensures Valid() && rows == [] && nextId == 0
    {
      rows := [];
      nextId := 0;
    }

    /** Creates or updates the row for (product, store). The status is
        computed once, from the expiry date and `now`. */
    method UpsertInventoryItem(req: UpsertRequest, now: int) returns (r: Response<InventoryItem>)
      requires Valid()
      modifies this
      ensures Valid()
      ensures MissingRequiredField(req) ==>
        r == Failure(BadRequest) && rows == old(rows) && nextId == old(nextId)
      ensures !MissingRequiredField(req) ==>
        var status := StatusAt(req.expiryDate.value, now);
        && r.Success? && r.code == 200
        && HasKey(r.data, req.product, req.store)
        && r.data.quantity == req.quantity && r.data.expiryDate == req.expiryDate.value
        && (r.data.status == Expired <==> req.expiryDate.value < now)
        && match FirstWhere(old(rows), KeyIs(req.product, req.store))
           case Some(i) =>
             && rows == old(rows)[i := r.data]
             && r.data == old(rows)[i].(quantity := req.quantity, expiryDate := req.expiryDate.value, status := status)
             && nextId == old(nextId)
           case None =>
             && rows == old(rows) + [r.data]
             && r.data == InventoryItem(old(nextId), req.product, req.store, req.quantity,
                                        req.expiryDate.value, status, Absent, Absent)
             && nextId == old(nextId) + 1
    {
      if MissingRequiredField(req) {
        return Failure(BadRequest);
      }
      var expiry := req.expiryDate.value;
      var status := if expiry < now then Expired else Fresh;
      match FirstWhere(rows, KeyIs(req.product, req.store))
      case Some(i) =>
        var item := rows[i].(quantity := req.quantity, expiryDate := expiry, status := status);
        UpdateInPlaceKeepsWellFormed(rows, nextId, i, item);
        rows := rows[i := item];
        r := Success(200, item);
      case None =>
        var item := InventoryItem(nextId, req.product, req.store, req.quantity, expiry, status, Absent, Absent);
        forall j | 0 <= j < |rows| ensures !HasKey(rows[j], item.product, item.store) {
          assert !KeyIs(req.product, req.store)(rows[j]);
        }
        InsertKeepsWellFormed(rows, nextId, item);
        rows := rows + [item];
        nextId := nextId + 1;
        r := Success(200, item);
    }

    /** One page of the rows matching the optional store and status filters,
        newest first, with the count of all matches. */
    method GetInventoryItems(store: string, status: string, page: Option<int>, limit: Option<int>)
      returns (r: Response<Listing<InventoryItem>>)
      requires Valid()
      ensures r == Paginate(Reverse(Matching(rows, store, status)), QueryInt(page, DefaultPage), QueryInt(limit, DefaultLimit))
      ensures page.None? && limit.None? ==> r.Success? && r.data.page == 1 && r.data.limit == 10 && |r.data.items| <= 10
      ensures r.Failure? <==> Skip(QueryInt(page, DefaultPage), QueryInt(limit, DefaultLimit)) < 0
      ensures r.Success? ==> r.data.total == |Matching(rows, store, status)|
      ensures r.Success? ==> forall x :: x in r.data.items ==> x in rows && Matches(x, store, status)
      ensures r.Success? && r.data.limit > 0 ==> |r.data.items| <= r.data.limit
      ensures r.Success? && r.data.limit != 0 ==> r.data.totalPages == Some(CeilDiv(r.data.total, r.data.limit))
      ensures r.Success? ==> forall i, j :: 0 <= i < j < |r.data.items| ==> r.data.items[i].id > r.data.items[j].id
    {
      var matches := Matching(rows, store, status);
      var newestFirst := Reverse(matches);
      var pageNo, pageSize := QueryInt(page, DefaultPage), QueryInt(limit, DefaultLimit);
      r := Paginate(newestFirst, pageNo, pageSize);
      if r.Success? {
        FilterKeepsIncreasing(rows, Selects(store, status), CreationOrder);
        ReverseOfIncreasing(matches, CreationOrder);
        WindowKeepsDecreasing(newestFirst, Skip(pageNo, pageSize), pageSize, CreationOrder);
        forall x | x in r.data.items ensures x in rows && Matches(x, store, status) {
          ReverseKeepsElements(matches, x);
        }
      }
    }

    /** Deletes the first row for product `id`; the rows of that product at
        other stores remain. */
    method DeleteInventoryItem(id: string) returns (r: Response<InventoryItem>)
      requires Valid()
      modifies this
      ensures Valid() && nextId == old(nextId)
      ensures r.Failure? <==> forall x :: x in old(rows) ==> x.product != id
      ensures r.Failure? ==> r.error == NotFound && rows == old(rows)
      ensures r.Success? ==>
        var i := FirstWhere(old(rows), ProductIs(id)).value;
        && r == Success(200, old(rows)[i])
        && rows == RemoveAt(old(rows), i)
        && multiset(rows) + multiset{r.data} == multiset(old(rows))
    {
      match FirstWhere(rows, ProductIs(id))
      case None =>
        r := Failure(NotFound);
      case Some(i) =>
        r := Success(200, rows[i]);
        rows := RemoveAt(rows, i);
    }

    /** Records a waste prediction and recommendation on row `id`; nothing else changes. */
    method UpdateWastePrediction(id: nat, wastePrediction: Value, recommendation: Value)
      returns (r: Response<InventoryItem>)
      requires Valid()
      modifies this
      ensures Valid() && nextId == old(nextId) && |rows| == |old(rows)|
      ensures r.Failure? <==> forall x :: x in old(rows) ==> x.id != id
      ensures r.Failure? ==> r.error == NotFound && rows == old(rows)
      ensures r.Success? ==>
        var i := FirstWhere(old(rows), IdIs(id)).value;
        && r == Success(200, rows[i])
        && rows == old(rows)[i := old(rows)[i].(wastePrediction := wastePrediction, recommendation := recommendation)]
    {
      match FirstWhere(rows, IdIs(id))
      case None =>
        r := Failure(NotFound);
      case Some(i) =>
        var item := rows[i].(wastePrediction := wastePrediction, recommendation := recommendation);
        rows := rows[i := item];
        r := Success(200, item);
    }

    /** Re-derives every row's status against one `now`, row by row, and
        returns the refreshed rows. */
    method RefreshExpiryStatus(now: int) returns (items: seq<InventoryItem>)
      requires Valid()
      modifies this
      ensures Valid() && nextId == old(nextId)
      ensures rows == Refreshed(old(rows), now) && items == rows
      ensures forall i :: 0 <= i < |rows| ==> (rows[i].status == Expired <==> rows[i].expiryDate < now)
    {
      var i := 0;
      while i < |rows|
        invariant 0 <= i <= |rows| == |old(rows)|
        invariant nextId == old(nextId)
        invariant forall k :: 0 <= k < i ==> rows[k] == Refresh(old(rows)[k], now)
        invariant forall k :: i <= k < |rows| ==> rows[k] == old(rows)[k]
      {
        var item := rows[i];
        if item.expiryDate < now {
          item := item.(status := Expired);
        } else {
          item := item.(status := Fresh);
        }
        rows := rows[i := item];
        i := i + 1;
      }
      items := rows;
    }
  }
}

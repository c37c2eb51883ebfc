/** The product collection: creation with required-field validation, a
    filtered and paginated listing, and find, update and delete by id. */
module Products {
  import opened Api
  import opened Collections
  import opened Paging
  import opened Text

  /** The fields of a product, as the request body supplies them. */
  datatype ProductFields = ProductFields(
    name: Value,
    category: Value,
    packaging: Value,
    unit: Value,
    country: Value,
    region: Value,
    price: Value,
    inventoryLevel: Value,
    unitsSold: Value,
    demandForecast: Value,
    shelfLife: Value)

  /** A stored product; `id` is its document id and also its creation order. */
  datatype Product = Product(id: nat, fields: ProductFields)

  /** `field?.toString().trim() === ""`: only a present text of white space
      alone trips it; an absent field does not, and no number prints blank. */
  predicate BlankWhenPresent(v: Value)
    ensures BlankWhenPresent(v) <==> v.Text? && IsBlank(v.text)
  {
    if v.Text? then
      TrimEmptyIffBlank(v.text);
      Trim(v.text) == ""
    else
      false
  }

  function RequiredFields(f: ProductFields): seq<Value>
  {
    [f.name, f.category, f.packaging, f.unit, f.country, f.region, f.price]
  }

  /** Only a required field that is a text can make creation fail, and a
      blank name alone is enough. */
  predicate HasBlankRequiredField(f: ProductFields)
    ensures HasBlankRequiredField(f) ==> exists v :: v in RequiredFields(f) && v.Text?
    ensures f.name.Text? && IsBlank(f.name.text) ==> HasBlankRequiredField(f)
  {
    assert f.name in RequiredFields(f);
    assert f.name.Text? && IsBlank(f.name.text) ==> BlankWhenPresent(f.name);
    exists v :: v in RequiredFields(f) && BlankWhenPresent(v)
  }

  /** Creation is refused exactly when one of name, category, packaging,
      unit, country, region or price is a text of white space alone. */
  lemma ValidationRejectsBlankText(f: ProductFields)
    ensures HasBlankRequiredField(f) <==>
      exists v :: v in RequiredFields(f) && v.Text? && IsBlank(v.text)
  {
    forall v | v in RequiredFields(f) && v.Text? {
      TrimEmptyIffBlank(v.text);
    }
  }

  /** Absent or numeric required fields never trip the validation. */
  lemma AbsentFieldsPass(f: ProductFields)
    requires forall v :: v in RequiredFields(f) ==> !v.Text?
    ensures !HasBlankRequiredField(f)
  {
  }

  /** The fields stored by a create: those given, with a falsy shelf life replaced by 0. */
  function WithDefaults(f: ProductFields): (g: ProductFields)
    ensures Truthy(f.shelfLife) ==> g == f
    ensures !Truthy(f.shelfLife) ==> g == f.(shelfLife := Num(0.0))
  {
    f.(shelfLife := Or(f.shelfLife, Num(0.0)))
  }

  /** The update body: each field is either supplied (Some) or left alone (None). */
  datatype ProductPatch = ProductPatch(
    name: Option<Value>,
    category: Option<Value>,
    packaging: Option<Value>,
    unit: Option<Value>,
    country: Option<Value>,
    region: Option<Value>,
    price: Option<Value>,
    inventoryLevel: Option<Value>,
    unitsSold: Option<Value>,
    demandForecast: Option<Value>,
    shelfLife: Option<Value>)

  function Pick(current: Value, supplied: Option<Value>): Value
  {
    match supplied
    case Some(v) => v
    case None => current
  }

  /** The stored fields after `findByIdAndUpdate(id, body, { new: true })`.
      Only the supplied fields change, so the fields the patch leaves out are
      kept, and nothing changes for a patch that supplies nothing. */
  function ApplyPatch(f: ProductFields, p: ProductPatch): (g: ProductFields)
    ensures p == EmptyPatch ==> g == f
    ensures (&& p.name.None? && p.category.None? && p.packaging.None? && p.unit.None?
             && p.country.None? && p.region.None? && p.price.None?)
      ==> RequiredFields(g) == RequiredFields(f)
  {
    ProductFields(
      Pick(f.name, p.name), Pick(f.category, p.category), Pick(f.packaging, p.packaging),
      Pick(f.unit, p.unit), Pick(f.country, p.country), Pick(f.region, p.region),
      Pick(f.price, p.price), Pick(f.inventoryLevel, p.inventoryLevel), Pick(f.unitsSold, p.unitsSold),
      Pick(f.demandForecast, p.demandForecast), Pick(f.shelfLife, p.shelfLife))
  }

  const EmptyPatch: ProductPatch :=
    ProductPatch(None, None, None, None, None, None, None, None, None, None, None)

  /** `q` supplies every field that `p` supplies. */
  predicate Covers(q: ProductPatch, p: ProductPatch)
  {
    && (p.name.Some? ==> q.name.Some?) && (p.category.Some? ==> q.category.Some?)
    && (p.packaging.Some? ==> q.packaging.Some?) && (p.unit.Some? ==> q.unit.Some?)
    && (p.country.Some? ==> q.country.Some?) && (p.region.Some? ==> q.region.Some?)
    && (p.price.Some? ==> q.price.Some?) && (p.inventoryLevel.Some? ==> q.inventoryLevel.Some?)
    && (p.unitsSold.Some? ==> q.unitsSold.Some?) && (p.demandForecast.Some? ==> q.demandForecast.Some?)
    && (p.shelfLife.Some? ==> q.shelfLife.Some?)
  }

  /** A later update that supplies every field an earlier one supplied
      erases the earlier one: the last write wins field by field. */
  lemma LaterPatchOverrides(f: ProductFields, p: ProductPatch, q: ProductPatch)
    requires Covers(q, p)
    ensures ApplyPatch(ApplyPatch(f, p), q) == ApplyPatch(f, q)
  {
  }

  /** Applying the same update twice is the same as applying it once. */
  lemma PatchIdempotent(f: ProductFields, p: ProductPatch)
    ensures ApplyPatch(ApplyPatch(f, p), p) == ApplyPatch(f, p)
  {
  }

  /** A supplied field takes the supplied value; a field left out keeps its value. */
  lemma PatchOverwritesOnlySupplied(f: ProductFields, p: ProductPatch)
    ensures var g := ApplyPatch(f, p);
      && (p.name.None? ==> g.name == f.name) && (p.name.Some? ==> g.name == p.name.value)
      && (p.category.None? ==> g.category == f.category) && (p.category.Some? ==> g.category == p.category.value)
      && (p.packaging.None? ==> g.packaging == f.packaging) && (p.packaging.Some? ==> g.packaging == p.packaging.value)
      && (p.unit.None? ==> g.unit == f.unit) && (p.unit.Some? ==> g.unit == p.unit.value)
      && (p.country.None? ==> g.country == f.country) && (p.country.Some? ==> g.country == p.country.value)
      && (p.region.None? ==> g.region == f.region) && (p.region.Some? ==> g.region == p.region.value)
      && (p.price.None? ==> g.price == f.price) && (p.price.Some? ==> g.price == p.price.value)
      && (p.inventoryLevel.None? ==> g.inventoryLevel == f.inventoryLevel) && (p.inventoryLevel.Some? ==> g.inventoryLevel == p.inventoryLevel.value)
      && (p.unitsSold.None? ==> g.unitsSold == f.unitsSold) && (p.unitsSold.Some? ==> g.unitsSold == p.unitsSold.value)
      && (p.demandForecast.None? ==> g.demandForecast == f.demandForecast) && (p.demandForecast.Some? ==> g.demandForecast == p.demandForecast.value)
      && (p.shelfLife.None? ==> g.shelfLife == f.shelfLife) && (p.shelfLife.Some? ==> g.shelfLife == p.shelfLife.value)
  {
  }

  /** The listing filter: an empty category or search means no filter; the
      search looks for `search` in the name, ignoring case. */
  predicate Matches(p: Product, category: string, search: string): (b: bool)
    ensures category == "" && search == "" ==> b
    ensures b && category != "" ==> p.fields.category == Text(category)
    ensures b && search != "" ==> p.fields.name.Text? && exists i :: OccursIgnoringCase(p.fields.name.text, search, i)
    ensures (&& p.fields.category == Text(category) && p.fields.name.Text?
             && exists i :: OccursIgnoringCase(p.fields.name.text, search, i))
      ==> b
    ensures (&& category == "" && p.fields.name.Text?
             && exists i :: OccursIgnoringCase(p.fields.name.text, search, i))
      ==> b
    ensures search == "" && p.fields.category == Text(category) ==> b
  {
    && (category == "" || p.fields.category == Text(category))
    && (search == "" || (p.fields.name.Text? && ContainsIgnoringCase(p.fields.name.text, search)))
  }

  function Selects(category: string, search: string): Product -> bool
  {
    p => Matches(p, category, search)
  }

  function Matching(products: seq<Product>, category: string, search: string): seq<Product>
  {
    Filter(products, Selects(category, search))
  }

  function IdIs(id: nat): Product -> bool
  {
    (p: Product) => p.id == id
  }

  function CreationOrder(p: Product): int
  {
    p.id
  }

  class ProductTable {
    var products: seq<Product>
    var nextId: nat

    /** Ids are below `nextId` and increase along the collection (creation order). */
    ghost predicate Valid()
      reads this
    {
      && (forall i :: 0 <= i < |products| ==> products[i].id < nextId)
      && (forall i, j :: 0 <= i < j < |products| ==> products[i].id < products[j].id)
    }

    constructor ()
      ensures Valid() && products == [] && nextId == 0
    {
      products := [];
      nextId := 0;
    }

    /** Validates the required fields and stores a new product, answering 201. */
    method CreateProduct(f: ProductFields) returns (r: Response<Product>)
      requires Valid()
      modifies this
      ensures Valid()
      ensures HasBlankRequiredField(f) ==>
        r == Failure(BadRequest) && products == old(products) && nextId == old(nextId)
      ensures !HasBlankRequiredField(f) ==>
        && r == Success(201, Product(old(nextId), WithDefaults(f)))
        && products == old(products) + [r.data]
        && nextId == old(nextId) + 1
    {
      if exists v :: v in RequiredFields(f) && BlankWhenPresent(v) {
        return Failure(BadRequest);
      }
      var product := Product(nextId, WithDefaults(f));
      products := products + [product];
      nextId := nextId + 1;
      r := Success(201, product);
    }

    /** One page of the products matching the optional category and search
        filters, newest first, with the count of all matches. */
    method GetAllProducts(page: Option<int>, limit: Option<int>, category: string, search: string)
      returns (r: Response<Listing<Product>>)
      requires Valid()
      ensures r == Paginate(Reverse(Matching(products, category, search)), QueryInt(page, DefaultPage), QueryInt(limit, DefaultLimit))
      ensures page.None? && limit.None? ==> r.Success? && r.data.page == 1 && r.data.limit == 10 && |r.data.items| <= 10
      ensures r.Failure? <==> Skip(QueryInt(page, DefaultPage), QueryInt(limit, DefaultLimit)) < 0
      ensures r.Success? ==> r.data.total == |Matching(products, category, search)|
      ensures r.Success? ==> forall p :: p in r.data.items ==> p in products && Matches(p, category, search)
      ensures r.Success? && r.data.limit > 0 ==> |r.data.items| <= r.data.limit
      ensures r.Success? && r.data.limit != 0 ==> r.data.totalPages == Some(CeilDiv(r.data.total, r.data.limit))
      ensures r.Success? ==> forall i, j :: 0 <= i < j < |r.data.items| ==> r.data.items[i].id > r.data.items[j].id
    {
      var matches := Matching(products, category, search);
      var newestFirst := Reverse(matches);
      var pageNo, pageSize := QueryInt(page, DefaultPage), QueryInt(limit, DefaultLimit);
      r := Paginate(newestFirst, pageNo, pageSize);
      if r.Success? {
        FilterKeepsIncreasing(products, Selects(category, search), CreationOrder);
        ReverseOfIncreasing(matches, CreationOrder);
        WindowKeepsDecreasing(newestFirst, Skip(pageNo, pageSize), pageSize, CreationOrder);
        forall p | p in r.data.items ensures p in products && Matches(p, category, search) {
          ReverseKeepsElements(matches, p);
        }
      }
    }

    /** The product with id `id`, or 404. */
    method GetProductById(id: nat) returns (r: Response<Product>)
      requires Valid()
      ensures r.Failure? <==> forall p :: p in products ==> p.id != id
      ensures r.Failure? ==> r.error == NotFound
      ensures r.Success? ==> r.code == 200 && r.data in products && r.data.id == id
    {
      match FirstWhere(products, IdIs(id))
      case None =>
        r := Failure(NotFound);
      case Some(i) =>
        r := Success(200, products[i]);
    }

    /** Overwrites the supplied fields of product `id`, or answers 404. */
    method UpdateProduct(id: nat, patch: ProductPatch) returns (r: Response<Product>)
      requires Valid()
      modifies this
      ensures Valid() && nextId == old(nextId) && |products| == |old(products)|
      ensures r.Failure? <==> forall p :: p in old(products) ==> p.id != id
      ensures r.Failure? ==> r.error == NotFound && products == old(products)
      ensures r.Success? ==>
        var i := FirstWhere(old(products), IdIs(id)).value;
        && r == Success(200, products[i])
        && products == old(products)[i := Product(id, ApplyPatch(old(products)[i].fields, patch))]
    {
      match FirstWhere(products, IdIs(id))
      case None =>
        r := Failure(NotFound);
      case Some(i) =>
        var product := Product(id, ApplyPatch(products[i].fields, patch));
        products := products[i := product];
        r := Success(200, product);
    }

    /** Deletes product `id` and returns it, or answers 404. */
    method DeleteProduct(id: nat) returns (r: Response<Product>)
      requires Valid()
      modifies this
      ensures Valid() && nextId == old(nextId)
      ensures r.Failure? <==> forall p :: p in old(products) ==> p.id != id
      ensures r.Failure? ==> r.error == NotFound && products == old(products)
      ensures r.Success? ==>
        && r.code == 200 && r.data in old(products) && r.data.id == id
        && multiset(products) + multiset{r.data} == multiset(old(products))
        && forall p :: p in products ==> p.id != id
    {
      match FirstWhere(products, IdIs(id))
      case None =>
        r := Failure(NotFound);
      case Some(i) =>
        r := Success(200, products[i]);
        products := RemoveAt(products, i);
    }
  }
}

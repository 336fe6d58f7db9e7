/** The product records the inventory page caches, the column names it writes, and the two
    list expressions of src/App.jsx: the `products.map` that patches one product after a
    confirmed update, and the `products.filter` that decides which rows are listed. */
module Products {
  import opened Wrappers
  import opened JsText

  /** Row identities and timestamps are opaque values handed out by the remote store and the clock. */
  type Id = string
  type Timestamp = string

  /** The three stock locations a quantity cell can edit. */
  datatype Field = Inventory1F | Inventory2F | InventoryWarehouse {
    /** The column name the list passes as `field` when a quantity cell is clicked. */
    function Key(): string {
      match this
      case Inventory1F => "inventory_1f"
      case Inventory2F => "inventory_2f"
      case InventoryWarehouse => "inventory_warehouse"
    }
  }

  /** A cached product row: the columns the page reads or writes. `None` is `null`. */
  datatype Product = Product(
    id: Id,
    name: string,
    sku: string,
    categoryId: Option<string>,
    notes: Option<string>,
    inventory1F: int,
    inventory2F: int,
    inventoryWarehouse: int,
    inventory1FUpdatedAt: Option<Timestamp>,
    inventory2FUpdatedAt: Option<Timestamp>,
    inventoryWarehouseUpdatedAt: Option<Timestamp>)

  /** A column value as the remote store and the cached object hold it. */
  datatype Value = Null | Text(text: string) | Number(number: int)

  /** Every column of a product besides its identity. */
  datatype Column = Name | Sku | CategoryId | Notes | Quantity(field: Field) | UpdatedAt(field: Field)

  /** The property name of each column in the product object. */
  function ColumnKey(c: Column): string {
    match c
    case Name => "name"
    case Sku => "sku"
    case CategoryId => "category_id"
    case Notes => "notes"
    case Quantity(f) => f.Key()
    case UpdatedAt(Inventory1F) => "inventory_1f_updated_at"
    case UpdatedAt(Inventory2F) => "inventory_2f_updated_at"
    case UpdatedAt(InventoryWarehouse) => "inventory_warehouse_updated_at"
  }

  /** Each quantity's timestamp column is named by appending `_updated_at` to the quantity's
      own name, the warehouse included, which is what the code computes before every update
      and before every read of a timestamp. */
  lemma UpdatedAtKeyConvention(f: Field)
    ensures ColumnKey(UpdatedAt(f)) == f.Key() + "_updated_at"
  {
  }

  /** Distinct columns have distinct names, so writing one property never overwrites another. */
  lemma ColumnKeyInjective(c: Column, d: Column)
    ensures ColumnKey(c) == ColumnKey(d) ==> c == d
  {
  }

  function OrNullValue(o: Option<string>): Value {
    match o
    case None => Null
    case Some(s) => Text(s)
  }

  /** The value of column `c` of `p`. */
  function Get(p: Product, c: Column): Value {
    match c
    case Name => Text(p.name)
    case Sku => Text(p.sku)
    case CategoryId => OrNullValue(p.categoryId)
    case Notes => OrNullValue(p.notes)
    case Quantity(Inventory1F) => Number(p.inventory1F)
    case Quantity(Inventory2F) => Number(p.inventory2F)
    case Quantity(InventoryWarehouse) => Number(p.inventoryWarehouse)
    case UpdatedAt(Inventory1F) => OrNullValue(p.inventory1FUpdatedAt)
    case UpdatedAt(Inventory2F) => OrNullValue(p.inventory2FUpdatedAt)
    case UpdatedAt(InventoryWarehouse) => OrNullValue(p.inventoryWarehouseUpdatedAt)
  }

  function Stock(p: Product, f: Field): int {
    match f
    case Inventory1F => p.inventory1F
    case Inventory2F => p.inventory2F
    case InventoryWarehouse => p.inventoryWarehouse
  }

  /** The data-model invariant: no stock count is negative. */
  predicate StockNonNegative(ps: seq<Product>) {
    forall i, f :: 0 <= i < |ps| ==> Stock(ps[i], f) >= 0
  }

  /** The object `{ [field]: quantity, [field + '_updated_at']: stamp }` sent with, and
      spread over the cached row after, a quantity update. */
  function QuantityUpdate(f: Field, q: int, stamp: Timestamp): map<string, Value> {
    map[f.Key() := Number(q), f.Key() + "_updated_at" := Text(stamp)]
  }

  /** `{ ...p, [field]: quantity, [field + '_updated_at']: stamp }`. */
  function SetQuantity(p: Product, f: Field, q: int, stamp: Timestamp): Product {
    match f
    case Inventory1F => p.(inventory1F := q, inventory1FUpdatedAt := Some(stamp))
    case Inventory2F => p.(inventory2F := q, inventory2FUpdatedAt := Some(stamp))
    case InventoryWarehouse => p.(inventoryWarehouse := q, inventoryWarehouseUpdatedAt := Some(stamp))
  }

  /** Setting a quantity is spreading the update object over the row: every column the
      object names takes the object's value, every other column and the identity stay. */
  lemma SetQuantitySpreadsUpdate(p: Product, f: Field, q: int, stamp: Timestamp)
    ensures SetQuantity(p, f, q, stamp).id == p.id
    ensures var u := QuantityUpdate(f, q, stamp);
      forall c :: Get(SetQuantity(p, f, q, stamp), c) == (if ColumnKey(c) in u then u[ColumnKey(c)] else Get(p, c))
  {
    var u := QuantityUpdate(f, q, stamp);
    forall c ensures Get(SetQuantity(p, f, q, stamp), c) ==
      if ColumnKey(c) in u then u[ColumnKey(c)] else Get(p, c)
    {
      UpdatedAtKeyConvention(f);
      ColumnKeyInjective(c, Quantity(f));
      ColumnKeyInjective(c, UpdatedAt(f));
    }
  }

  /** `products.map(p => p.id === target ? update(p) : p)`. */
  function UpdateWhere(ps: seq<Product>, target: Option<Id>, update: Product -> Product): seq<Product> {
    if ps == [] then []
    else [if Some(ps[0].id) == target then update(ps[0]) else ps[0]] + UpdateWhere(ps[1..], target, update)
  }

  /** The map keeps length and order and replaces exactly the rows whose id is the target. */
  lemma {:induction false} UpdateWhereAt(ps: seq<Product>, target: Option<Id>, update: Product -> Product)
    ensures |UpdateWhere(ps, target, update)| == |ps|
    ensures forall i :: 0 <= i < |ps| ==>
      UpdateWhere(ps, target, update)[i] == if Some(ps[i].id) == target then update(ps[i]) else ps[i]
  {
    if ps != [] {
      UpdateWhereAt(ps[1..], target, update);
    }
  }

  /** The cache patch after a confirmed quantity update (src/App.jsx:213-219). */
  function PatchQuantity(ps: seq<Product>, id: Id, f: Field, q: int, stamp: Timestamp): seq<Product> {
    UpdateWhere(ps, Some(id), p => SetQuantity(p, f, q, stamp))
  }

  /** After the patch the list has the same length and order; a row whose id differs is
      unchanged; a row with the edited id keeps its id and changes in the edited quantity
      and its timestamp only. */
  lemma PatchQuantityTouchesOnlyCell(ps: seq<Product>, id: Id, f: Field, q: int, stamp: Timestamp)
    ensures |PatchQuantity(ps, id, f, q, stamp)| == |ps|
    ensures forall i :: 0 <= i < |ps| && ps[i].id != id ==> PatchQuantity(ps, id, f, q, stamp)[i] == ps[i]
    ensures forall i, c :: 0 <= i < |ps| && ps[i].id == id ==>
      PatchQuantity(ps, id, f, q, stamp)[i].id == id &&
      Get(PatchQuantity(ps, id, f, q, stamp)[i], c) ==
        if c == Quantity(f) then Number(q)
        else if c == UpdatedAt(f) then Text(stamp)
        else Get(ps[i], c)
  {
    UpdateWhereAt(ps, Some(id), p => SetQuantity(p, f, q, stamp));
  }

  /** A non-negative quantity keeps every stock count non-negative. */
  lemma PatchQuantityKeepsStockNonNegative(ps: seq<Product>, id: Id, f: Field, q: int, stamp: Timestamp)
    requires StockNonNegative(ps) && q >= 0
    ensures StockNonNegative(PatchQuantity(ps, id, f, q, stamp))
  {
    var r := PatchQuantity(ps, id, f, q, stamp);
    UpdateWhereAt(ps, Some(id), p => SetQuantity(p, f, q, stamp));
    forall i, g | 0 <= i < |r| ensures Stock(r[i], g) >= 0 {
      assert Stock(ps[i], g) >= 0;
    }
  }

  /** The product form's text fields, as the inputs hold them. */
  datatype Draft = Draft(name: string, sku: string, categoryId: string, notes: string)

  const EmptyDraft := Draft("", "", "", "")

  /** The check both the create and the edit form make before any remote call: neither the
      name nor the SKU trims to the empty string, that is, neither is all whitespace. */
  predicate HasNameAndSku(d: Draft) {
    !AllWhitespace(d.name) && !AllWhitespace(d.sku)
  }

  /** The check stated on the trimmed texts, as the forms make it. */
  lemma HasNameAndSkuIffTrimmed(d: Draft)
    ensures HasNameAndSku(d) <==> Trim(d.name) != [] && Trim(d.sku) != []
  {
  }

  /** JavaScript `s || null` on a string: the empty string becomes `null`. */
  function OrNull(s: string): Option<string> {
    if s == "" then None else Some(s)
  }

  /** JavaScript `o || ''` on a string or `null`. */
  function OrEmpty(o: Option<string>): string {
    match o
    case None => ""
    case Some(s) => s
  }

  /** The draft `startEditProduct` fills the edit form with. */
  function DraftOf(p: Product): Draft {
    Draft(p.name, p.sku, OrEmpty(p.categoryId), OrEmpty(p.notes))
  }

  /** `{ ...p, ...draft }`: the draft's four strings replace the row's, verbatim, so an empty
      category or note is cached as the empty string, not as `null`. */
  function MergeDraft(p: Product, d: Draft): (r: Product)
    ensures r.id == p.id
    ensures DraftOf(r) == d
    ensures r.categoryId == Some(d.categoryId) && r.notes == Some(d.notes)
    ensures forall f :: Get(r, Quantity(f)) == Get(p, Quantity(f)) && Get(r, UpdatedAt(f)) == Get(p, UpdatedAt(f))
  {
    p.(name := d.name, sku := d.sku, categoryId := Some(d.categoryId), notes := Some(d.notes))
  }

  /** The cache patch after a confirmed product edit (src/App.jsx:138-140). */
  function MergeInto(ps: seq<Product>, target: Option<Id>, d: Draft): seq<Product> {
    UpdateWhere(ps, target, p => MergeDraft(p, d))
  }

  /** Only rows whose id is the edited id take the draft; every other row is unchanged and
      the list keeps its length and order. */
  lemma MergeIntoTouchesOnlyTarget(ps: seq<Product>, target: Option<Id>, d: Draft)
    ensures |MergeInto(ps, target, d)| == |ps|
    ensures forall i :: 0 <= i < |ps| ==>
      MergeInto(ps, target, d)[i] == if Some(ps[i].id) == target then MergeDraft(ps[i], d) else ps[i]
    ensures StockNonNegative(ps) ==> StockNonNegative(MergeInto(ps, target, d))
  {
    UpdateWhereAt(ps, target, p => MergeDraft(p, d));
    if StockNonNegative(ps) {
      forall i, f | 0 <= i < |ps| ensures Stock(MergeInto(ps, target, d)[i], f) >= 0 {
        assert Stock(MergeInto(ps, target, d)[i], f) == Stock(ps[i], f);
      }
    }
  }

  /** The row the create form inserts. */
  datatype NewRow = NewRow(
    name: string, sku: string, categoryId: Option<string>, notes: Option<string>,
    inventory1F: int, inventory2F: int, inventoryWarehouse: int)

  /** The insert of src/App.jsx:76-84: name and SKU as typed (untrimmed), an empty category or
      note sent as `null`, and every stock count starting at zero. */
  function NewRowOf(d: Draft): (r: NewRow)
    ensures r.name == d.name && r.sku == d.sku
    ensures r.categoryId == None <==> d.categoryId == ""
    ensures r.notes == None <==> d.notes == ""
    ensures OrEmpty(r.categoryId) == d.categoryId && OrEmpty(r.notes) == d.notes
    ensures r.inventory1F == 0 && r.inventory2F == 0 && r.inventoryWarehouse == 0
  {
    NewRow(d.name, d.sku, OrNull(d.categoryId), OrNull(d.notes), 0, 0, 0)
  }

  /** The search box: the lowered query occurs in the lowered name or the lowered SKU. */
  predicate MatchesSearch(p: Product, query: string) {
    Contains(ToLower(p.name), ToLower(query)) || Contains(ToLower(p.sku), ToLower(query))
  }

  /** The category selector: the sentinel `all`, or the product's own category id. */
  predicate MatchesCategory(p: Product, selected: string) {
    selected == "all" || p.categoryId == Some(selected)
  }

  predicate Shown(p: Product, query: string, selected: string) {
    MatchesSearch(p, query) && MatchesCategory(p, selected)
  }

  /** The search ignores letter case on both sides: products whose name and SKU differ only
      in case, searched with queries that differ only in case, match alike. */
  lemma MatchesSearchIgnoresCase(p: Product, p': Product, query: string, query': string)
    requires SameUpToCase(p.name, p'.name) && SameUpToCase(p.sku, p'.sku)
    requires SameUpToCase(query, query')
    ensures MatchesSearch(p, query) == MatchesSearch(p', query')
  {
    ToLowerIgnoresCase(p.name, p'.name);
    ToLowerIgnoresCase(p.sku, p'.sku);
    ToLowerIgnoresCase(query, query');
  }

  /** `products.filter(...)` of src/App.jsx:335-339 and 358-363. */
  function Visible(ps: seq<Product>, query: string, selected: string): seq<Product> {
    if ps == [] then []
    else (if Shown(ps[0], query, selected) then [ps[0]] else []) + Visible(ps[1..], query, selected)
  }

  /** `sub` is `s` with some elements left out, the rest in their original order. */
  predicate IsSubsequence(sub: seq<Product>, s: seq<Product>)
    decreases |s|
  {
    sub == [] ||
    (s != [] && ((sub[0] == s[0] && IsSubsequence(sub[1..], s[1..])) || IsSubsequence(sub, s[1..])))
  }

  /** A product is listed exactly when it is cached and passes both tests. */
  lemma {:induction false} VisibleMembers(ps: seq<Product>, query: string, selected: string)
    ensures forall p :: p in Visible(ps, query, selected) <==> p in ps && Shown(p, query, selected)
  {
    if ps != [] {
      VisibleMembers(ps[1..], query, selected);
      assert ps == [ps[0]] + ps[1..];
    }
  }

  /** Each product is listed as many times as it is cached when it passes both tests, and
      not at all otherwise. */
  lemma {:induction false} VisibleCounts(ps: seq<Product>, query: string, selected: string)
    ensures forall p :: multiset(Visible(ps, query, selected))[p]
                        == (if Shown(p, query, selected) then multiset(ps)[p] else 0)
  {
    if ps != [] {
      VisibleCounts(ps[1..], query, selected);
      assert ps == [ps[0]] + ps[1..];
      assert multiset(ps) == multiset([ps[0]]) + multiset(ps[1..]);
    }
  }

  /** The listed rows keep the cache's order. */
  lemma {:induction false} VisibleIsSubsequence(ps: seq<Product>, query: string, selected: string)
    ensures IsSubsequence(Visible(ps, query, selected), ps)
  {
    if ps != [] {
      VisibleIsSubsequence(ps[1..], query, selected);
      var rest := Visible(ps[1..], query, selected);
      if Shown(ps[0], query, selected) {
        assert Visible(ps, query, selected) == [ps[0]] + rest;
        assert ([ps[0]] + rest)[1..] == rest;
      } else {
        assert Visible(ps, query, selected) == rest;
      }
    }
  }

  /** Filtering a concatenation filters each part. */
  lemma {:induction false} VisibleAppend(a: seq<Product>, b: seq<Product>, query: string, selected: string)
    ensures Visible(a + b, query, selected) == Visible(a, query, selected) + Visible(b, query, selected)
  {
    if a == [] {
      assert a + b == b;
    } else {
      var head := if Shown(a[0], query, selected) then [a[0]] else [];
      assert (a + b)[0] == a[0];
      assert (a + b)[1..] == a[1..] + b;
      assert Visible(a + b, query, selected) == head + Visible(a[1..] + b, query, selected);
      assert Visible(a, query, selected) == head + Visible(a[1..], query, selected);
      VisibleAppend(a[1..], b, query, selected);
      assert head + (Visible(a[1..], query, selected) + Visible(b, query, selected))
        == (head + Visible(a[1..], query, selected)) + Visible(b, query, selected);
    }
  }

  /** An empty query under `all` lists every cached product, in order. */
  lemma {:induction false} VisibleUnfiltered(ps: seq<Product>)
    ensures Visible(ps, "", "all") == ps
  {
    if ps != [] {
      ContainsEmpty(ToLower(ps[0].name));
      assert ToLower("") == "";
      VisibleUnfiltered(ps[1..]);
    }
  }

  /** Two products, one without a category: the query `a` under `all` lists both (the
      match ignores case), and selecting the second one's category lists only it. */
  lemma FilterExample()
    ensures var apple := Product("1", "Apple", "A1", None, None, 0, 0, 0, None, None, None);
      var banana := Product("2", "Banana", "B1", Some("fruit"), None, 0, 0, 0, None, None, None);
      Visible([apple, banana], "a", "all") == [apple, banana]
      && Visible([apple, banana], "a", "fruit") == [banana]
  {
    var apple := Product("1", "Apple", "A1", None, None, 0, 0, 0, None, None, None);
    var banana := Product("2", "Banana", "B1", Some("fruit"), None, 0, 0, 0, None, None, None);
    assert ToLower("a") == "a";
    assert ToLower("Apple") == "apple";
    assert StartsWith("apple", "a");
    assert ToLower("Banana") == "banana";
    assert "banana"[1..] == "anana";
    assert StartsWith("anana", "a");
    assert MatchesSearch(apple, "a");
    assert MatchesSearch(banana, "a");
    assert [apple, banana][1..] == [banana];
    assert [banana][1..] == [];
    forall sel | sel in {"all", "fruit"}
      ensures Visible([banana], "a", sel) == [banana]
    {
      assert Shown(banana, "a", sel);
      assert Visible([banana], "a", sel) == [banana] + Visible([], "a", sel);
    }
    assert Visible([apple, banana], "a", "all") == [apple] + Visible([banana], "a", "all");
    assert !MatchesCategory(apple, "fruit");
    assert Visible([apple, banana], "a", "fruit") == Visible([banana], "a", "fruit");
  }
}

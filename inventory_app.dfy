/** The inventory page of src/App.jsx: its component state as the fields of `App`, and its
    event handlers as methods. Every remote call is a request the method returns in `sent`
    (`None` when no call is made) together with the answer the remote store gave, which the
    method takes as a parameter; `alerts` lists what the user is told. */
module Inventory {
  import opened Wrappers
  import opened JsText
  import opened Products

  datatype Category = Category(id: Id, name: string)

  /** The quantity cell under edit (`editingCell`). */
  datatype Cell = Cell(productId: Id, field: Field)

  /** What an `alert` tells the user. */
  datatype Alert = InvalidInput | Succeeded | Failed(message: string)

  /** A write the page sends to the remote store. */
  datatype Request =
    | InsertProduct(row: NewRow)
    | UpdateProduct(target: Option<Id>, name: string, sku: string, categoryId: Option<string>, notes: Option<string>)
    | UpdateColumns(id: Id, columns: map<string, Value>)
    | InsertCategory(name: string)

  /** `data || []` for a fetched list. */
  function OrEmptyList<T>(data: Option<seq<T>>): seq<T> {
    match data
    case None => []
    case Some(rows) => rows
  }

  /** The quantity `saveEdit` accepts: `parseInt` of the text, refused when `NaN` or negative. */
  function ParseQuantity(s: string): Option<nat> {
    match ParseInt(s)
    case None => None
    case Some(q) => if q < 0 then None else Some(q)
  }

  /** The text a cell is opened with reads back as the cell's quantity when that quantity is
      not negative, and is refused when it is. */
  lemma ParseQuantityOfShownValue(n: int)
    ensures ParseQuantity(IntToString(n)) == if n >= 0 then Some(n) else None
  {
    ParseIntOfIntToString(n);
  }

  /** `-0`, and `-` before any other text worth zero, is accepted as 0. */
  lemma ParseQuantityNegativeZero(u: string)
    requires ParseMagnitude(u) == Some(0)
    ensures ParseQuantity("-" + u) == Some(0)
  {
    ParseIntNegativeZero(u);
  }

  /** A fraction is cut to its whole part. */
  lemma ParseQuantityTruncates()
    ensures ParseQuantity("3.7") == Some(3)
  {
    ParseIntTruncates();
  }

  /** Every negative whole number is refused. */
  lemma ParseQuantityRefusesNegative(m: nat)
    requires m > 0
    ensures ParseQuantity("-" + NatToString(m)) == None
  {
    ParseIntOfNegated(m);
  }

  class App {
    var products: seq<Product>
    var categories: seq<Category>
    var loading: bool
    var editingCell: Option<Cell>
    var editValue: string
    var newProduct: Draft
    var showAddProductForm: bool
    var editingProductId: Option<Id>
    var editingProduct: Draft
    var newCategory: string
    var isCreatingCategory: bool
    var searchQuery: string
    var selectedCategory: string

    /** Edit text exists only while a cell is open, and a product draft only while a product
        is being edited. */
    ghost predicate Valid()
      reads this
    {
      (editingCell == None ==> editValue == "") &&
      (editingProductId == None ==> editingProduct == EmptyDraft)
    }

    /** The rows the list shows: the cached products that pass the search box and the
        category selector, in cache order. */
    function Listed(): (r: seq<Product>)
      reads this
      ensures forall p :: p in r <==> p in products && Shown(p, searchQuery, selectedCategory)
      ensures IsSubsequence(r, products)
      ensures forall p :: multiset(r)[p]
                          == (if Shown(p, searchQuery, selectedCategory) then multiset(products)[p] else 0)
      ensures searchQuery == "" && selectedCategory == "all" ==> r == products
    {
      VisibleMembers(products, searchQuery, selectedCategory);
      VisibleCounts(products, searchQuery, selectedCategory);
      VisibleIsSubsequence(products, searchQuery, selectedCategory);
      VisibleUnfiltered(products);
      Visible(products, searchQuery, selectedCategory)
    }

    /** The state the component mounts with. */
    constructor ()
      ensures Valid()
      ensures products == [] && categories == [] && loading
      ensures editingCell == None && editValue == ""
      ensures newProduct == EmptyDraft && !showAddProductForm
      ensures editingProductId == None && editingProduct == EmptyDraft
      ensures newCategory == "" && !isCreatingCategory
      ensures searchQuery == "" && selectedCategory == "all"
    {
      products, categories, loading := [], [], true;
      editingCell, editValue := None, "";
      newProduct, showAddProductForm := EmptyDraft, false;
      editingProductId, editingProduct := None, EmptyDraft;
      newCategory, isCreatingCategory := "", false;
      searchQuery, selectedCategory := "", "all";
    }

    /** `fetchProducts`: the cache is replaced by the answer on success and kept on failure;
        `loading` is cleared either way. */
    method FetchProducts(response: Result<Option<seq<Product>>>) returns (alerts: seq<Alert>)
      modifies this`products, this`loading
      ensures !loading
      ensures response.Ok? ==> products == OrEmptyList(response.value) && alerts == []
      ensures response.Err? ==> products == old(products) && alerts == [Failed(response.error)]
    {
      loading := true;
      match response {
        case Ok(data) =>
          products := OrEmptyList(data);
          alerts := [];
        case Err(message) =>
          alerts := [Failed(message)];
      }
      loading := false;
    }

    /** `fetchCategories`: the same replace-on-success for the category list. */
    method FetchCategories(response: Result<Option<seq<Category>>>) returns (alerts: seq<Alert>)
      modifies this`categories
      ensures response.Ok? ==> categories == OrEmptyList(response.value) && alerts == []
      ensures response.Err? ==> categories == old(categories) && alerts == [Failed(response.error)]
    {
      match response
      case Ok(data) =>
        categories := OrEmptyList(data);
        alerts := [];
      case Err(message) =>
        alerts := [Failed(message)];
    }

    /** The add button: shows the create form when hidden and hides it when shown. */
    method ToggleAddProductForm()
      modifies this`showAddProductForm
      ensures showAddProductForm == !old(showAddProductForm)
    {
      showAddProductForm := !showAddProductForm;
    }

    /** The create form's inputs: only rendered while the form is shown. Each one replaces
        one field of the draft, so the draft as a whole is replaced. */
    method EditNewProduct(d: Draft)
      requires Valid() && showAddProductForm
      modifies this`newProduct
      ensures Valid() && newProduct == d
    {
      newProduct := d;
    }

    /** `handleCreateProduct`: a draft without a name or SKU is refused before any call;
        otherwise the row is inserted, and on success the rows the store returns are put in
        front of the cache and the form is emptied and hidden. A failed insert keeps the form. */
    method HandleCreateProduct(response: Result<seq<Product>>) returns (sent: Option<Request>, alerts: seq<Alert>)
      requires Valid()
      modifies this`products, this`newProduct, this`showAddProductForm
      ensures Valid()
      ensures !HasNameAndSku(old(newProduct)) ==>
        sent == None && alerts == [InvalidInput] && unchanged(this)
      ensures HasNameAndSku(old(newProduct)) ==> sent == Some(InsertProduct(NewRowOf(old(newProduct))))
      ensures HasNameAndSku(old(newProduct)) && response.Ok? ==>
        products == response.value + old(products) && newProduct == EmptyDraft
        && !showAddProductForm && alerts == [Succeeded]
      ensures HasNameAndSku(old(newProduct)) && response.Ok? ==>
        Listed() == Visible(response.value, searchQuery, selectedCategory) + old(Listed())
      ensures HasNameAndSku(old(newProduct)) && response.Err? ==>
        unchanged(this) && alerts == [Failed(response.error)]
    {
      if !HasNameAndSku(newProduct) {
        sent, alerts := None, [InvalidInput];
        return;
      }
      sent := Some(InsertProduct(NewRowOf(newProduct)));
      match response
      case Ok(data) =>
        VisibleAppend(data, products, searchQuery, selectedCategory);
        products, newProduct, showAddProductForm := data + products, EmptyDraft, false;
        alerts := [Succeeded];
      case Err(message) =>
        alerts := [Failed(message)];
    }

    /** `startEditProduct`: the form is filled from the product, `null` shown as empty text. */
    method StartEditProduct(p: Product)
      modifies this`editingProductId, this`editingProduct
      ensures Valid() == (editingCell == None ==> editValue == "")
      ensures editingProductId == Some(p.id) && editingProduct == DraftOf(p)
    {
      editingProductId := Some(p.id);
      editingProduct := DraftOf(p);
    }

    /** The edit form's inputs: only rendered for the product under edit. */
    method EditProductDraft(d: Draft)
      requires Valid() && editingProductId != None
      modifies this`editingProduct
      ensures Valid() && editingProduct == d
    {
      editingProduct := d;
    }

    /** `cancelEditProduct`: no product under edit, draft emptied, cache untouched. */
    method CancelEditProduct()
      requires Valid()
      modifies this`editingProductId, this`editingProduct
      ensures Valid()
      ensures editingProductId == None && editingProduct == EmptyDraft
    {
      editingProductId := None;
      editingProduct := EmptyDraft;
    }

    /** `saveEditProduct`: a draft without a name or SKU is refused before any call; otherwise
        the update is sent with empty category and notes as `null`, and on success the draft
        is spread over the cached rows with the edited id (empty strings kept as they are)
        and the edit closes. A failed update keeps the cache and the open edit. */
    method SaveEditProduct(response: Result<()>) returns (sent: Option<Request>, alerts: seq<Alert>)
      requires Valid()
      modifies this`products, this`editingProductId, this`editingProduct
      ensures Valid()
      ensures !HasNameAndSku(old(editingProduct)) ==>
        sent == None && alerts == [InvalidInput] && unchanged(this)
      ensures HasNameAndSku(old(editingProduct)) ==>
        var d := old(editingProduct);
        sent == Some(UpdateProduct(old(editingProductId), d.name, d.sku, OrNull(d.categoryId), OrNull(d.notes)))
      ensures HasNameAndSku(old(editingProduct)) && response.Ok? ==>
        products == MergeInto(old(products), old(editingProductId), old(editingProduct))
        && editingProductId == None && editingProduct == EmptyDraft && alerts == [Succeeded]
      ensures HasNameAndSku(old(editingProduct)) && response.Err? ==>
        unchanged(this) && alerts == [Failed(response.error)]
    {
      if !HasNameAndSku(editingProduct) {
        sent, alerts := None, [InvalidInput];
        return;
      }
      var d := editingProduct;
      sent := Some(UpdateProduct(editingProductId, d.name, d.sku, OrNull(d.categoryId), OrNull(d.notes)));
      match response
      case Ok(_) =>
        products := MergeInto(products, editingProductId, d);
        alerts := [Succeeded];
        CancelEditProduct();
      case Err(message) =>
        alerts := [Failed(message)];
    }

    /** The category name input's `onChange`. */
    method EditNewCategory(name: string)
      modifies this`newCategory
      ensures newCategory == name
    {
      newCategory := name;
    }

    /** First half of `handleCreateCategory`, up to the insert: a name that is empty after
        trimming is refused and the busy flag is left alone; otherwise the flag is raised and
        the name is sent as typed. */
    method BeginCreateCategory() returns (sent: Option<Request>, alerts: seq<Alert>)
      modifies this`isCreatingCategory
      ensures AllWhitespace(newCategory) ==>
        sent == None && alerts == [InvalidInput] && isCreatingCategory == old(isCreatingCategory)
      ensures !AllWhitespace(newCategory) ==>
        sent == Some(InsertCategory(newCategory)) && alerts == [] && isCreatingCategory
    {
      if AllWhitespace(newCategory) {
        sent, alerts := None, [InvalidInput];
        return;
      }
      isCreatingCategory := true;
      sent, alerts := Some(InsertCategory(newCategory)), [];
    }

    /** Second half of `handleCreateCategory`, once the insert has answered: on success the
        input is emptied and the category list refetched; the busy flag drops either way. */
    method SettleCreateCategory(inserted: Result<()>, refetched: Result<Option<seq<Category>>>)
      returns (alerts: seq<Alert>)
      requires isCreatingCategory
      modifies this`newCategory, this`categories, this`isCreatingCategory
      ensures !isCreatingCategory
      ensures inserted.Err? ==>
        newCategory == old(newCategory) && categories == old(categories) && alerts == [Failed(inserted.error)]
      ensures inserted.Ok? ==> newCategory == ""
      ensures inserted.Ok? && refetched.Ok? ==>
        categories == OrEmptyList(refetched.value) && alerts == [Succeeded]
      ensures inserted.Ok? && refetched.Err? ==>
        categories == old(categories) && alerts == [Succeeded, Failed(refetched.error)]
    {
      match inserted {
        case Ok(_) =>
          newCategory := "";
          var fetchAlerts := FetchCategories(refetched);
          alerts := [Succeeded] + fetchAlerts;
        case Err(message) =>
          alerts := [Failed(message)];
      }
      isCreatingCategory := false;
    }

    /** `handleCreateCategory` as one step. */
    method HandleCreateCategory(inserted: Result<()>, refetched: Result<Option<seq<Category>>>)
      returns (sent: Option<Request>, alerts: seq<Alert>)
      modifies this`newCategory, this`categories, this`isCreatingCategory
      ensures sent == (if AllWhitespace(old(newCategory)) then None else Some(InsertCategory(old(newCategory))))
      ensures sent == None ==> alerts == [InvalidInput] && unchanged(this)
      ensures sent != None ==> !isCreatingCategory
      ensures sent != None && inserted.Ok? ==> newCategory == ""
      ensures sent != None && inserted.Err? ==>
        newCategory == old(newCategory) && categories == old(categories) && alerts == [Failed(inserted.error)]
      ensures sent != None && inserted.Ok? && refetched.Ok? ==>
        categories == OrEmptyList(refetched.value) && alerts == [Succeeded]
      ensures sent != None && inserted.Ok? && refetched.Err? ==>
        categories == old(categories) && alerts == [Succeeded, Failed(refetched.error)]
    {
      sent, alerts := BeginCreateCategory();
      if sent != None {
        alerts := SettleCreateCategory(inserted, refetched);
      }
    }

    /** `startEdit`: the cell opens with the quantity's decimal text. */
    method StartEdit(productId: Id, field: Field, currentValue: int)
      modifies this`editingCell, this`editValue
      ensures Valid() == (editingProductId == None ==> editingProduct == EmptyDraft)
      ensures editingCell == Some(Cell(productId, field)) && editValue == IntToString(currentValue)
    {
      editingCell := Some(Cell(productId, field));
      editValue := IntToString(currentValue);
    }

    /** The cell's input: only rendered while a cell is open. */
    method EditQuantityText(value: string)
      requires Valid() && editingCell != None
      modifies this`editValue
      ensures Valid() && editValue == value
    {
      editValue := value;
    }

    /** The search box's `onChange`: the query becomes the typed text, and the list is the
        cache filtered by it. */
    method SetSearchQuery(query: string)
      modifies this`searchQuery
      ensures searchQuery == query
      ensures Listed() == Visible(products, query, selectedCategory)
    {
      searchQuery := query;
    }

    /** The category selector's `onChange`: `all` or a category id becomes the selection,
        and the list is the cache filtered by it. */
    method SetSelectedCategory(selected: string)
      modifies this`selectedCategory
      ensures selectedCategory == selected
      ensures Listed() == Visible(products, searchQuery, selected)
    {
      selectedCategory := selected;
    }

    /** `cancelEdit`: the cell closes and its text is cleared; the cache is not touched. */
    method CancelEdit()
      requires Valid()
      modifies this`editingCell, this`editValue
      ensures Valid()
      ensures editingCell == None && editValue == ""
    {
      editingCell := None;
      editValue := "";
    }

    /** `saveEdit`: with no open cell nothing happens; text that `parseInt` reads as `NaN` or
        as a negative number is refused before any call; otherwise the quantity and its
        timestamp are sent, and on success the same two columns are set on the cached rows
        with the cell's product id (with a second reading of the clock) and the cell closes.
        A failed update keeps the cache and the open cell. */
    method SaveEdit(remoteNow: Timestamp, localNow: Timestamp, response: Result<()>)
      returns (sent: Option<Request>, alerts: seq<Alert>)
      requires Valid()
      modifies this`products, this`editingCell, this`editValue
      ensures Valid()
      ensures old(editingCell) == None ==> sent == None && alerts == [] && unchanged(this)
      ensures old(editingCell) != None && ParseQuantity(old(editValue)) == None ==>
        sent == None && alerts == [InvalidInput] && unchanged(this)
      ensures old(editingCell) != None && ParseQuantity(old(editValue)) != None ==>
        var cell, q := old(editingCell).value, ParseQuantity(old(editValue)).value;
        sent == Some(UpdateColumns(cell.productId, QuantityUpdate(cell.field, q, remoteNow)))
        && (response.Ok? ==>
              products == PatchQuantity(old(products), cell.productId, cell.field, q, localNow)
              && editingCell == None && editValue == "" && alerts == [])
        && (response.Err? ==> unchanged(this) && alerts == [Failed(response.error)])
    {
      if editingCell == None {
        sent, alerts := None, [];
        return;
      }
      var cell := editingCell.value;
      var quantity := ParseQuantity(editValue);
      if quantity == None {
        sent, alerts := None, [InvalidInput];
        return;
      }
      sent := Some(UpdateColumns(cell.productId, QuantityUpdate(cell.field, quantity.value, remoteNow)));
      match response
      case Ok(_) =>
        products := PatchQuantity(products, cell.productId, cell.field, quantity.value, localNow);
        CancelEdit();
        alerts := [];
      case Err(message) =>
        alerts := [Failed(message)];
    }
  }

  /** A freshly mounted page whose product query answered `ps`. */
  method Loaded(ps: seq<Product>) returns (app: App)
    ensures fresh(app) && app.Valid() && app.products == ps
  {
    app := new App();
    var alerts := app.FetchProducts(Ok(Some(ps)));
  }

  /** A page whose products have loaded: a cell opened and cancelled leaves no edit open
      and the cache as it was. */
  method OpenThenCancel(ps: seq<Product>, productId: Id, field: Field, shown: int)
    returns (products: seq<Product>, open: Option<Cell>, text: string)
    ensures products == ps && open == None && text == ""
  {
    var app := Loaded(ps);
    app.StartEdit(productId, field, shown);
    app.CancelEdit();
    products, open, text := app.products, app.editingCell, app.editValue;
  }

  /** Patching a row with the quantity it already shows keeps that quantity and every row
      of another product. */
  lemma PatchShownQuantity(ps: seq<Product>, i: nat, field: Field, stamp: Timestamp)
    requires i < |ps|
    ensures var patched := PatchQuantity(ps, ps[i].id, field, Stock(ps[i], field), stamp);
      |patched| == |ps| && Stock(patched[i], field) == Stock(ps[i], field)
      && forall j :: 0 <= j < |ps| && ps[j].id != ps[i].id ==> patched[j] == ps[j]
  {
    var patched := PatchQuantity(ps, ps[i].id, field, Stock(ps[i], field), stamp);
    PatchQuantityTouchesOnlyCell(ps, ps[i].id, field, Stock(ps[i], field), stamp);
    assert Get(patched[i], Quantity(field)) == Number(Stock(ps[i], field));
  }

  /** A page whose products have loaded: a cell opened on a row's shown quantity and saved
      at once sends that quantity back, and once the update succeeds the row still shows it
      while every row of another product is left as it was. */
  method OpenThenSave(ps: seq<Product>, i: nat, field: Field, remoteNow: Timestamp, localNow: Timestamp)
    returns (products: seq<Product>, sent: Option<Request>, alerts: seq<Alert>)
    requires StockNonNegative(ps) && i < |ps|
    ensures sent == Some(UpdateColumns(ps[i].id, QuantityUpdate(field, Stock(ps[i], field), remoteNow)))
    ensures alerts == [] && |products| == |ps|
    ensures Stock(products[i], field) == Stock(ps[i], field)
    ensures forall j :: 0 <= j < |ps| && ps[j].id != ps[i].id ==> products[j] == ps[j]
  {
    var app := Loaded(ps);
    var shown: nat := Stock(ps[i], field);
    ParseQuantityOfShownValue(shown);
    app.StartEdit(ps[i].id, field, shown);
    sent, alerts := app.SaveEdit(remoteNow, localNow, Ok(()));
    products := app.products;
    PatchShownQuantity(ps, i, field, localNow);
  }
}

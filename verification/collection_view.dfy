/** `CollectionView` and `ProductListView`: the collection and product-page queries, page
    merging with de-duplication, the load guards, the search filter and the favourites
    list kept in the device store.
 */
module Collection {
  import opened Wrappers
  import opened Storefront
  import opened Defaults
  import opened Seqs

  // ---------------------------------------------------------------------------
  // Queries

  /** Products requested per page. */
  const ITEMS_PER_PAGE: nat := 250

  /** One page of a collection's products and the page's end cursor. */
  datatype ProductPage = ProductPage(products: seq<Product>, endCursor: Option<string>)

  /** What the client delivered for a product-page query: a failure, or a response whose
      collection may be absent. */
  datatype PageOutcome = PageFailure | PageResponse(collection: Option<ProductPage>)

  /** `fetchProducts(for:after:itemsPerPage:)`: the page's products and end cursor; both
      absent on a failure or when the collection is missing. */
  function FetchProducts(outcome: PageOutcome): (r: (Option<seq<Product>>, Option<string>))
    ensures outcome.PageFailure? ==> r == (None, None)
    ensures outcome.PageResponse? && outcome.collection.None? ==> r == (None, None)
    ensures outcome.PageResponse? && outcome.collection.Some? ==>
              r == (Some(outcome.collection.value.products), outcome.collection.value.endCursor)
  {
    match outcome
    case PageFailure => (None, None)
    case PageResponse(c) =>
      match c
      case None => (None, None)
      case Some(page) => (Some(page.products), page.endCursor)
  }

  datatype StoreCollection = StoreCollection(id: Id, title: Option<string>, products: seq<Product>)

  datatype CollectionsOutcome = CollectionsFailure | CollectionsSuccess(collections: seq<StoreCollection>)

  /** `fetchCollections`: the listed collections, or nothing on failure. */
  function FetchCollections(outcome: CollectionsOutcome): (r: Option<seq<StoreCollection>>)
    ensures r.Some? <==> outcome.CollectionsSuccess?
    ensures r.Some? ==> r.value == outcome.collections
  {
    match outcome
    case CollectionsFailure => None
    case CollectionsSuccess(cs) => Some(cs)
  }

  /** The collections grid. */
  datatype GridState = GridState(collections: seq<StoreCollection>, isLoading: bool)

  /** `CollectionView.fetchCollections()` once its callback ran: a delivered list replaces
      the grid, a failure keeps it, and loading ends either way. */
  function LoadCollections(s: GridState, outcome: CollectionsOutcome): (r: GridState)
    ensures !r.isLoading
    ensures outcome.CollectionsSuccess? ==> r.collections == outcome.collections
    ensures outcome.CollectionsFailure? ==> r.collections == s.collections
  {
    GridState(FetchCollections(outcome).GetOr(s.collections), false)
  }

  // ---------------------------------------------------------------------------
  // The product list

  datatype ListState = ListState(displayed: seq<Product>, isLoading: bool, endCursor: Option<string>, searchText: string)

  /** A product-page query as the list sends it. */
  datatype PageRequest = PageRequest(after: Option<string>, pageSize: nat)

  function IdOf(p: Product): Id { p.id }

  /** The ids already on screen. */
  function Ids(ps: seq<Product>): (r: set<Id>)
    ensures forall p :: p in ps ==> p.id in r
    ensures forall id :: id in r ==> exists p :: p in ps && p.id == id
  {
    set p | p in ps :: p.id
  }

  /** The page items whose ids are not on screen yet, in page order. */
  function Unseen(displayed: seq<Product>, page: seq<Product>): (r: seq<Product>)
  {
    var existing := Ids(displayed);
    Filter(page, (p: Product) => p.id !in existing)
  }

  /** The page merge: the list grows by exactly the unseen page items, in page order. */
  function MergePage(displayed: seq<Product>, page: seq<Product>): (r: seq<Product>)
    ensures |r| == |displayed| + |Unseen(displayed, page)|
    ensures r[..|displayed|] == displayed
    ensures r[|displayed|..] == Unseen(displayed, page)
    ensures forall p :: p in r[|displayed|..] <==> p in page && p.id !in Ids(displayed)
  {
    displayed + Unseen(displayed, page)
  }

  /** Merge only appends page items, in the order the page lists them. */
  lemma MergeAppendsSublistOfPage(displayed: seq<Product>, page: seq<Product>)
    ensures Sublist(MergePage(displayed, page)[|displayed|..], page)
  {
    var existing := Ids(displayed);
    FilterIsSublist(page, (p: Product) => p.id !in existing);
  }

  /** A page whose items are all on screen already adds nothing; in particular merging the
      same page twice is the same as merging it once. */
  lemma MergeSamePageTwice(displayed: seq<Product>, page: seq<Product>)
    ensures MergePage(MergePage(displayed, page), page) == MergePage(displayed, page)
  {
    var once := MergePage(displayed, page);
    var existing := Ids(once);
    var keep := (p: Product) => p.id !in existing;
    forall i | 0 <= i < |page| ensures !keep(page[i]) {
      assert page[i] in page;
      if page[i].id !in Ids(displayed) {
        assert page[i] in once[|displayed|..];
        assert page[i] in once;
      } else {
        var q :| q in displayed && q.id == page[i].id;
        assert q in once by { assert once[..|displayed|] == displayed; }
      }
    }
    assert Filter(page, keep) == [] by {
      FilterNoneKept(page, keep);
    }
  }

  lemma FilterNoneKept(s: seq<Product>, keep: Product -> bool)
    requires forall i :: 0 <= i < |s| ==> !keep(s[i])
    ensures Filter(s, keep) == []
  {
    var r := Filter(s, keep);
    if |r| > 0 {
      assert false;
    }
  }

  /** Merging keeps ids distinct when the screen and the page each have distinct ids. */
  lemma MergeKeepsIdsDistinct(displayed: seq<Product>, page: seq<Product>)
    requires DistinctBy(displayed, IdOf)
    requires DistinctBy(page, IdOf)
    ensures DistinctBy(MergePage(displayed, page), IdOf)
  {
    var r := MergePage(displayed, page);
    var n := |displayed|;
    var added := r[n..];
    var existing := Ids(displayed);
    MergeAppendsSublistOfPage(displayed, page);
    SublistKeepsDistinct(added, page);
    forall i, j | 0 <= i < j < |r| ensures r[i].id != r[j].id {
      if j < n {
        assert r[i] == displayed[i] && r[j] == displayed[j];
      } else if i < n {
        assert r[j] == added[j - n];
        assert r[j] in added;
        assert r[i] == displayed[i];
        assert r[i] in displayed;
      } else {
        assert r[i] == added[i - n] && r[j] == added[j - n];
      }
    }
  }

  lemma {:induction false} SublistKeepsDistinct(a: seq<Product>, b: seq<Product>)
    requires Sublist(a, b)
    requires DistinctBy(b, IdOf)
    ensures DistinctBy(a, IdOf)
    decreases |b|
  {
    if |a| > 0 {
      assert |b| > 0;
      assert DistinctBy(b[1..], IdOf) by {
        forall i, j | 0 <= i < j < |b[1..]| ensures b[1..][i].id != b[1..][j].id {
          assert b[1..][i] == b[i + 1] && b[1..][j] == b[j + 1];
        }
      }
      if a[0] == b[0] {
        SublistKeepsDistinct(a[1..], b[1..]);
        SublistElements(a[1..], b[1..]);
        forall i, j | 0 <= i < j < |a| ensures a[i].id != a[j].id {
          if i == 0 {
            assert a[j] == a[1..][j - 1];
            assert a[j] in b[1..];
            var k :| 0 <= k < |b[1..]| && b[1..][k] == a[j];
            assert b[k + 1] == a[j];
          } else {
            assert a[i] == a[1..][i - 1] && a[j] == a[1..][j - 1];
          }
        }
      } else {
        SublistKeepsDistinct(a, b[1..]);
      }
    }
  }

  /** `loadProducts()` up to the request: a no-op while loading; otherwise loading starts and
      a page is requested after the current end cursor. */
  function BeginLoad(s: ListState): (r: (ListState, Option<PageRequest>))
    ensures s.isLoading ==> r == (s, None)
    ensures !s.isLoading ==> r == (s.(isLoading := true), Some(PageRequest(s.endCursor, ITEMS_PER_PAGE)))
  {
    if s.isLoading then (s, None) else (s.(isLoading := true), Some(PageRequest(s.endCursor, ITEMS_PER_PAGE)))
  }

  /** The page callback: delivered products are merged and the cursor advances to the one
      delivered (even an absent one); a failure keeps both; loading ends either way. */
  function FinishLoad(s: ListState, products: Option<seq<Product>>, cursor: Option<string>): (r: ListState)
    ensures !r.isLoading && r.searchText == s.searchText
    ensures products.Some? ==> r.displayed == MergePage(s.displayed, products.value) && r.endCursor == cursor
    ensures products.None? ==> r.displayed == s.displayed && r.endCursor == s.endCursor
  {
    match products
    case Some(ps) => s.(displayed := MergePage(s.displayed, ps), endCursor := cursor, isLoading := false)
    case None => s.(isLoading := false)
  }

  /** `loadProducts()` with the outcome its query received. */
  function LoadProducts(s: ListState, outcome: PageOutcome): (r: (ListState, Option<PageRequest>))
    ensures s.isLoading ==> r == (s, None)
    ensures !s.isLoading ==> r.1 == Some(PageRequest(s.endCursor, ITEMS_PER_PAGE)) && !r.0.isLoading
    ensures !s.isLoading && FetchProducts(outcome).0.None? ==> r.0 == s
  {
    var (begun, request) := BeginLoad(s);
    if request.None? then (s, None)
    else
      var (products, cursor) := FetchProducts(outcome);
      (FinishLoad(begun, products, cursor), request)
  }

  /** `loadMoreProducts()`: proceeds only when idle and a further page exists. */
  function LoadMoreProducts(s: ListState, outcome: PageOutcome): (r: (ListState, Option<PageRequest>))
    ensures r.1.Some? <==> !s.isLoading && s.endCursor.Some?
    ensures r.1.None? ==> r.0 == s
    ensures r.1.Some? ==> r == LoadProducts(s, outcome)
  {
    if !s.isLoading && s.endCursor.Some? then LoadProducts(s, outcome) else (s, None)
  }

  /** While a page is out neither load sends another request; once it is answered the next
      load asks for the page after the delivered cursor, and a page without a cursor ends
      paging: no further `loadMoreProducts` request, however the query would answer. */
  lemma LoadGuardsSendOnce(s: ListState, page: seq<Product>, cursor: Option<string>, outcome: PageOutcome)
    requires !s.isLoading
    ensures var (t, request) := BeginLoad(s);
            request.Some? && BeginLoad(t).1.None? && LoadMoreProducts(t, outcome).1.None?
    ensures var (t, _) := BeginLoad(s);
            BeginLoad(FinishLoad(t, Some(page), cursor)).1 == Some(PageRequest(cursor, ITEMS_PER_PAGE))
    ensures var (t, _) := BeginLoad(s);
            LoadMoreProducts(FinishLoad(t, Some(page), None), outcome) == (FinishLoad(t, Some(page), None), None)
  {
  }

  /** The product's searchable fields: title, vendor, description, tags and product type. */
  predicate MatchesSearch(p: Product, text: string, contains: (string, string) -> bool)
  {
    || contains(p.title, text)
    || contains(p.vendor, text)
    || contains(p.description, text)
    || (exists i :: 0 <= i < |p.tags| && contains(p.tags[i], text))
    || contains(p.productType, text)
  }

  /** `filteredProducts`: with no search text the whole list; otherwise the products
      matching in some field, in list order. `contains` stands for the locale-aware
      `localizedCaseInsensitiveContains`. */
  function FilteredProducts(displayed: seq<Product>, text: string, contains: (string, string) -> bool): (r: seq<Product>)
    ensures |text| == 0 ==> r == displayed
    ensures |text| > 0 ==> forall p :: p in r <==> p in displayed && MatchesSearch(p, text, contains)
  {
    if |text| == 0 then displayed
    else Filter(displayed, (p: Product) => MatchesSearch(p, text, contains))
  }

  /** Searching never reorders or invents products. */
  lemma FilteredIsSublist(displayed: seq<Product>, text: string, contains: (string, string) -> bool)
    ensures Sublist(FilteredProducts(displayed, text, contains), displayed)
  {
    if |text| == 0 {
      SublistRefl(displayed);
    } else {
      FilterIsSublist(displayed, (p: Product) => MatchesSearch(p, text, contains));
    }
  }

  /** A row's `onAppear`: the last row of the filtered list asks for the next page. */
  function RowAppeared(s: ListState, row: Product, contains: (string, string) -> bool, outcome: PageOutcome): (r: (ListState, Option<PageRequest>))
    ensures var shown := FilteredProducts(s.displayed, s.searchText, contains);
            !(|shown| > 0 && shown[|shown| - 1].id == row.id) ==> r == (s, None)
    ensures r.1.Some? ==> !s.isLoading && s.endCursor.Some?
  {
    var shown := FilteredProducts(s.displayed, s.searchText, contains);
    if |shown| > 0 && shown[|shown| - 1].id == row.id then LoadMoreProducts(s, outcome) else (s, None)
  }

  // ---------------------------------------------------------------------------
  // Favourites

  /** The favourites list as the device store holds it. */
  function Favorites(store: Store): seq<string>
  {
    StringArrayFor(store, FAVORITE_PRODUCTS_KEY)
  }

  /** `loadFavoriteStatus()`: the heart is filled exactly when the product is listed. */
  function LoadFavoriteStatus(store: Store, productId: string): (r: bool)
    ensures r <==> productId in Favorites(store)
  {
    productId in Favorites(store)
  }

  /** `toggleFavorite()`: the branch follows the heart, not the list: a filled heart removes
      every occurrence of the id, an empty one appends it; the heart then flips. */
  function ToggleFavorite(store: Store, isFavorited: bool, productId: string): (r: (Store, bool))
    ensures r.1 == !isFavorited
    ensures isFavorited ==> Favorites(r.0) == Filter(Favorites(store), (f: string) => f != productId)
    ensures !isFavorited ==> Favorites(r.0) == Favorites(store) + [productId]
    ensures SameOutside(store, r.0, {FAVORITE_PRODUCTS_KEY})
  {
    var favorites := Favorites(store);
    var updated := if isFavorited then Filter(favorites, (f: string) => f != productId) else favorites + [productId];
    (Put(store, FAVORITE_PRODUCTS_KEY, StringArray(updated)), !isFavorited)
  }

  /** Whatever the heart showed before, after a toggle it agrees with the stored list. */
  lemma ToggleAgreesWithStore(store: Store, isFavorited: bool, productId: string)
    ensures LoadFavoriteStatus(ToggleFavorite(store, isFavorited, productId).0, productId) == ToggleFavorite(store, isFavorited, productId).1
  {
  }

  /** Favouriting and then unfavouriting an unlisted product restores the list. */
  lemma ToggleTwiceRestores(store: Store, productId: string)
    requires productId !in Favorites(store)
    ensures var (s1, f1) := ToggleFavorite(store, false, productId);
            Favorites(ToggleFavorite(s1, f1, productId).0) == Favorites(store)
  {
    var keep := (f: string) => f != productId;
    var favorites := Favorites(store);
    FilterAppend(favorites, [productId], keep);
    FilterKeepsAll(favorites, keep);
    assert Filter([productId], keep) == [];
  }
}

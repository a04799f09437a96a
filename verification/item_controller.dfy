/**
 * Listings: creating one (always PENDING verification, with defaults for the optional
 * fields), browsing them (only VERIFIED and PENDING listings of one marketplace are
 * ever shown, so a SOLD listing disappears), and reading one by id.
 */
module ItemController {

  import opened Wrappers
  import opened Entities
  import opened Store
  import opened Text
  import opened Numbers
  import opened Collections
  import TradeLifecycle

  /**
   * The body of a create request. `None` is a field left out; for the price, the images,
   * the marketplace and the flag it is also any falsy value (an empty string, an empty
   * marketplace, a false flag).
   */
  datatype Draft = Draft(
    title: Option<string>,
    description: Option<string>,
    category: Option<string>,
    tags: Option<seq<string>>,
    listingType: Option<ListingType>,
    price: Option<string>,
    images: Option<seq<string>>,
    marketplace: Option<Marketplace>,
    allowHybrid: Option<bool>)

  /** `(price && !isNaN(parseFloat(price))) ? parseFloat(price) : null`. */
  function Price(price: Option<string>): (r: Option<int>)
    ensures r.Some? <==> Given(price) && ParseDecimal(price.value).Some?
    ensures r.Some? ==> r == ParseDecimal(price.value)
  {
    if Given(price) then ParseDecimal(price.value) else None
  }

  /**
   * The listing createItem inserts; `None` when a required column (title, description,
   * category, type) is left out and the insert throws. A list column left out is empty.
   */
  function NewItem(id: Id, sellerId: Id, d: Draft, now: int): (r: Option<Item>)
    ensures r.Some? <==> d.title.Some? && d.description.Some? && d.category.Some? && d.listingType.Some?
    ensures r.Some? ==>
              && r.value.id == id && r.value.sellerId == sellerId && r.value.createdAt == now
              && Some(r.value.title) == d.title && Some(r.value.description) == d.description
              && Some(r.value.category) == d.category && Some(r.value.listingType) == d.listingType
              && r.value.tags == d.tags.GetOr([])
              && r.value.status == ItemStatus.Pending
              && (d.marketplace.None? ==> r.value.marketplace == Normal)
              && (d.marketplace.Some? ==> r.value.marketplace == d.marketplace.value)
              && (d.images.None? ==> r.value.images == [])
              && (d.images.Some? ==> r.value.images == d.images.value)
              && (r.value.allowHybrid <==> d.allowHybrid == Some(true))
              && r.value.price == Price(d.price)
  {
    if d.title.None? || d.description.None? || d.category.None? || d.listingType.None? then None
    else
      Some(Item(id, sellerId, d.title.value, d.description.value, d.category.value, d.tags.GetOr([]),
                d.listingType.value, Price(d.price), d.images.GetOr([]), ItemStatus.Pending,
                d.marketplace.GetOr(Normal), d.allowHybrid == Some(true), now))
  }

  /**
   * createItem: 401 without a seller and 500 when the insert throws, nothing created
   * in either case; otherwise one new PENDING listing.
   */
  method CreateItem(db: Db, caller: Option<Id>, d: Draft, freshId: Id, now: int) returns (r: Reply<Item>)
    requires freshId !in db.items
    modifies db
    ensures caller.None? ==> r == Fail(Unauthorized) && db.items == old(db.items)
    ensures caller.Some? && NewItem(freshId, caller.value, d, now).None? ==>
              r == Fail(ServerError) && db.items == old(db.items)
    ensures caller.Some? && NewItem(freshId, caller.value, d, now).Some? ==>
              && r == Ok(NewItem(freshId, caller.value, d, now).value)
              && db.items == old(db.items)[freshId := r.value]
    ensures db.trades == old(db.trades) && db.issues == old(db.issues) && db.users == old(db.users)
    ensures db.ratings == old(db.ratings) && db.messages == old(db.messages)
    ensures old(TradeLifecycle.Consistent(db.Snapshot())) ==> TradeLifecycle.Consistent(db.Snapshot())
  {
    if caller.None? {
      return Fail(Unauthorized);
    }
    var created := NewItem(freshId, caller.value, d, now);
    if created.None? {
      return Fail(ServerError);
    }
    var item := created.value;
    ghost var before := db.Snapshot();
    db.items := db.items[freshId := item];
    r := Ok(item);
    if TradeLifecycle.Consistent(before) {
      forall k | k in db.trades
        ensures TradeLifecycle.TradeWellFormed(db.Snapshot(), db.trades[k])
      {
        assert TradeLifecycle.TradeWellFormed(before, db.trades[k]);
      }
    }
  }

  /** The query string of getItems; `None` for an absent or empty parameter. */
  datatype Query = Query(
    category: Option<string>,
    search: Option<string>,
    listingType: Option<ListingType>,
    marketplace: Option<Marketplace>)

  /** A search term matches the title or description case-insensitively, or one tag exactly. */
  predicate Matches(item: Item, term: string) {
    || Contains(Lower(item.title), Lower(term))
    || Contains(Lower(item.description), Lower(term))
    || term in item.tags
  }

  /** Whether getItems lists `item` for query `q`. */
  predicate Shown(item: Item, q: Query) {
    && (item.status == Verified || item.status == ItemStatus.Pending)
    && item.marketplace == q.marketplace.GetOr(Normal)
    && (Given(q.category) ==> item.category == q.category.value)
    && (q.listingType.Some? ==> item.listingType == q.listingType.value)
    && (Given(q.search) ==> Matches(item, q.search.value))
  }

  /** The `where` object getItems builds, one field at a time. */
  datatype Filters = Filters(
    statuses: set<ItemStatus>,
    marketplace: Marketplace,
    category: Option<string>,
    listingType: Option<ListingType>,
    search: Option<string>)

  predicate Where(item: Item, f: Filters) {
    && item.status in f.statuses
    && item.marketplace == f.marketplace
    && (f.category.Some? ==> item.category == f.category.value)
    && (f.listingType.Some? ==> item.listingType == f.listingType.value)
    && (f.search.Some? ==> Matches(item, f.search.value))
  }

  function CreatedAt(item: Item): int {
    item.createdAt
  }

  /**
   * getItems: exactly the listings shown for the query, each once, newest first; a
   * SOLD or REMOVED listing is never among them.
   */
  method GetItems(db: Db, q: Query) returns (r: seq<Item>)
    ensures forall it :: it in r <==> it in db.items.Values && Shown(it, q)
    ensures |r| == |set it | it in db.items.Values && Shown(it, q)|
    ensures SortedDesc(r, CreatedAt)
    ensures forall it | it in r :: it.status != Sold && it.status != Removed
  {
    var f := Filters({Verified, ItemStatus.Pending}, q.marketplace.GetOr(Normal), None, None, None);
    if Given(q.category) {
      f := f.(category := q.category);
    }
    if q.listingType.Some? {
      f := f.(listingType := q.listingType);
    }
    if Given(q.search) {
      f := f.(search := q.search);
    }
    assert forall it: Item :: Where(it, f) <==> Shown(it, q);
    assert (set it | it in db.items.Values && Where(it, f)) == (set it | it in db.items.Values && Shown(it, q));
    var rows := Enumerate(set it | it in db.items.Values && Where(it, f));
    r := SortDesc(rows, CreatedAt);
    SortKeepsRows(rows, CreatedAt);
  }

  /** getItemById: the listing, or 404. */
  method GetItemById(db: Db, id: Id) returns (r: Reply<Item>)
    ensures id in db.items <==> r.Ok?
    ensures r.Ok? ==> r.value == db.items[id]
    ensures r.Fail? ==> r.code == NotFound
  {
    if id !in db.items {
      return Fail(NotFound);
    }
    r := Ok(db.items[id]);
  }

  /** A new listing in the default marketplace shows up in an unfiltered listing straight away. */
  lemma NewItemShown(id: Id, sellerId: Id, d: Draft, now: int)
    requires d.marketplace.None? || d.marketplace == Some(Normal)
    ensures NewItem(id, sellerId, d, now).Some? ==> Shown(NewItem(id, sellerId, d, now).value, Query(None, None, None, None))
  {
  }

  /** A search term always finds a listing whose title is that term, whatever its letter case. */
  lemma {:induction false} TitleFindsItself(item: Item, q: Query)
    requires q.search == Some(item.title)
    ensures Matches(item, q.search.value)
  {
    assert OccursAt(Lower(item.title), Lower(item.title), 0);
  }

  /** Once its deal is accepted a listing is SOLD and drops out of every listing query. */
  lemma AcceptedListingHidden(t: Tables, caller: Option<Id>, id: Id, now: int, q: Query)
    requires TradeLifecycle.Accept(t, caller, id, now).reply.Ok?
    ensures var l := t.trades[id].listingId;
            !Shown(TradeLifecycle.Accept(t, caller, id, now).after.items[l], q)
  {
  }
}

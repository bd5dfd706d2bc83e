/**
 * `getRecent`: hydrating a page of (activity_id, model) rows into full
 * records. Ids are grouped by model, each model present is fetched once,
 * the records are sorted by date (newest first), and each record's detail
 * lines are squashed into an `item_id => quantity` map, with order and
 * liquidation totals and a reward's credit as item 0.
 */
module ActivityRecent {
  import opened Wrappers
  import opened Tables
  import opened DetailLines
  import opened Ordering
  import opened ActivityQuery

  /** A record's detail entry: the fetched lines, or the squashed map that replaces them. */
  datatype Details = Lines(lines: seq<Line>) | ItemMap(quantities: map<int, int>) | NoDetails

  /**
   * A fetched activity record. `credit` is the reward's credit (0 for other
   * kinds); `total` is `Order.subTotal` or `Liquidation.total` once computed.
   */
  datatype ActivityRecord = ActivityRecord(model: Kind, id: nat, date: int, credit: int, details: Details, total: Option<int>)

  predicate HasDetailTable(k: Kind) {
    k != PaypalOrder && k != Review
  }

  /** The shape of a record straight from a fetch: lines exactly for the kinds with a detail table, no total. */
  predicate Fetched(r: ActivityRecord) {
    (if HasDetailTable(r.model) then r.details.Lines? else r.details.NoDetails?) && r.total.None?
  }

  function DateOf(r: ActivityRecord): int { r.date }

  /** The ids of `model`'s rows on the page, in page order: the list `getRecent` builds for that model. */
  function IdsOf(page: seq<Row>, model: Kind): (ids: seq<nat>)
    ensures |ids| <= |page|
    ensures forall id :: id in ids <==> Row(id, model) in page
  {
    if page == [] then []
    else
      var last := page[|page| - 1];
      var init := page[..|page| - 1];
      assert page == init + [last];
      IdsOf(init, model) + (if last.model == model then [last.activityId] else [])
  }

  lemma IdsOfStep(page: seq<Row>, i: nat, model: Kind)
    requires i < |page|
    ensures IdsOf(page[..i + 1], model) == IdsOf(page[..i], model) + (if page[i].model == model then [page[i].activityId] else [])
  {
    assert page[..i + 1][..i] == page[..i];
  }

  /** `idMap` holds, for each model on `prefix`, that model's ids in order, and no other key. */
  predicate Grouped(prefix: seq<Row>, idMap: map<Kind, seq<nat>>) {
    (forall k :: k in idMap <==> IdsOf(prefix, k) != [])
    && forall k :: k in idMap ==> idMap[k] == IdsOf(prefix, k)
  }

  /** One step of the reduce: appending row `i`'s id to its model's list extends the grouping by that row. */
  lemma GroupStep(page: seq<Row>, i: nat, idMap: map<Kind, seq<nat>>, next: map<Kind, seq<nat>>)
    requires i < |page| && Grouped(page[..i], idMap)
    requires var m := page[i].model;
      next == if m !in idMap || idMap[m] == [] then idMap[m := [page[i].activityId]]
              else idMap[m := idMap[m] + [page[i].activityId]]
    ensures Grouped(page[..i + 1], next)
  {
    forall k { IdsOfStep(page, i, k); }
  }

  /** The `Hash::reduce` over the page: each row's id is appended to the list of its own model. */
  method GroupIds(page: seq<Row>) returns (idMap: map<Kind, seq<nat>>)
    ensures forall k :: k in idMap <==> IdsOf(page, k) != []
    ensures forall k :: k in idMap ==> idMap[k] == IdsOf(page, k)
  {
    idMap := map[];
    for i := 0 to |page|
      invariant Grouped(page[..i], idMap)
    {
      var modelName := page[i].model;
      var id := page[i].activityId;
      var next;
      if modelName !in idMap || idMap[modelName] == [] {
        next := idMap[modelName := [id]];
      } else {
        next := idMap[modelName := idMap[modelName] + [id]];
      }
      GroupStep(page, i, idMap, next);
      idMap := next;
    }
    assert page[..|page|] == page;
  }

  /** `find('all')` with `<id> in (ids)`: the table's rows whose id is listed, each once, in table order. */
  function Fetch<T>(t: seq<T>, ids: seq<nat>, id: T -> nat, record: T -> ActivityRecord): (r: seq<ActivityRecord>)
    ensures forall x :: x in r ==> exists i :: 0 <= i < |t| && id(t[i]) in ids && x == record(t[i])
    ensures forall i :: 0 <= i < |t| && id(t[i]) in ids ==> record(t[i]) in r
  {
    if t == [] then []
    else
      var rest := Fetch(t[1..], ids, id, record);
      assert forall i :: 1 <= i < |t| ==> t[i] == t[1..][i - 1];
      (if id(t[0]) in ids then [record(t[0])] else []) + rest
  }

  function OwnedRecord(model: Kind, o: OwnedRow): ActivityRecord {
    ActivityRecord(model, o.id, o.date, 0, Lines(o.lines), None)
  }

  /** Each row of a table as the record its fetch returns, in table order. */
  function AllRecords<T>(t: seq<T>, record: T -> ActivityRecord): (r: seq<ActivityRecord>)
    ensures |r| == |t| && forall i :: 0 <= i < |t| ==> r[i] == record(t[i])
  {
    seq(|t|, i requires 0 <= i < |t| => record(t[i]))
  }

  /** Every record of one model's table, whether or not a page lists it. */
  function Records(s: Store, model: Kind): (r: seq<ActivityRecord>)
    ensures forall x :: x in r ==> Fetched(x) && x.model == model
  {
    match model
    case Order => AllRecords(s.orders, (o: OwnedRow) => OwnedRecord(Order, o))
    case Liquidation => AllRecords(s.liquidations, (o: OwnedRow) => OwnedRecord(Liquidation, o))
    case PaypalOrder => AllRecords(s.paypalOrders, PaypalRecord)
    case Gift => AllRecords(s.gifts, GiftRecord)
    case Reward => AllRecords(s.rewards, RewardRecord)
    case Review => AllRecords(s.reviews, ReviewRecord)
    case Shipment => AllRecords(s.shipments, ShipmentRecord)
    case GiveawayClaim => AllRecords(s.giveawayClaims, (c: OwnedRow) => OwnedRecord(GiveawayClaim, c))
  }

  function PaypalRecord(p: PaypalOrderRow): ActivityRecord { ActivityRecord(PaypalOrder, p.id, p.date, 0, NoDetails, None) }
  function GiftRecord(g: GiftRow): ActivityRecord { ActivityRecord(Gift, g.id, g.date, 0, Lines(g.lines), None) }
  function RewardRecord(w: RewardRow): ActivityRecord { ActivityRecord(Reward, w.id, w.date, w.credit, Lines(w.lines), None) }
  function ReviewRecord(v: ReviewRow): ActivityRecord { ActivityRecord(Review, v.id, v.date, 0, NoDetails, None) }
  function ShipmentRecord(h: ShipmentRow): ActivityRecord { ActivityRecord(Shipment, h.id, h.date, 0, Lines(h.lines), None) }

  /** `Fetch` keeps exactly the records of the table whose id is listed. */
  lemma FetchIsFilter<T>(t: seq<T>, ids: seq<nat>, id: T -> nat, record: T -> ActivityRecord)
    requires forall i :: 0 <= i < |t| ==> record(t[i]).id == id(t[i])
    ensures forall x :: x in Fetch(t, ids, id, record) <==> x in AllRecords(t, record) && x.id in ids
  {
    var r := Fetch(t, ids, id, record);
    var all := AllRecords(t, record);
    forall x | x in all && x.id in ids ensures x in r {
      var i :| 0 <= i < |t| && all[i] == x;
    }
  }

  /**
   * The fetch of one model with its details (`contain`): the `id in (ids)`
   * condition keeps exactly the table's records whose id is listed.
   */
  function FetchModel(s: Store, model: Kind, ids: seq<nat>): (r: seq<ActivityRecord>)
    ensures forall x :: x in r ==> Fetched(x) && x.model == model && x.id in ids
    ensures forall x :: x in r <==> x in Records(s, model) && x.id in ids
  {
    match model
    case Order =>
      FetchIsFilter(s.orders, ids, (o: OwnedRow) => o.id, (o: OwnedRow) => OwnedRecord(Order, o));
      Fetch(s.orders, ids, (o: OwnedRow) => o.id, (o: OwnedRow) => OwnedRecord(Order, o))
    case Liquidation =>
      FetchIsFilter(s.liquidations, ids, (o: OwnedRow) => o.id, (o: OwnedRow) => OwnedRecord(Liquidation, o));
      Fetch(s.liquidations, ids, (o: OwnedRow) => o.id, (o: OwnedRow) => OwnedRecord(Liquidation, o))
    case PaypalOrder =>
      FetchIsFilter(s.paypalOrders, ids, (p: PaypalOrderRow) => p.id, PaypalRecord);
      Fetch(s.paypalOrders, ids, (p: PaypalOrderRow) => p.id, PaypalRecord)
    case Gift =>
      FetchIsFilter(s.gifts, ids, (g: GiftRow) => g.id, GiftRecord);
      Fetch(s.gifts, ids, (g: GiftRow) => g.id, GiftRecord)
    case Reward =>
      FetchIsFilter(s.rewards, ids, (w: RewardRow) => w.id, RewardRecord);
      Fetch(s.rewards, ids, (w: RewardRow) => w.id, RewardRecord)
    case Review =>
      FetchIsFilter(s.reviews, ids, (v: ReviewRow) => v.id, ReviewRecord);
      Fetch(s.reviews, ids, (v: ReviewRow) => v.id, ReviewRecord)
    case Shipment =>
      FetchIsFilter(s.shipments, ids, (h: ShipmentRow) => h.id, ShipmentRecord);
      Fetch(s.shipments, ids, (h: ShipmentRow) => h.id, ShipmentRecord)
    case GiveawayClaim =>
      FetchIsFilter(s.giveawayClaims, ids, (c: OwnedRow) => c.id, (c: OwnedRow) => OwnedRecord(GiveawayClaim, c));
      Fetch(s.giveawayClaims, ids, (c: OwnedRow) => c.id, (c: OwnedRow) => OwnedRecord(GiveawayClaim, c))
  }

  /** A model is fetched only when its id list is not empty. */
  function FetchIfPresent(s: Store, page: seq<Row>, model: Kind): seq<ActivityRecord> {
    var ids := IdsOf(page, model);
    if ids == [] then [] else FetchModel(s, model, ids)
  }

  /** The fetched records, model after model, in the order `getRecent` merges them. */
  function FetchPresent(s: Store, page: seq<Row>): (r: seq<ActivityRecord>)
    ensures forall x :: x in r ==> Fetched(x) && Row(x.id, x.model) in page
  {
    FetchIfPresent(s, page, Order) + FetchIfPresent(s, page, Liquidation) + FetchIfPresent(s, page, PaypalOrder)
    + FetchIfPresent(s, page, Gift) + FetchIfPresent(s, page, Reward) + FetchIfPresent(s, page, Review)
    + FetchIfPresent(s, page, Shipment) + FetchIfPresent(s, page, GiveawayClaim)
  }

  /** `Hash::sort($activities, '{n}.{s}.date', 'desc')` on the fetched records. */
  function SortedFetch(s: Store, page: seq<Row>): (r: seq<ActivityRecord>)
    ensures multiset(r) == multiset(FetchPresent(s, page))
    ensures SortedDesc(r, DateOf)
    ensures forall j :: 0 <= j < |r| ==> Fetched(r[j]) && Row(r[j].id, r[j].model) in page
  {
    var r := SortDesc(FetchPresent(s, page), DateOf);
    SortDescSpec(FetchPresent(s, page), DateOf);
    assert forall j :: 0 <= j < |r| ==> r[j] in multiset(FetchPresent(s, page));
    r
  }

  /** The rewrite of one record in the squash loop. */
  function Normalize(r: ActivityRecord): ActivityRecord
    requires Fetched(r)
  {
    match r.model
    case Order => r.(total := Some(LineTotal(r.details.lines)), details := ItemMap(Squash(r.details.lines)))
    case Liquidation => r.(total := Some(LineTotal(r.details.lines)), details := ItemMap(Squash(r.details.lines)))
    case Gift => r.(details := ItemMap(Squash(r.details.lines)))
    case Reward => r.(details := ItemMap(Squash(r.details.lines)[0 := r.credit]))
    case Shipment => r.(details := ItemMap(Squash(r.details.lines)))
    case GiveawayClaim => r.(details := ItemMap(Squash(r.details.lines)))
    case PaypalOrder => r
    case Review => r
  }

  /**
   * What the squash loop makes of a record: the model, id and date stay; an
   * order's or liquidation's total is Σ price × quantity of its lines; every
   * kind with detail lines gets a map whose keys are the distinct item ids
   * (plus 0 for a reward), each mapped to the quantity of the LAST line
   * naming it; a reward's key 0 holds its credit whatever the lines say;
   * PayPal orders and reviews are left as they are.
   */
  lemma {:induction false} NormalizeSpec(r: ActivityRecord)
    requires Fetched(r)
    ensures var n := Normalize(r);
      n.model == r.model && n.id == r.id && n.date == r.date && n.credit == r.credit
    ensures !HasDetailTable(r.model) ==> Normalize(r) == r
    ensures r.model == Order || r.model == Liquidation ==> Normalize(r).total == Some(LineTotal(r.details.lines))
    ensures r.model != Order && r.model != Liquidation ==> Normalize(r).total.None?
    ensures HasDetailTable(r.model) ==>
      var lines := r.details.lines;
      var d := Normalize(r).details;
      && d.ItemMap?
      && d.quantities.Keys == ItemIds(lines) + (if r.model == Reward then {0} else {})
      && (forall i :: IsLastFor(lines, i) && (r.model != Reward || lines[i].itemId != 0) ==>
            d.quantities[lines[i].itemId] == lines[i].quantity)
      && (r.model == Reward ==> d.quantities[0] == r.credit)
  {
    if HasDetailTable(r.model) {
      var lines := r.details.lines;
      SquashKeys(lines);
      forall i | IsLastFor(lines, i)
        ensures lines[i].itemId in Squash(lines) && Squash(lines)[lines[i].itemId] == lines[i].quantity
      {
        SquashLastWins(lines, i);
      }
    }
  }

  /** The record of model `k` appended to the merged list when its id list is present and not empty. */
  method FetchNext(s: Store, page: seq<Row>, modelIds: map<Kind, seq<nat>>, k: Kind, acc: seq<ActivityRecord>)
    returns (activities: seq<ActivityRecord>)
    requires forall m :: m in modelIds <==> IdsOf(page, m) != []
    requires forall m :: m in modelIds ==> modelIds[m] == IdsOf(page, m)
    ensures activities == acc + FetchIfPresent(s, page, k)
  {
    activities := acc;
    if k in modelIds && modelIds[k] != [] {
      activities := activities + FetchModel(s, k, modelIds[k]);
    }
  }

  /** The eight fetches of `getRecent`, each run only for a model present on the page. */
  method FetchAll(s: Store, page: seq<Row>, modelIds: map<Kind, seq<nat>>) returns (activities: seq<ActivityRecord>)
    requires forall m :: m in modelIds <==> IdsOf(page, m) != []
    requires forall m :: m in modelIds ==> modelIds[m] == IdsOf(page, m)
    ensures activities == FetchPresent(s, page)
  {
    var a1 := FetchNext(s, page, modelIds, Order, []);
    var a2 := FetchNext(s, page, modelIds, Liquidation, a1);
    var a3 := FetchNext(s, page, modelIds, PaypalOrder, a2);
    var a4 := FetchNext(s, page, modelIds, Gift, a3);
    var a5 := FetchNext(s, page, modelIds, Reward, a4);
    var a6 := FetchNext(s, page, modelIds, Review, a5);
    var a7 := FetchNext(s, page, modelIds, Shipment, a6);
    activities := FetchNext(s, page, modelIds, GiveawayClaim, a7);
    assert a1 == FetchIfPresent(s, page, Order);
  }

  /** The loop that squashes every record's details to `item_id => quantity`, in place. */
  method SquashAll(sorted: seq<ActivityRecord>) returns (activities: seq<ActivityRecord>)
    requires forall j :: 0 <= j < |sorted| ==> Fetched(sorted[j])
    ensures |activities| == |sorted|
    ensures forall j :: 0 <= j < |sorted| ==> activities[j] == Normalize(sorted[j])
  {
    activities := sorted;
    for i := 0 to |activities|
      invariant |activities| == |sorted|
      invariant forall j :: 0 <= j < i ==> activities[j] == Normalize(sorted[j])
      invariant forall j :: i <= j < |activities| ==> activities[j] == sorted[j]
    {
      var activity := activities[i];
      if activity.model == Order || activity.model == Liquidation {
        var subTotal := DetailTotal(activity.details.lines);
        activity := activity.(total := Some(subTotal), details := ItemMap(Squash(activity.details.lines)));
      } else if activity.model == Gift || activity.model == Shipment || activity.model == GiveawayClaim {
        activity := activity.(details := ItemMap(Squash(activity.details.lines)));
      } else if activity.model == Reward {
        var quantities := Squash(activity.details.lines);
        // the reward's credit is filed under item 0, overwriting any real line with that id
        activity := activity.(details := ItemMap(quantities[0 := activity.credit]));
      }
      activities := activities[i := activity];
    }
  }

  /**
   * `getRecent`: group the page's ids by model, fetch each model whose list
   * is not empty, sort by date descending, then rewrite each record.
   */
  method GetRecent(s: Store, page: seq<Row>) returns (activities: seq<ActivityRecord>)
    ensures |activities| == |SortedFetch(s, page)|
    ensures forall j :: 0 <= j < |activities| ==> activities[j] == Normalize(SortedFetch(s, page)[j])
    ensures SortedDesc(activities, DateOf)
    ensures forall j :: 0 <= j < |activities| ==> Row(activities[j].id, activities[j].model) in page
  {
    var modelIds := GroupIds(page);
    var fetched := FetchAll(s, page, modelIds);
    var sorted := SortDesc(fetched, DateOf);
    assert sorted == SortedFetch(s, page);
    activities := SquashAll(sorted);
    forall j | 0 <= j < |activities|
      ensures activities[j].date == sorted[j].date && activities[j].id == sorted[j].id
      ensures activities[j].model == sorted[j].model
    {
      NormalizeSpec(sorted[j]);
    }
  }

  /** A model's records come back exactly when the page lists their id under that model. */
  lemma FetchIfPresentSpec(s: Store, page: seq<Row>, model: Kind)
    ensures forall x :: x in FetchIfPresent(s, page, model) <==> x in Records(s, model) && Row(x.id, model) in page
  {
    var ids := IdsOf(page, model);
    if ids == [] {
      forall x | x in Records(s, model) ensures Row(x.id, model) !in page {
        assert x.id !in ids;
      }
    }
  }

  /**
   * Nothing on the page that is still in the store is lost, and nothing else
   * comes back: a record is among those `getRecent` sorts exactly when its
   * table holds it and the page lists its id under its model. A page row
   * whose record has gone is dropped without error.
   */
  lemma {:induction false} PageRowsAreFetched(s: Store, page: seq<Row>, x: ActivityRecord)
    ensures x in SortedFetch(s, page) <==> x in Records(s, x.model) && Row(x.id, x.model) in page
  {
    FetchPresentByModel(s, page, x);
    FetchIfPresentSpec(s, page, x.model);
    assert x in SortedFetch(s, page) <==> x in multiset(FetchPresent(s, page));
  }

  /** A record is among the merged fetches exactly when it is in its own model's fetch. */
  lemma FetchPresentByModel(s: Store, page: seq<Row>, x: ActivityRecord)
    ensures x in FetchPresent(s, page) <==> x in FetchIfPresent(s, page, x.model)
  {
    forall m | m != x.model ensures x !in FetchIfPresent(s, page, m) {
      FetchIfPresentSpec(s, page, m);
    }
  }
}

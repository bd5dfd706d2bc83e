/**
 * The activity feed's selection side: for a user or an item, one selection
 * per kind of activity, combined with `union all`, ordered by `activity_id`
 * descending, cut to a page with `limit offset,count`, and counted.
 */
module ActivityQuery {
  import opened Wrappers
  import opened Tables
  import opened Ordering

  /** The `model` tag of an activity. */
  datatype Kind = Order | Liquidation | PaypalOrder | Gift | Reward | Review | Shipment | GiveawayClaim

  /** One row of a selection: `<id> as activity_id, '<Kind>' as model`. */
  datatype Row = Row(activityId: nat, model: Kind)

  /** The tables the selections read. `activity` is the table of (id, model) pairs behind the global feed. */
  datatype Store = Store(
    activity: seq<Row>,
    orders: seq<OwnedRow>,
    liquidations: seq<OwnedRow>,
    paypalOrders: seq<PaypalOrderRow>,
    gifts: seq<GiftRow>,
    rewards: seq<RewardRow>,
    rewardRecipients: seq<RewardRecipient>,
    reviews: seq<ReviewRow>,
    ratings: seq<RatingRow>,
    shipments: seq<ShipmentRow>,
    giveawayClaims: seq<OwnedRow>)

  /** `n` copies of `x`. */
  function Repeat(x: Row, n: nat): (r: seq<Row>)
    ensures |r| == n
    ensures forall i :: 0 <= i < n ==> r[i] == x
  {
    seq(n, _ => x)
  }

  /** Σ mult over the rows of a table. */
  function Weight<T>(t: seq<T>, mult: T -> nat): nat {
    if t == [] then 0 else mult(t[0]) + Weight(t[1..], mult)
  }

  /**
   * One selection over a table: each row `t[i]` yields `mult(t[i])` result
   * rows `(id(t[i]), model)`. `mult` is 0 or 1 for a plain condition and the
   * number of matching child rows for an inner join, so a parent joined to
   * two matching children appears twice.
   */
  function Select<T>(t: seq<T>, mult: T -> nat, id: T -> nat, model: Kind): (r: seq<Row>)
    ensures |r| == Weight(t, mult)
    ensures forall x :: x in r ==> x.model == model
    ensures forall x :: x in r ==> exists i :: 0 <= i < |t| && mult(t[i]) > 0 && id(t[i]) == x.activityId
    ensures forall i :: 0 <= i < |t| && mult(t[i]) > 0 ==> Row(id(t[i]), model) in r
    decreases |t|
  {
    if t == [] then []
    else
      var head := Repeat(Row(id(t[0]), model), mult(t[0]));
      var rest := Select(t[1..], mult, id, model);
      assert forall i :: 1 <= i < |t| ==> t[i] == t[1..][i - 1];
      assert forall x :: x in head ==> x == Row(id(t[0]), model);
      assert mult(t[0]) > 0 ==> head[0] in head + rest;
      head + rest
  }

  /** How many detail lines name `item`: the inner join with the detail table on `item_id`. */
  function ItemLines(lines: seq<Line>, item: int): (n: nat)
    ensures n > 0 <==> exists j :: 0 <= j < |lines| && lines[j].itemId == item
  {
    if lines == [] then 0
    else
      assert forall j :: 1 <= j < |lines| ==> lines[j] == lines[1..][j - 1];
      (if lines[0].itemId == item then 1 else 0) + ItemLines(lines[1..], item)
  }

  /** How many ratings join a review on `rating_id` and pass `keep`. */
  function JoinedRatings(ratings: seq<RatingRow>, ratingId: int, keep: RatingRow -> bool): (n: nat)
    ensures n > 0 <==> exists j :: 0 <= j < |ratings| && ratings[j].ratingId == ratingId && keep(ratings[j])
  {
    if ratings == [] then 0
    else
      assert forall j :: 1 <= j < |ratings| ==> ratings[j] == ratings[1..][j - 1];
      (if ratings[0].ratingId == ratingId && keep(ratings[0]) then 1 else 0)
        + JoinedRatings(ratings[1..], ratingId, keep)
  }

  function Flag(b: bool): nat { if b then 1 else 0 }

  /** The condition of the by-user gift selection: `(sender_id = u [and anonymous = 0]) or recipient_id = u`. */
  predicate GiftCondition(g: GiftRow, user: int, showAnonymousGiftSenders: bool) {
    var senderClause := g.senderId == user && (if showAnonymousGiftSenders then true else g.anonymous == 0);
    senderClause || g.recipientId == user
  }

  /** The by-user selection for one kind; there is none for shipments. */
  function UserPart(s: Store, user: int, showAnonymousGiftSenders: bool, k: Kind): (r: seq<Row>)
    ensures forall y :: y in r ==> y.model == k
  {
    match k
    case Order => Select(s.orders, (o: OwnedRow) => Flag(o.userId == user), (o: OwnedRow) => o.id, Order)
    case Liquidation => Select(s.liquidations, (o: OwnedRow) => Flag(o.userId == user), (o: OwnedRow) => o.id, Liquidation)
    case PaypalOrder => Select(s.paypalOrders, (p: PaypalOrderRow) => Flag(p.userId == user), (p: PaypalOrderRow) => p.id, PaypalOrder)
    case Gift =>
      Select(s.gifts, (g: GiftRow) => Flag(GiftCondition(g, user, showAnonymousGiftSenders)), (g: GiftRow) => g.id, Gift)
    case Reward =>
      Select(s.rewardRecipients, (rr: RewardRecipient) => Flag(rr.recipientId == user), (rr: RewardRecipient) => rr.rewardId, Reward)
    case Review =>
      Select(s.reviews, (rv: ReviewRow) => JoinedRatings(s.ratings, rv.ratingId, (rt: RatingRow) => rt.userId == user), (rv: ReviewRow) => rv.id, Review)
    case Shipment => []
    case GiveawayClaim => Select(s.giveawayClaims, (c: OwnedRow) => Flag(c.userId == user), (c: OwnedRow) => c.id, GiveawayClaim)
  }

  /** `_findByUser`: the seven selections, in the order they are joined with `union all`. */
  function UserUnion(s: Store, user: int, showAnonymousGiftSenders: bool): seq<Row> {
    UserPart(s, user, showAnonymousGiftSenders, Order)
    + UserPart(s, user, showAnonymousGiftSenders, Liquidation)
    + UserPart(s, user, showAnonymousGiftSenders, PaypalOrder)
    + UserPart(s, user, showAnonymousGiftSenders, Gift)
    + UserPart(s, user, showAnonymousGiftSenders, Reward)
    + UserPart(s, user, showAnonymousGiftSenders, Review)
    + UserPart(s, user, showAnonymousGiftSenders, GiveawayClaim)
  }

  /** The by-item selection for one kind, joined to its detail table (reviews to their rating); none for PayPal orders. */
  function ItemPart(s: Store, item: int, k: Kind): (r: seq<Row>)
    ensures forall y :: y in r ==> y.model == k
  {
    match k
    case Order => Select(s.orders, (o: OwnedRow) => ItemLines(o.lines, item), (o: OwnedRow) => o.id, Order)
    case Liquidation => Select(s.liquidations, (o: OwnedRow) => ItemLines(o.lines, item), (o: OwnedRow) => o.id, Liquidation)
    case PaypalOrder => []
    case Gift => Select(s.gifts, (g: GiftRow) => ItemLines(g.lines, item), (g: GiftRow) => g.id, Gift)
    case Reward => Select(s.rewards, (r: RewardRow) => ItemLines(r.lines, item), (r: RewardRow) => r.id, Reward)
    case Review =>
      Select(s.reviews, (rv: ReviewRow) => JoinedRatings(s.ratings, rv.ratingId, (rt: RatingRow) => rt.itemId == item), (rv: ReviewRow) => rv.id, Review)
    case Shipment => Select(s.shipments, (sh: ShipmentRow) => ItemLines(sh.lines, item), (sh: ShipmentRow) => sh.id, Shipment)
    case GiveawayClaim => Select(s.giveawayClaims, (c: OwnedRow) => ItemLines(c.lines, item), (c: OwnedRow) => c.id, GiveawayClaim)
  }

  /** `_findByItem`: the seven selections, in the order they are joined with `union all`. */
  function ItemUnion(s: Store, item: int): seq<Row> {
    ItemPart(s, item, Order)
    + ItemPart(s, item, Liquidation)
    + ItemPart(s, item, Gift)
    + ItemPart(s, item, Reward)
    + ItemPart(s, item, Review)
    + ItemPart(s, item, Shipment)
    + ItemPart(s, item, GiveawayClaim)
  }

  /** Who sees a row in a user's feed, stated kind by kind. */
  predicate InUserActivity(s: Store, user: int, showAnonymousGiftSenders: bool, x: Row) {
    match x.model
    case Order => exists i :: 0 <= i < |s.orders| && s.orders[i].id == x.activityId && s.orders[i].userId == user
    case Liquidation =>
      exists i :: 0 <= i < |s.liquidations| && s.liquidations[i].id == x.activityId && s.liquidations[i].userId == user
    case PaypalOrder =>
      exists i :: 0 <= i < |s.paypalOrders| && s.paypalOrders[i].id == x.activityId && s.paypalOrders[i].userId == user
    case Gift =>
      // recipients always see a gift; its sender sees it unless it is anonymous and anonymous senders are hidden
      exists i :: 0 <= i < |s.gifts| && s.gifts[i].id == x.activityId &&
        (s.gifts[i].recipientId == user ||
         (s.gifts[i].senderId == user && (showAnonymousGiftSenders || s.gifts[i].anonymous == 0)))
    case Reward =>
      exists i :: 0 <= i < |s.rewardRecipients| && s.rewardRecipients[i].rewardId == x.activityId
        && s.rewardRecipients[i].recipientId == user
    case Review =>
      exists i, j :: 0 <= i < |s.reviews| && 0 <= j < |s.ratings| && s.reviews[i].id == x.activityId
        && s.ratings[j].ratingId == s.reviews[i].ratingId && s.ratings[j].userId == user
    case Shipment => false
    case GiveawayClaim =>
      exists i :: 0 <= i < |s.giveawayClaims| && s.giveawayClaims[i].id == x.activityId && s.giveawayClaims[i].userId == user
  }

  /** Which rows an item's feed holds, stated kind by kind. */
  predicate InItemActivity(s: Store, item: int, x: Row) {
    match x.model
    case Order =>
      exists i, j :: 0 <= i < |s.orders| && 0 <= j < |s.orders[i].lines| && s.orders[i].id == x.activityId && s.orders[i].lines[j].itemId == item
    case Liquidation =>
      exists i, j :: 0 <= i < |s.liquidations| && 0 <= j < |s.liquidations[i].lines| && s.liquidations[i].id == x.activityId && s.liquidations[i].lines[j].itemId == item
    case PaypalOrder => false
    case Gift =>
      exists i, j :: 0 <= i < |s.gifts| && 0 <= j < |s.gifts[i].lines| && s.gifts[i].id == x.activityId && s.gifts[i].lines[j].itemId == item
    case Reward =>
      exists i, j :: 0 <= i < |s.rewards| && 0 <= j < |s.rewards[i].lines| && s.rewards[i].id == x.activityId && s.rewards[i].lines[j].itemId == item
    case Review =>
      exists i, j :: 0 <= i < |s.reviews| && 0 <= j < |s.ratings| && s.reviews[i].id == x.activityId
        && s.ratings[j].ratingId == s.reviews[i].ratingId && s.ratings[j].itemId == item
    case Shipment =>
      exists i, j :: 0 <= i < |s.shipments| && 0 <= j < |s.shipments[i].lines| && s.shipments[i].id == x.activityId && s.shipments[i].lines[j].itemId == item
    case GiveawayClaim =>
      exists i, j :: 0 <= i < |s.giveawayClaims| && 0 <= j < |s.giveawayClaims[i].lines| && s.giveawayClaims[i].id == x.activityId && s.giveawayClaims[i].lines[j].itemId == item
  }

  /** A row of a union comes from the selection of its own kind. */
  lemma UserUnionByKind(s: Store, user: int, showAnonymousGiftSenders: bool, x: Row)
    ensures x in UserUnion(s, user, showAnonymousGiftSenders) <==> x in UserPart(s, user, showAnonymousGiftSenders, x.model)
  {
    var p := (k: Kind) => UserPart(s, user, showAnonymousGiftSenders, k);
    if x.model == Shipment {
      assert x !in p(Order) && x !in p(Liquidation) && x !in p(PaypalOrder) && x !in p(Gift);
      assert x !in p(Reward) && x !in p(Review) && x !in p(GiveawayClaim);
    }
  }

  lemma ItemUnionByKind(s: Store, item: int, x: Row)
    ensures x in ItemUnion(s, item) <==> x in ItemPart(s, item, x.model)
  {
    var p := (k: Kind) => ItemPart(s, item, k);
    if x.model == PaypalOrder {
      assert x !in p(Order) && x !in p(Liquidation) && x !in p(Gift) && x !in p(Reward);
      assert x !in p(Review) && x !in p(Shipment) && x !in p(GiveawayClaim);
    }
  }

  /**
   * A row is in a user's union exactly when the stated visibility holds.
   * In particular a gift is there iff `recipient_id = u`, or `sender_id = u`
   * and (`showAnonymousGiftSenders` or `anonymous = 0`); no shipment ever is.
   */
  lemma {:induction false} UserUnionMembership(s: Store, user: int, showAnonymousGiftSenders: bool, x: Row)
    ensures x in UserUnion(s, user, showAnonymousGiftSenders) <==> InUserActivity(s, user, showAnonymousGiftSenders, x)
    ensures x in UserUnion(s, user, showAnonymousGiftSenders) ==> x.model != Shipment
  {
    UserUnionByKind(s, user, showAnonymousGiftSenders, x);
    match x.model
    case Review => UserReviewMembership(s, user, showAnonymousGiftSenders, x);
    case Gift => UserGiftMembership(s, user, showAnonymousGiftSenders, x);
    case Order => OwnedUserMembership(s.orders, user, x, Order);
    case Liquidation => OwnedUserMembership(s.liquidations, user, x, Liquidation);
    case GiveawayClaim => OwnedUserMembership(s.giveawayClaims, user, x, GiveawayClaim);
    case PaypalOrder =>
    case Reward =>
    case Shipment =>
  }

  lemma OwnedUserMembership(t: seq<OwnedRow>, user: int, x: Row, model: Kind)
    requires x.model == model
    ensures (exists i :: 0 <= i < |t| && t[i].id == x.activityId && t[i].userId == user)
      <==> x in Select(t, (o: OwnedRow) => Flag(o.userId == user), (o: OwnedRow) => o.id, model)
  {
    if exists i :: 0 <= i < |t| && t[i].id == x.activityId && t[i].userId == user {
      var i :| 0 <= i < |t| && t[i].id == x.activityId && t[i].userId == user;
      assert x == Row(t[i].id, model);
    }
  }

  lemma UserGiftMembership(s: Store, user: int, showAnonymousGiftSenders: bool, x: Row)
    requires x.model == Gift
    ensures x in UserPart(s, user, showAnonymousGiftSenders, Gift) <==> InUserActivity(s, user, showAnonymousGiftSenders, x)
  {
    if InUserActivity(s, user, showAnonymousGiftSenders, x) {
      var i :| 0 <= i < |s.gifts| && s.gifts[i].id == x.activityId &&
        (s.gifts[i].recipientId == user ||
         (s.gifts[i].senderId == user && (showAnonymousGiftSenders || s.gifts[i].anonymous == 0)));
      assert GiftCondition(s.gifts[i], user, showAnonymousGiftSenders);
      assert x == Row(s.gifts[i].id, Gift);
    }
  }

  lemma UserReviewMembership(s: Store, user: int, showAnonymousGiftSenders: bool, x: Row)
    requires x.model == Review
    ensures x in UserPart(s, user, showAnonymousGiftSenders, Review) <==> InUserActivity(s, user, showAnonymousGiftSenders, x)
  {
    var keepRating := (rt: RatingRow) => rt.userId == user;
    var mult := (rv: ReviewRow) => JoinedRatings(s.ratings, rv.ratingId, keepRating);
    var part := Select(s.reviews, mult, (rv: ReviewRow) => rv.id, Review);
    assert part == UserPart(s, user, showAnonymousGiftSenders, Review);
    if x in part {
      var i :| 0 <= i < |s.reviews| && mult(s.reviews[i]) > 0 && s.reviews[i].id == x.activityId;
      var j :| 0 <= j < |s.ratings| && s.ratings[j].ratingId == s.reviews[i].ratingId && keepRating(s.ratings[j]);
    }
    if InUserActivity(s, user, showAnonymousGiftSenders, x) {
      var i, j :| 0 <= i < |s.reviews| && 0 <= j < |s.ratings| && s.reviews[i].id == x.activityId
        && s.ratings[j].ratingId == s.reviews[i].ratingId && s.ratings[j].userId == user;
      assert keepRating(s.ratings[j]);
      assert mult(s.reviews[i]) > 0;
      assert x == Row(s.reviews[i].id, Review);
    }
  }

  /** A row is in an item's union exactly when a record of its kind names the item; no PayPal order ever is. */
  lemma {:induction false} ItemUnionMembership(s: Store, item: int, x: Row)
    ensures x in ItemUnion(s, item) <==> InItemActivity(s, item, x)
    ensures x in ItemUnion(s, item) ==> x.model != PaypalOrder
  {
    ItemUnionByKind(s, item, x);
    match x.model
    case Review => ItemReviewMembership(s, item, x);
    case Order => LinesMembership(s.orders, item, x, Order);
    case Liquidation => LinesMembership(s.liquidations, item, x, Liquidation);
    case GiveawayClaim => LinesMembership(s.giveawayClaims, item, x, GiveawayClaim);
    case Gift => ItemGiftMembership(s, item, x);
    case Reward => ItemRewardMembership(s, item, x);
    case Shipment => ItemShipmentMembership(s, item, x);
    case PaypalOrder =>
  }

  lemma ItemReviewMembership(s: Store, item: int, x: Row)
    requires x.model == Review
    ensures x in ItemPart(s, item, Review) <==> InItemActivity(s, item, x)
  {
    var keepRating := (rt: RatingRow) => rt.itemId == item;
    var mult := (rv: ReviewRow) => JoinedRatings(s.ratings, rv.ratingId, keepRating);
    var part := Select(s.reviews, mult, (rv: ReviewRow) => rv.id, Review);
    assert part == ItemPart(s, item, Review);
    if x in part {
      var i :| 0 <= i < |s.reviews| && mult(s.reviews[i]) > 0 && s.reviews[i].id == x.activityId;
      var j :| 0 <= j < |s.ratings| && s.ratings[j].ratingId == s.reviews[i].ratingId && keepRating(s.ratings[j]);
    }
    if InItemActivity(s, item, x) {
      var i, j :| 0 <= i < |s.reviews| && 0 <= j < |s.ratings| && s.reviews[i].id == x.activityId
        && s.ratings[j].ratingId == s.reviews[i].ratingId && s.ratings[j].itemId == item;
      assert keepRating(s.ratings[j]);
      assert mult(s.reviews[i]) > 0;
      assert x == Row(s.reviews[i].id, Review);
    }
  }

  lemma ItemGiftMembership(s: Store, item: int, x: Row)
    requires x.model == Gift
    ensures x in ItemPart(s, item, Gift) <==> InItemActivity(s, item, x)
  {
    if InItemActivity(s, item, x) {
      var i, j :| 0 <= i < |s.gifts| && 0 <= j < |s.gifts[i].lines| && s.gifts[i].id == x.activityId && s.gifts[i].lines[j].itemId == item;
      assert ItemLines(s.gifts[i].lines, item) > 0;
      assert x == Row(s.gifts[i].id, Gift);
    }
  }

  lemma ItemRewardMembership(s: Store, item: int, x: Row)
    requires x.model == Reward
    ensures x in ItemPart(s, item, Reward) <==> InItemActivity(s, item, x)
  {
    if InItemActivity(s, item, x) {
      var i, j :| 0 <= i < |s.rewards| && 0 <= j < |s.rewards[i].lines| && s.rewards[i].id == x.activityId && s.rewards[i].lines[j].itemId == item;
      assert ItemLines(s.rewards[i].lines, item) > 0;
      assert x == Row(s.rewards[i].id, Reward);
    }
  }

  lemma ItemShipmentMembership(s: Store, item: int, x: Row)
    requires x.model == Shipment
    ensures x in ItemPart(s, item, Shipment) <==> InItemActivity(s, item, x)
  {
    if InItemActivity(s, item, x) {
      var i, j :| 0 <= i < |s.shipments| && 0 <= j < |s.shipments[i].lines| && s.shipments[i].id == x.activityId && s.shipments[i].lines[j].itemId == item;
      assert ItemLines(s.shipments[i].lines, item) > 0;
      assert x == Row(s.shipments[i].id, Shipment);
    }
  }

  lemma LinesMembership(t: seq<OwnedRow>, item: int, x: Row, model: Kind)
    requires x.model == model
    ensures (exists i, j :: 0 <= i < |t| && 0 <= j < |t[i].lines| && t[i].id == x.activityId && t[i].lines[j].itemId == item)
      <==> x in Select(t, (o: OwnedRow) => ItemLines(o.lines, item), (o: OwnedRow) => o.id, model)
  {
    var part := Select(t, (o: OwnedRow) => ItemLines(o.lines, item), (o: OwnedRow) => o.id, model);
    if exists i, j :: 0 <= i < |t| && 0 <= j < |t[i].lines| && t[i].id == x.activityId && t[i].lines[j].itemId == item {
      var i, j :| 0 <= i < |t| && 0 <= j < |t[i].lines| && t[i].id == x.activityId && t[i].lines[j].itemId == item;
      assert ItemLines(t[i].lines, item) > 0;
      assert x == Row(t[i].id, model);
    }
  }

  /** The find types: the two custom ones and the framework's plain `find('all')` on the activity table. */
  datatype FindType = ByUser(userId: int, showAnonymousGiftSenders: bool) | ByItem(itemId: int) | Global

  /** A page query: the find type with its `limit` and `offset` keys, each possibly unset. */
  datatype PageQuery = PageQuery(findType: FindType, limit: Option<nat>, offset: Option<nat>)

  /** The rows a find type ranges over before ordering and paging. */
  function Union(s: Store, f: FindType): seq<Row> {
    match f
    case ByUser(user, show) => UserUnion(s, user, show)
    case ByItem(item) => ItemUnion(s, item)
    case Global => s.activity
  }

  function ActivityId(x: Row): int { x.activityId }

  /** `select * from (<unions>) as Activity order by activity_id desc`, before the limit. */
  function Ordered(s: Store, f: FindType): (r: seq<Row>)
    ensures multiset(r) == multiset(Union(s, f))
    ensures |r| == |Union(s, f)|
    ensures SortedDesc(r, ActivityId)
  {
    SortDescSpec(Union(s, f), ActivityId);
    assert |multiset(Union(s, f))| == |Union(s, f)|;
    SortDesc(Union(s, f), ActivityId)
  }

  /**
   * The rows a page query returns: the ordered union cut by
   * `limit offset,count` when a limit is set, the whole union otherwise.
   */
  function Find(s: Store, q: PageQuery): (page: seq<Row>)
    ensures SortedDesc(page, ActivityId)
    ensures forall x :: x in page ==> x in Union(s, q.findType)
    ensures q.limit.Some? ==> |page| <= q.limit.value
    ensures q.limit.None? ==> multiset(page) == multiset(Union(s, q.findType))
  {
    var ordered := Ordered(s, q.findType);
    var page := Paginate(ordered, q.limit, q.offset);
    assert forall x :: x in page ==> x in multiset(ordered);
    page
  }

  /**
   * `find('count')`: for the custom find types, `count(*)` over the very
   * query that gives the rows (its limit included); for the global feed, the
   * framework's count of the activity table.
   */
  function Count(s: Store, q: PageQuery): nat {
    match q.findType
    case Global => |s.activity|
    case _ => |Find(s, q)|
  }

  /**
   * Counting a query without a limit gives the size of the union, duplicates
   * included, which is the sum of the per-kind selections' sizes (`union
   * all` removes nothing).
   */
  lemma CountIsUnionSize(s: Store, q: PageQuery)
    requires q.limit.None?
    ensures Count(s, q) == |Union(s, q.findType)|
    ensures q.findType.ByUser? ==> (Count(s, q) ==
      var f := q.findType;
      |UserPart(s, f.userId, f.showAnonymousGiftSenders, Order)| + |UserPart(s, f.userId, f.showAnonymousGiftSenders, Liquidation)|
      + |UserPart(s, f.userId, f.showAnonymousGiftSenders, PaypalOrder)| + |UserPart(s, f.userId, f.showAnonymousGiftSenders, Gift)|
      + |UserPart(s, f.userId, f.showAnonymousGiftSenders, Reward)| + |UserPart(s, f.userId, f.showAnonymousGiftSenders, Review)|
      + |UserPart(s, f.userId, f.showAnonymousGiftSenders, GiveawayClaim)|)
    ensures q.findType.ByItem? ==> (Count(s, q) ==
      var item := q.findType.itemId;
      |ItemPart(s, item, Order)| + |ItemPart(s, item, Liquidation)| + |ItemPart(s, item, Gift)| + |ItemPart(s, item, Reward)|
      + |ItemPart(s, item, Review)| + |ItemPart(s, item, Shipment)| + |ItemPart(s, item, GiveawayClaim)|)
  {
    var page := Find(s, q);
    assert |multiset(page)| == |multiset(Union(s, q.findType))|;
  }

  /** `getItemPageQuery`: the by-item find with a limit (5 by default) and no offset. */
  function GetItemPageQuery(itemId: int, limit: nat := 5): PageQuery {
    PageQuery(ByItem(itemId), Some(limit), None)
  }

  /** `getUserPageQuery`: anonymous gift senders hidden and a limit of 5 unless given. */
  function GetUserPageQuery(userId: int, showAnonymousGiftSenders: bool := false, limit: nat := 5): PageQuery {
    PageQuery(ByUser(userId, showAnonymousGiftSenders), Some(limit), None)
  }

  /** `getGlobalPageQuery`: no find type, only a limit. */
  function GetGlobalPageQuery(limit: nat := 5): PageQuery {
    PageQuery(Global, Some(limit), None)
  }

  /** A page query from a builder returns the `limit` newest rows of its union. */
  lemma BuiltQueriesGiveNewestRows(s: Store, f: FindType, limit: nat)
    ensures var q := match f
      case ByUser(user, show) => GetUserPageQuery(user, show, limit)
      case ByItem(item) => GetItemPageQuery(item, limit)
      case Global => GetGlobalPageQuery(limit);
      Find(s, q) == Ordered(s, f)[..Min(limit, |Ordered(s, f)|)]
  {
    var q := PageQuery(f, Some(limit), None);
    assert Find(s, q) == Window(Ordered(s, f), 0, limit);
  }

  /** A page request with a limit is the window of the ordered union that starts at its offset. */
  lemma FindIsWindow(s: Store, f: FindType, size: nat, offset: nat)
    ensures Find(s, PageQuery(f, Some(size), Some(offset))) == Window(Ordered(s, f), offset, size)
  {
    var q := PageQuery(f, Some(size), Some(offset));
    assert Find(s, q) == Paginate(Ordered(s, f), q.limit, q.offset);
  }

  /**
   * Requesting pages of `size` rows one after another, at offsets 0, size,
   * 2·size, ..., neither skips nor repeats a row: once the pages reach the
   * count of the unlimited query, together they are the whole ordered union
   * and their sizes add up to that count.
   */
  lemma {:induction false} ContiguousPagesCoverUnion(s: Store, f: FindType, size: nat, n: nat)
    requires n * size >= Count(s, PageQuery(f, None, None))
    ensures Pages(Ordered(s, f), size, n) == Ordered(s, f)
    ensures |Pages(Ordered(s, f), size, n)| == Count(s, PageQuery(f, None, None))
  {
    CountIsUnionSize(s, PageQuery(f, None, None));
    PagesCoverAll(Ordered(s, f), size, n);
  }
}

/**
 * The rows of the store's tables that the activity feed and the reward
 * controller read. Only the columns the modelled code looks at are kept.
 * Prices, quantities and credits are integers.
 */
module Tables {

  /** A detail line: OrderDetail, LiquidationDetail, GiftDetail, RewardDetail,
      ShipmentDetail or GiveawayClaimDetail. `price` is read only for orders
      and liquidations. */
  datatype Line = Line(itemId: int, quantity: int, price: int)

  /** A row of `order`, `liquidation` or `giveaway_claim`: owned by `user_id`. */
  datatype OwnedRow = OwnedRow(id: nat, userId: int, date: int, lines: seq<Line>)

  datatype PaypalOrderRow = PaypalOrderRow(id: nat, userId: int, date: int)

  /** `anonymous` is the tinyint column; the selection tests `anonymous = 0`. */
  datatype GiftRow = GiftRow(id: nat, senderId: int, recipientId: int, anonymous: int, date: int, lines: seq<Line>)

  datatype RewardRow = RewardRow(id: nat, senderId: int, credit: int, date: int, lines: seq<Line>)

  /** A row of `reward_recipient`: one per (reward, recipient), with the once-only flag. */
  datatype RewardRecipient = RewardRecipient(rewardRecipientId: nat, rewardId: nat, recipientId: int, accepted: bool)

  datatype ReviewRow = ReviewRow(id: nat, ratingId: int, date: int)

  datatype RatingRow = RatingRow(ratingId: int, itemId: int, userId: int)

  datatype ShipmentRow = ShipmentRow(id: nat, date: int, lines: seq<Line>)
}

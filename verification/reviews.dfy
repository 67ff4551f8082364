/** The reviewable-order filter of `getReviewableOrders`: paid orders (status 3, as a
    number or a string) that carry no review yet. */
module Reviews {
  import opened Wrappers
  import opened JsonValue
  import opened Seqs

  datatype Order = Order(id: Value, status: Value, reviewId: Value)

  /** The orders endpoint's answer: `data` is `None` when it is falsy, and its `content` is
      `None` when missing (read as `[]`); `message` is "" when absent. */
  datatype OrdersAnswer = OrdersAnswered(code: Value, message: string, data: Option<Option<seq<Order>>>)
                        | OrdersThrew(error: string)

  datatype ReviewList = ReviewList(orders: seq<Order>, totalOrders: nat)

  /** `(order.status === 3 || order.status === '3') && !order.reviewId` */
  predicate Reviewable(o: Order) {
    (o.status == Num(3) || o.status == Str("3")) && !Truthy(o.reviewId)
  }

  function GetReviewableOrders(answer: OrdersAnswer): (r: Result<ReviewList>)
    ensures r.Ok? <==> answer.OrdersAnswered? && answer.code == Num(200) && answer.data.Some?
    ensures r.Ok? ==> forall i :: 0 <= i < |r.value.orders| ==> Reviewable(r.value.orders[i])
    ensures r.Ok? && answer.data.value.Some? ==> (r.value.totalOrders == |answer.data.value.value|
      && r.value.orders == Filter(answer.data.value.value, Reviewable))
    ensures r.Ok? && answer.data.value.None? ==> r.value == ReviewList([], 0)
  {
    match answer
    case OrdersThrew(e) => Err(e)
    case OrdersAnswered(code, message, data) =>
      if code != Num(200) || data.None? then
        Err(if message != "" then message else "Failed to fetch orders")
      else
        var all := if data.value.Some? then data.value.value else [];
        Ok(ReviewList(Filter(all, Reviewable), |all|))
  }

  /** An order is listed exactly when it is in the answer and is paid and unreviewed. */
  lemma {:induction false} ReviewableExactly(orders: seq<Order>, o: Order)
    ensures var r := GetReviewableOrders(OrdersAnswered(Num(200), "", Some(Some(orders))));
      o in r.value.orders <==> o in orders && Reviewable(o)
  {
    FilterMembers(orders, Reviewable, o);
  }

  /** A paid order counts whether its status arrives as the number 3 or the string "3"; it
      is excluded by any other status and by any review id other than a falsy one. */
  lemma ReviewableIff(o: Order)
    ensures Reviewable(o) <==>
      (o.status == Num(3) || o.status == Str("3")) && o.reviewId in {Missing, Null, Num(0), Str(""), Bool(false)}
  {
  }
}

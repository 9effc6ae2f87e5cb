/** The order schema (src/models/order.ts): the eleven status strings, the defaults of a new order, and the
    enum constraint `save()` enforces on `status` and on every `statusHistory` entry. */
module OrderModel {
  import opened Common

  const Pending := "Pending"
  const Processing := "Processing"
  const Shipped := "Shipped"
  const OutForDelivery := "out-for-delivery"
  const Delivered := "Delivered"
  const Cancelled := "cancelled"
  const Refunded := "refunded"
  const OnHold := "on-hold"
  const Expired := "expired"
  const Failed := "failed"
  const PartialRefund := "partial-refund"

  /** `Object.values(OrderStatus)`, in declaration order. */
  const Statuses: seq<string> :=
    [Pending, Processing, Shipped, OutForDelivery, Delivered, Cancelled, Refunded, OnHold, Expired, Failed,
     PartialRefund]

  predicate IsStatus(s: string) {
    s in Statuses
  }

  datatype Order = Order(orderItems: seq<Id>, user: Option<Id>, status: string, statusHistory: seq<string>)

  /** What `save()` validates about the two status paths. */
  predicate SchemaValid(o: Order) {
    IsStatus(o.status) && forall i :: 0 <= i < |o.statusHistory| ==> IsStatus(o.statusHistory[i])
  }

  predicate NoDuplicates(s: seq<string>) {
    forall i, j :: 0 <= i < j < |s| ==> s[i] != s[j]
  }

  /** A freshly created order: status and history take their defaults. */
  function NewOrder(orderItems: seq<Id>, user: Option<Id>): (o: Order)
    ensures o.status == Pending && o.statusHistory == [Pending]
    ensures SchemaValid(o) && NoDuplicates(o.statusHistory)
  {
    Order(orderItems, user, Pending, [Pending])
  }

  lemma StatusesAreDistinct()
    ensures NoDuplicates(Statuses) && |Statuses| == 11
  {
  }

  /** The lower-case spellings the status guard compares against are not enum values, while the enum's own
      "Pending" and "Delivered" are. */
  lemma GuardLiteralsAreNotStatuses()
    ensures !IsStatus("pending") && !IsStatus("delivered")
    ensures IsStatus(Pending) && IsStatus(Delivered)
  {
    assert "pending"[0] != Pending[0];
    assert "delivered"[0] != Delivered[0];
  }
}

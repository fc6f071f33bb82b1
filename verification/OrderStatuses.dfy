/** Order statuses as the order operations tell them apart. */
module OrderStatuses {

  /** `Waiting` is pending or cooking, `Ready` is cooked, packing or in delivery. */
  datatype OrderStatus = Waiting | Ready | Completed | Canceled

  predicate Active(s: OrderStatus) { s == Waiting || s == Ready }
}

/**
 * The records the order screen receives from the server: an order with its line items.
 * `createdAt` is the order's timestamp already converted to milliseconds, and currency
 * amounts are whole units.
 */
module Orders {
  import opened Text

  /** The optional `isAvailable` flag of a line item: absent, `true` or `false`. */
  datatype Availability = Unknown | Available | Unavailable

  datatype Item = Item(
    productId: string,
    name: string,
    quantity: int,
    description: string,
    price: int,
    isAvailable: Availability)

  datatype Order = Order(
    id: string,
    customerName: string,
    items: seq<Item>,
    status: string,
    createdAt: int,
    totalAmount: int)

  /** An order whose normalised status is "assigned": the kind that sounds the alarm. */
  predicate IsAssigned(o: Order) {
    Normalize(o.status) == "assigned"
  }

  /**
   * An assigned order's status is some spelling of "assigned" in upper and lower case,
   * with nothing but padding on either side.
   */
  lemma AssignedIsPaddedSpelling(o: Order)
    requires IsAssigned(o)
    ensures exists k :: 0 <= k && k + 8 <= |o.status| && ToLower(o.status[k..k + 8]) == "assigned"
                        && AllTrimmable(o.status[..k]) && AllTrimmable(o.status[k + 8..])
  {
    TrimKeepsSlice(o.status);
  }

  /** Conversely, every such spelling is assigned, the server's own "assigned" among them. */
  lemma PaddedAssignedIsAssigned(o: Order, pre: string, core: string, post: string)
    requires o.status == pre + core + post
    requires AllTrimmable(pre) && AllTrimmable(post) && ToLower(core) == "assigned"
    ensures IsAssigned(o)
  {
    assert LowerChar(core[0]) == 'a' && LowerChar(core[7]) == 'd';
    TrimStripsPadding(pre, core, post);
  }
}

/** BlanketOrderWizard.create_sale_order as a loop over the wizard's lines: an
    insertion-ordered dictionary from partner to order lines (a map plus the order in
    which its keys were first inserted), four header accumulators, then a second loop
    that builds one order-values record per customer. */
module BlanketOrderWizard {
  import opened WizardTypes
  import opened SaleOrderSpec

  /** The run over `lines` of the wizard whose blanket order is named `origin`: either the
      error it raises or the order values it would pass to create, in creation order. */
  method CreateSaleOrder(lines: seq<WizardLine>, origin: string) returns (r: Result)
    ensures r == CreateSaleOrders(lines, origin)
  {
    var ok, byCustomer, customers, header := ScanLines(lines);
    if !ok {
      return Err(ExceedsRemaining);
    }

    NoGroupsWhenEmpty(byCustomer, Counted(lines));
    if byCustomer == map[] {
      return Err(EmptyOrder);
    }

    if header.currency == 0 {
      return Err(DifferentCurrencies);
    }

    var res := OrderValues(customers, byCustomer, header, origin, Counted(lines));
    r := Ok(res);
  }

  /** The first loop: filter, quantity check, grouping by partner and the four header
      folds. `ok` is false exactly when some counted line exceeds its remaining
      quantity; otherwise the other results are the state after every line. */
  method ScanLines(lines: seq<WizardLine>)
    returns (ok: bool, byCustomer: map<Id, seq<OrderLineVals>>, customers: seq<Id>, header: Header)
    ensures ok <==> !HasExcess(Counted(lines))
    ensures ok ==> byCustomer == GroupsMap(Counted(lines)) && GroupsMatch(byCustomer, Counted(lines))
    ensures ok ==> customers == Customers(Counted(lines))
    ensures ok ==> header == HeaderOf(Counted(lines))
  {
    byCustomer, customers := map[], [];
    var currency, pricelist, user, paymentTerm := 0, 0, 0, 0;
    var i := 0;
    assert lines[..0] == [];
    while i < |lines|
      invariant 0 <= i <= |lines|
      invariant !HasExcess(Counted(lines[..i]))
      invariant byCustomer == GroupsMap(Counted(lines[..i]))
      invariant customers == Customers(Counted(lines[..i]))
      invariant Header(user, currency, pricelist, paymentTerm) == HeaderOf(Counted(lines[..i]))
    {
      var line := lines[i];
      CountedStep(lines, i);
      if line.qty != 0.0 {
        if line.qty > line.remaining {
          ExcessFound(lines, i);
          return false, byCustomer, customers, Header(user, currency, pricelist, paymentTerm);
        }
        ExcessSnoc(Counted(lines[..i]), line);
        SnocStep(Counted(lines[..i]), line);
        GroupsMapKeys(Counted(lines[..i]), line.partner);
        var vals := LineVals(line);
        if line.partner !in byCustomer {
          customers := customers + [line.partner];
        }
        // defaultdict(list): a missing key starts from the empty list
        var group := if line.partner in byCustomer then byCustomer[line.partner] else [];
        byCustomer := byCustomer[line.partner := group + [vals]];
        currency := FoldStep(currency, line.currency);
        pricelist := FoldStep(pricelist, line.pricelist);
        user := FoldStep(user, line.salesman);
        paymentTerm := FoldStep(paymentTerm, line.paymentTerm);
      }
      i := i + 1;
    }
    assert lines[..i] == lines;
    GroupsMapMatches(Counted(lines));
    ok, header := true, Header(user, currency, pricelist, paymentTerm);
  }

  /** The second loop: one order-values record per customer, in dictionary order, each
      with that customer's group and the shared header and origin. */
  method OrderValues(customers: seq<Id>, byCustomer: map<Id, seq<OrderLineVals>>, header: Header,
                     origin: string, ghost c: seq<WizardLine>)
    returns (res: seq<OrderVals>)
    requires customers == Customers(c) && GroupsMatch(byCustomer, c)
    ensures res == BuildOrders(c, header, origin)
  {
    res := [];
    var j := 0;
    while j < |customers|
      invariant 0 <= j <= |customers|
      invariant |res| == j
      invariant forall k :: 0 <= k < j ==>
        res[k] == OrderVals(customers[k], origin, header.user, header.currency, header.pricelist,
                            header.paymentTerm, GroupOf(c, customers[k]))
    {
      var customer := customers[j];
      assert customer in byCustomer && byCustomer[customer] == GroupOf(c, customer);
      res := res + [OrderVals(customer, origin, header.user, header.currency, header.pricelist,
                              header.paymentTerm, byCustomer[customer])];
      j := j + 1;
    }
  }

  /** The dictionary is empty exactly when no line was counted. */
  lemma NoGroupsWhenEmpty(m: map<Id, seq<OrderLineVals>>, c: seq<WizardLine>)
    requires GroupsMatch(m, c)
    ensures m == map[] <==> c == []
  {
    if c != [] {
      assert Customers(c)[0] in m;
    }
  }

  /** A counted line over its remaining quantity makes the whole input an excess. */
  lemma ExcessFound(lines: seq<WizardLine>, i: nat)
    requires i < |lines|
    requires IsCounted(lines[i]) && lines[i].qty > lines[i].remaining
    ensures HasExcess(Counted(lines))
  {
    CountedStep(lines, i);
    ExcessSnoc(Counted(lines[..i]), lines[i]);
    ExcessPersists(lines, i + 1);
  }
}

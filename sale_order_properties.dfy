/** What create_sale_order promises, proved about its specification: the filter, the
    precedence of the three errors, the header folds, the grouping by customer and the
    shape of the order values it produces. */
module SaleOrderProperties {
  import opened WizardTypes
  import opened SaleOrderSpec

  // ---------------------------------------------------------------------------
  // The filter

  /** Filtering keeps exactly the lines with a non-zero quantity, negative ones included. */
  lemma {:induction false} CountedMembers(lines: seq<WizardLine>, l: WizardLine)
    ensures l in Counted(lines) <==> l in lines && l.qty != 0.0
  {
    if lines != [] {
      var init := lines[..|lines| - 1];
      assert lines == init + [lines[|lines| - 1]];
      CountedMembers(init, l);
    }
  }

  /** Nothing survives the filter exactly when every quantity is zero. */
  lemma {:induction false} CountedEmpty(lines: seq<WizardLine>)
    ensures Counted(lines) == [] <==> forall k :: 0 <= k < |lines| ==> lines[k].qty == 0.0
  {
    if lines != [] {
      var n := |lines| - 1;
      var init := lines[..n];
      CountedEmpty(init);
      if IsCounted(lines[n]) {
        assert Counted(lines) == Counted(init) + [lines[n]];
      } else {
        forall k | 0 <= k < n ensures lines[k].qty == init[k].qty { }
      }
    }
  }

  /** A line whose quantity is zero can be removed from the wizard without changing the
      outcome: it gives no order line, takes part in no header fold and is never checked
      against its remaining quantity. */
  lemma ZeroQuantityIgnored(a: seq<WizardLine>, z: WizardLine, b: seq<WizardLine>, origin: string)
    requires z.qty == 0.0
    ensures CreateSaleOrders(a + [z] + b, origin) == CreateSaleOrders(a + b, origin)
  {
    CountedAppend(a + [z], b);
    CountedAppend(a, [z]);
    CountedAppend(a, b);
    assert Counted([z]) == Counted([z][..0]);
  }

  /** A line with a negative quantity is not filtered out. */
  lemma NegativeQuantityCounted(a: seq<WizardLine>, l: WizardLine, b: seq<WizardLine>)
    requires l.qty < 0.0
    ensures Counted(a + [l] + b) == Counted(a) + [l] + Counted(b)
  {
    CountedAppend(a + [l], b);
    CountedAppend(a, [l]);
    assert [l][..0] == [];
  }

  // ---------------------------------------------------------------------------
  // The three errors and their precedence

  /** Some counted line exceeds its remaining quantity exactly when some input line with a
      non-zero quantity does. */
  lemma {:induction false} ExcessInInput(lines: seq<WizardLine>)
    ensures HasExcess(Counted(lines)) <==>
            exists k :: 0 <= k < |lines| && lines[k].qty != 0.0 && lines[k].qty > lines[k].remaining
  {
    if lines != [] {
      var n := |lines| - 1;
      var init := lines[..n];
      ExcessInInput(init);
      CountedStep(lines, n);
      assert lines[..n + 1] == lines;
      ExcessSnoc(Counted(init), lines[n]);
      if exists k :: 0 <= k < n && init[k].qty != 0.0 && init[k].qty > init[k].remaining {
        var k :| 0 <= k < n && init[k].qty != 0.0 && init[k].qty > init[k].remaining;
        assert lines[k] == init[k];
      }
      if exists k :: 0 <= k < |lines| && lines[k].qty != 0.0 && lines[k].qty > lines[k].remaining {
        var k :| 0 <= k < |lines| && lines[k].qty != 0.0 && lines[k].qty > lines[k].remaining;
        if k < n {
          assert init[k] == lines[k];
        }
      }
    }
  }

  /** The quantity error is raised exactly when some line with a non-zero quantity asks for
      more than remains, whatever the other lines hold: it takes precedence over the empty
      and the currency errors. */
  lemma ExceedsRemainingWhen(lines: seq<WizardLine>, origin: string)
    ensures CreateSaleOrders(lines, origin) == Err(ExceedsRemaining) <==>
            exists k :: 0 <= k < |lines| && lines[k].qty != 0.0 && lines[k].qty > lines[k].remaining
  {
    ExcessInInput(lines);
  }

  /** The empty-order error is raised exactly when every quantity is zero; it takes
      precedence over the currency error. */
  lemma EmptyOrderWhen(lines: seq<WizardLine>, origin: string)
    ensures CreateSaleOrders(lines, origin) == Err(EmptyOrder) <==>
            forall k :: 0 <= k < |lines| ==> lines[k].qty == 0.0
  {
    CountedEmpty(lines);
  }

  /** The currency error is raised exactly when the quantity check passes, some line is
      counted, and the currency accumulator ends unset: a conflict on the last counted line
      or an empty currency. */
  lemma DifferentCurrenciesWhen(lines: seq<WizardLine>, origin: string)
    ensures CreateSaleOrders(lines, origin) == Err(DifferentCurrencies) <==>
            (forall k :: 0 <= k < |lines| && lines[k].qty != 0.0 ==> lines[k].qty <= lines[k].remaining) &&
            (exists k :: 0 <= k < |lines| && lines[k].qty != 0.0) &&
            HeaderOf(Counted(lines)).currency == 0
  {
    ExcessInInput(lines);
    CountedEmpty(lines);
  }

  /** Two lines that differ at most in pricelist, salesman and payment term. */
  predicate SameButFreeHeaders(a: WizardLine, b: WizardLine) {
    a.(pricelist := 0, salesman := 0, paymentTerm := 0) == b.(pricelist := 0, salesman := 0, paymentTerm := 0)
  }

  /** Changing only pricelists, salesmen and payment terms keeps the counted lines and the
      currency fold in step. */
  lemma {:induction false} FreeHeadersCounted(xs: seq<WizardLine>, ys: seq<WizardLine>)
    requires |xs| == |ys|
    requires forall k :: 0 <= k < |xs| ==> SameButFreeHeaders(xs[k], ys[k])
    ensures |Counted(xs)| == |Counted(ys)|
    ensures forall k :: 0 <= k < |Counted(xs)| ==> SameButFreeHeaders(Counted(xs)[k], Counted(ys)[k])
    ensures HeaderOf(Counted(xs)).currency == HeaderOf(Counted(ys)).currency
  {
    if xs != [] {
      var n := |xs| - 1;
      FreeHeadersCounted(xs[..n], ys[..n]);
      var cx, cy := Counted(xs[..n]), Counted(ys[..n]);
      assert SameButFreeHeaders(xs[n], ys[n]);
      assert xs[n].qty == ys[n].qty && xs[n].currency == ys[n].currency;
      if IsCounted(xs[n]) {
        SnocStep(cx, xs[n]);
        SnocStep(cy, ys[n]);
        assert Counted(xs) == cx + [xs[n]];
        assert Counted(ys) == cy + [ys[n]];
      }
    }
  }

  /** Conflicts in pricelist, salesman or payment term never raise: whether the run fails,
      and with which error, does not depend on those three fields. */
  lemma FreeHeadersNeverRaise(xs: seq<WizardLine>, ys: seq<WizardLine>, origin: string)
    requires |xs| == |ys|
    requires forall k :: 0 <= k < |xs| ==> SameButFreeHeaders(xs[k], ys[k])
    ensures CreateSaleOrders(xs, origin).Ok? <==> CreateSaleOrders(ys, origin).Ok?
    ensures CreateSaleOrders(xs, origin).Err? ==>
            CreateSaleOrders(xs, origin).error == CreateSaleOrders(ys, origin).error
  {
    FreeHeadersCounted(xs, ys);
    var cx, cy := Counted(xs), Counted(ys);
    assert HasExcess(cx) <==> HasExcess(cy) by {
      if HasExcess(cx) {
        var k :| 0 <= k < |cx| && cx[k].qty > cx[k].remaining;
        assert SameButFreeHeaders(cx[k], cy[k]);
      }
      if HasExcess(cy) {
        var k :| 0 <= k < |cy| && cy[k].qty > cy[k].remaining;
        assert SameButFreeHeaders(cx[k], cy[k]);
      }
    }
  }

  // ---------------------------------------------------------------------------
  // The header folds

  /** When every counted line carries the same currency, the fold yields that currency. */
  lemma {:induction false} UniformCurrencyFold(c: seq<WizardLine>, v: Id)
    requires c != []
    requires forall k :: 0 <= k < |c| ==> c[k].currency == v
    ensures HeaderOf(c).currency == v
  {
    var n := |c| - 1;
    if n > 0 {
      UniformCurrencyFold(c[..n], v);
    }
  }

  /** If all counted lines share one non-zero currency and none exceeds its remaining
      quantity, the run succeeds and every order is in that currency. */
  lemma UniformCurrencySucceeds(lines: seq<WizardLine>, origin: string, v: Id)
    requires v != 0
    requires exists k :: 0 <= k < |lines| && lines[k].qty != 0.0
    requires forall k :: 0 <= k < |lines| && lines[k].qty != 0.0 ==>
               lines[k].qty <= lines[k].remaining && lines[k].currency == v
    ensures CreateSaleOrders(lines, origin).Ok?
    ensures forall j :: 0 <= j < |CreateSaleOrders(lines, origin).orders| ==>
              CreateSaleOrders(lines, origin).orders[j].currency == v
  {
    ExcessInInput(lines);
    CountedEmpty(lines);
    var c := Counted(lines);
    forall k | 0 <= k < |c| ensures c[k].currency == v {
      CountedMembers(lines, c[k]);
    }
    UniformCurrencyFold(c, v);
  }

  // ---------------------------------------------------------------------------
  // Customers and their groups

  /** The customers are pairwise distinct. */
  lemma {:induction false} CustomersDistinct(c: seq<WizardLine>)
    ensures forall i, j :: 0 <= i < j < |Customers(c)| ==> Customers(c)[i] != Customers(c)[j]
  {
    if c != [] {
      CustomersDistinct(c[..|c| - 1]);
    }
  }

  /** A partner is a customer exactly when some counted line belongs to it. */
  lemma {:induction false} CustomersCover(c: seq<WizardLine>, p: Id)
    ensures p in Customers(c) <==> exists k :: 0 <= k < |c| && c[k].partner == p
  {
    if c != [] {
      var n := |c| - 1;
      var init := c[..n];
      CustomersCover(init, p);
      if exists k :: 0 <= k < n && init[k].partner == p {
        var k :| 0 <= k < n && init[k].partner == p;
        assert c[k] == init[k];
      }
      if exists k :: 0 <= k < |c| && c[k].partner == p {
        var k :| 0 <= k < |c| && c[k].partner == p;
        if k < n {
          assert init[k] == c[k];
        }
      }
    }
  }

  /** `k` is the first position of partner `p` among the counted lines. */
  predicate FirstAt(c: seq<WizardLine>, k: int, p: Id) {
    0 <= k < |c| && c[k].partner == p && forall k' :: 0 <= k' < k ==> c[k'].partner != p
  }

  /** The customers come in the order in which they first appear among the counted lines. */
  lemma {:induction false} CustomersInFirstAppearanceOrder(c: seq<WizardLine>, i: int, j: int, ki: int, kj: int)
    requires 0 <= i < j < |Customers(c)|
    requires FirstAt(c, ki, Customers(c)[i]) && FirstAt(c, kj, Customers(c)[j])
    ensures ki < kj
  {
    var n := |c| - 1;
    var init := c[..n];
    var ps := Customers(init);
    var xi, xj := Customers(c)[i], Customers(c)[j];
    CustomersCover(init, xi);
    CustomersCover(init, xj);
    if j < |ps| {
      assert xi == ps[i] && xj == ps[j];
      CustomersInFirstAppearanceOrder(init, i, j, ki, kj);
    } else {
      assert xj == c[n].partner && xj !in ps;
      assert xi == ps[i];
    }
  }

  /** A group holds exactly the order lines of the counted lines of its partner. */
  lemma {:induction false} GroupOfMembers(c: seq<WizardLine>, p: Id, v: OrderLineVals)
    ensures v in GroupOf(c, p) <==>
            exists k :: 0 <= k < |c| && c[k].partner == p && LineVals(c[k]) == v
  {
    if c != [] {
      var n := |c| - 1;
      var init := c[..n];
      GroupOfMembers(init, p, v);
      if exists k :: 0 <= k < n && init[k].partner == p && LineVals(init[k]) == v {
        var k :| 0 <= k < n && init[k].partner == p && LineVals(init[k]) == v;
        assert c[k] == init[k];
      }
      if exists k :: 0 <= k < |c| && c[k].partner == p && LineVals(c[k]) == v {
        var k :| 0 <= k < |c| && c[k].partner == p && LineVals(c[k]) == v;
        if k < n {
          assert init[k] == c[k];
        }
      }
    }
  }

  /** Every customer's group holds at least one order line. */
  lemma CustomerGroupNonEmpty(c: seq<WizardLine>, p: Id)
    requires p in Customers(c)
    ensures GroupOf(c, p) != []
  {
    CustomersCover(c, p);
    var k :| 0 <= k < |c| && c[k].partner == p;
    GroupOfMembers(c, p, LineVals(c[k]));
  }

  // ---------------------------------------------------------------------------
  // Nothing dropped or duplicated

  /** The number of order lines across a list of order values. */
  function TotalOrderLines(os: seq<OrderVals>): nat {
    if os == [] then 0 else TotalOrderLines(os[..|os| - 1]) + |os[|os| - 1].orderLine|
  }

  /** The sizes of the groups of the partners `ps`, added up. */
  function GroupSizes(c: seq<WizardLine>, ps: seq<Id>): nat {
    if ps == [] then 0 else GroupSizes(c, ps[..|ps| - 1]) + |GroupOf(c, ps[|ps| - 1])|
  }

  lemma {:induction false} TotalOfOrdersFor(c: seq<WizardLine>, h: Header, origin: string, ps: seq<Id>)
    ensures TotalOrderLines(OrdersFor(c, h, origin, ps)) == GroupSizes(c, ps)
  {
    if ps != [] {
      var n := |ps| - 1;
      TotalOfOrdersFor(c, h, origin, ps[..n]);
      assert OrdersFor(c, h, origin, ps)[..n] == OrdersFor(c, h, origin, ps[..n]);
    }
  }

  /** One more counted line adds one to the group sizes of any distinct partners that
      include its own. */
  lemma {:induction false} GroupSizesStep(c: seq<WizardLine>, l: WizardLine, ps: seq<Id>)
    requires forall i, j :: 0 <= i < j < |ps| ==> ps[i] != ps[j]
    ensures GroupSizes(c + [l], ps) == GroupSizes(c, ps) + (if l.partner in ps then 1 else 0)
  {
    SnocStep(c, l);
    if ps != [] {
      var n := |ps| - 1;
      GroupSizesStep(c, l, ps[..n]);
      assert l.partner in ps <==> l.partner in ps[..n] || l.partner == ps[n];
      assert ps[n] !in ps[..n];
    }
  }

  lemma {:induction false} GroupSizesTotal(c: seq<WizardLine>)
    ensures GroupSizes(c, Customers(c)) == |c|
  {
    if c != [] {
      var n := |c| - 1;
      var init, l := c[..n], c[n];
      assert c == init + [l];
      GroupSizesTotal(init);
      CustomersDistinct(init);
      GroupSizesStep(init, l, Customers(init));
      SnocStep(init, l);
      if l.partner !in Customers(init) {
        var ps := Customers(init);
        assert (ps + [l.partner])[..|ps|] == ps;
        GroupOfAbsent(init, l.partner);
      }
    }
  }

  /** On success, the order lines across all orders are as many as the counted lines. */
  lemma OrderLinesTotal(lines: seq<WizardLine>, origin: string)
    requires CreateSaleOrders(lines, origin).Ok?
    ensures TotalOrderLines(CreateSaleOrders(lines, origin).orders) == |Counted(lines)|
  {
    var c := Counted(lines);
    TotalOfOrdersFor(c, HeaderOf(c), origin, Customers(c));
    GroupSizesTotal(c);
  }

  // ---------------------------------------------------------------------------
  // The shape of a successful run

  /** The header fields of one order's values. */
  function OrderHeader(o: OrderVals): Header {
    Header(o.user, o.currency, o.pricelist, o.paymentTerm)
  }

  /** On success: one order per distinct partner of the counted lines, each with exactly
      its partner's non-empty group, all with the blanket order's name as origin and the
      same folded header, whose currency is the last counted line's and whose other fields
      are the last counted line's or 0. */
  lemma SuccessShape(lines: seq<WizardLine>, origin: string)
    requires CreateSaleOrders(lines, origin).Ok?
    ensures var os := CreateSaleOrders(lines, origin).orders;
            var c := Counted(lines);
            && |os| == |Customers(c)|
            && (forall j :: 0 <= j < |os| ==> os[j].partner == Customers(c)[j])
            && (forall i, j :: 0 <= i < j < |os| ==> os[i].partner != os[j].partner)
            && (forall k :: 0 <= k < |c| ==> exists j :: 0 <= j < |os| && os[j].partner == c[k].partner)
            && (forall j :: 0 <= j < |os| ==> os[j].orderLine == GroupOf(c, os[j].partner) != [])
            && (forall j :: 0 <= j < |os| ==> os[j].origin == origin && OrderHeader(os[j]) == OrderHeader(os[0]))
            && c != []
            && (forall j :: 0 <= j < |os| ==>
                  && os[j].currency == c[|c| - 1].currency != 0
                  && (os[j].pricelist == 0 || os[j].pricelist == c[|c| - 1].pricelist)
                  && (os[j].user == 0 || os[j].user == c[|c| - 1].salesman)
                  && (os[j].paymentTerm == 0 || os[j].paymentTerm == c[|c| - 1].paymentTerm))
  {
    var os := CreateSaleOrders(lines, origin).orders;
    var c := Counted(lines);
    var ps := Customers(c);
    CustomersDistinct(c);
    forall k | 0 <= k < |c| ensures exists j :: 0 <= j < |os| && os[j].partner == c[k].partner {
      CustomersCover(c, c[k].partner);
      var j :| 0 <= j < |ps| && ps[j] == c[k].partner;
      assert os[j].partner == ps[j];
    }
    forall j | 0 <= j < |os| ensures GroupOf(c, os[j].partner) != [] {
      CustomerGroupNonEmpty(c, ps[j]);
    }
  }

  /** On success, every order line of an order comes from a counted line of that order's
      partner: its quantity, price, sequence, product, unit, taxes and blanket line are
      that line's. */
  lemma OrderLinesFromCountedLines(lines: seq<WizardLine>, origin: string, j: int, v: OrderLineVals)
    requires CreateSaleOrders(lines, origin).Ok?
    requires 0 <= j < |CreateSaleOrders(lines, origin).orders|
    requires v in CreateSaleOrders(lines, origin).orders[j].orderLine
    ensures exists k :: 0 <= k < |Counted(lines)| && CopiedFrom(v, Counted(lines)[k]) &&
              Counted(lines)[k].partner == CreateSaleOrders(lines, origin).orders[j].partner
  {
    var c := Counted(lines);
    GroupOfMembers(c, Customers(c)[j], v);
    var k :| 0 <= k < |c| && c[k].partner == Customers(c)[j] && LineVals(c[k]) == v;
    assert CopiedFrom(v, c[k]);
  }

  /** The order-line values `v` carry the fields of wizard line `l`. */
  predicate CopiedFrom(v: OrderLineVals, l: WizardLine) {
    && v.productUomQty == l.qty
    && v.priceUnit == l.priceUnit
    && v.sequence == l.sequence
    && v.blanketOrderLine == l.blanketLine
    && v.product == l.product
    && v.name == l.productName
    && v.productUom == l.uom
    && v.taxIds == l.taxes
  }

  /** On success, the order line of every counted line sits in the order of its partner. */
  lemma CountedLinePlaced(lines: seq<WizardLine>, origin: string, k: int)
    requires CreateSaleOrders(lines, origin).Ok?
    requires 0 <= k < |Counted(lines)|
    ensures exists j :: 0 <= j < |CreateSaleOrders(lines, origin).orders| &&
              CreateSaleOrders(lines, origin).orders[j].partner == Counted(lines)[k].partner &&
              LineVals(Counted(lines)[k]) in CreateSaleOrders(lines, origin).orders[j].orderLine
  {
    var c := Counted(lines);
    var ps := Customers(c);
    CustomersCover(c, c[k].partner);
    var j :| 0 <= j < |ps| && ps[j] == c[k].partner;
    GroupOfMembers(c, ps[j], LineVals(c[k]));
    assert CreateSaleOrders(lines, origin).orders[j].partner == ps[j];
  }
}

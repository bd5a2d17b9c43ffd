/** The header folds as the currency check evidently means them. In create_sale_order a
    conflict writes False into an accumulator, and False compares equal to the initial 0,
    so the next line's value is adopted again: three lines in currencies 1, 2, 2 pass the
    "different currencies" check and produce an order in currency 2. This module shows that
    run on the as-written model and gives a fold whose conflict is final, with the check it
    was meant to implement proved about it. */
module CurrencyAgreement {
  import opened WizardTypes
  import opened SaleOrderSpec

  /** An accumulator that keeps "no line yet" apart from "lines disagreed". */
  datatype Agreement = Unset | Agreed(value: Id) | Conflict

  function AgreeStep(a: Agreement, v: Id): Agreement {
    match a
    case Unset => Agreed(v)
    case Agreed(w) => if w == v then a else Conflict
    case Conflict => Conflict
  }

  function SalesmanOf(l: WizardLine): Id { l.salesman }
  function CurrencyOf(l: WizardLine): Id { l.currency }
  function PricelistOf(l: WizardLine): Id { l.pricelist }
  function PaymentTermOf(l: WizardLine): Id { l.paymentTerm }

  /** The agreement on field `f` over the counted lines `c`, folded in input order. */
  function AgreeFold(c: seq<WizardLine>, f: WizardLine -> Id): Agreement {
    if c == [] then Unset else AgreeStep(AgreeFold(c[..|c| - 1], f), f(c[|c| - 1]))
  }

  /** A conflict is final: the fold agrees exactly when every line has the first line's value. */
  lemma {:induction false} AgreeFoldMeans(c: seq<WizardLine>, f: WizardLine -> Id)
    requires c != []
    ensures AgreeFold(c, f) ==
            if forall k :: 0 <= k < |c| ==> f(c[k]) == f(c[0]) then Agreed(f(c[0])) else Conflict
  {
    var n := |c| - 1;
    if n > 0 {
      var init := c[..n];
      AgreeFoldMeans(init, f);
      assert init[0] == c[0];
      if forall k :: 0 <= k < n ==> f(init[k]) == f(init[0]) {
        assert (forall k :: 0 <= k < |c| ==> f(c[k]) == f(c[0])) <==> f(c[n]) == f(c[0]);
      } else {
        var k :| 0 <= k < n && f(init[k]) != f(init[0]);
        assert f(c[k]) != f(c[0]);
      }
    }
  }

  /** The id written into the order values: the agreed value, or False when unset or in conflict. */
  function AgreedId(a: Agreement): Id {
    if a.Agreed? then a.value else 0
  }

  /** The four header fields with final conflicts. */
  function IntendedHeader(c: seq<WizardLine>): Header {
    Header(AgreedId(AgreeFold(c, SalesmanOf)), AgreedId(AgreeFold(c, CurrencyOf)),
           AgreedId(AgreeFold(c, PricelistOf)), AgreedId(AgreeFold(c, PaymentTermOf)))
  }

  /** create_sale_order with the header folds it evidently intends; everything else as
      written. */
  function CreateSaleOrdersIntended(lines: seq<WizardLine>, origin: string): Result {
    var c := Counted(lines);
    if HasExcess(c) then Err(ExceedsRemaining)
    else if c == [] then Err(EmptyOrder)
    else
      var h := IntendedHeader(c);
      if h.currency == 0 then Err(DifferentCurrencies)
      else Ok(BuildOrders(c, h, origin))
  }

  /** With final conflicts, the currency check passes exactly when all counted lines share
      one non-zero currency, and every order then carries it; a disagreeing pricelist,
      salesman or payment term becomes False. */
  lemma IntendedCurrencyCheck(lines: seq<WizardLine>, origin: string)
    requires !HasExcess(Counted(lines)) && Counted(lines) != []
    ensures var c := Counted(lines);
            CreateSaleOrdersIntended(lines, origin).Ok? <==>
              c[0].currency != 0 && forall k :: 0 <= k < |c| ==> c[k].currency == c[0].currency
    ensures var c := Counted(lines);
            CreateSaleOrdersIntended(lines, origin).Ok? ==>
              forall j :: 0 <= j < |CreateSaleOrdersIntended(lines, origin).orders| ==>
                && CreateSaleOrdersIntended(lines, origin).orders[j].currency == c[0].currency
                && (CreateSaleOrdersIntended(lines, origin).orders[j].pricelist != 0 ==>
                      forall k :: 0 <= k < |c| ==> c[k].pricelist == c[0].pricelist)
  {
    var c := Counted(lines);
    AgreeFoldMeans(c, CurrencyOf);
    AgreeFoldMeans(c, PricelistOf);
  }

  /** Three wizard lines of one customer, in currencies 1, 2 and 2. */
  function MixedCurrencyLines(): seq<WizardLine> {
    var l := WizardLine(7, 1, "", 1, 10, 5.0, 3.0, 1.0, 42, 1, 0, 0, 0, []);
    [l, l.(currency := 2), l.(currency := 2)]
  }

  /** As written, the mixed currencies 1, 2, 2 pass the currency check: the order is created
      in currency 2. The intended fold rejects the same lines. */
  lemma MixedCurrenciesAccepted()
    ensures CreateSaleOrders(MixedCurrencyLines(), "BO001").Ok?
    ensures CreateSaleOrders(MixedCurrencyLines(), "BO001").orders[0].currency == 2
    ensures CreateSaleOrdersIntended(MixedCurrencyLines(), "BO001") == Err(DifferentCurrencies)
  {
    var ls := MixedCurrencyLines();
    assert ls[..0] == [] && ls[..1] == [ls[0]] && ls[..2] == [ls[0], ls[1]];
    assert Counted(ls) == ls;
    assert !HasExcess(ls);
    assert HeaderOf(ls[..1]).currency == 1;
    assert HeaderOf(ls[..2]).currency == 0;
    assert HeaderOf(ls).currency == 2;
    assert Customers(ls) == [42];
    AgreeFoldMeans(ls, CurrencyOf);
    assert CurrencyOf(ls[1]) != CurrencyOf(ls[0]);
  }
}

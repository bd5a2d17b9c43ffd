/** The functional specification of the wizard's create_sale_order: which lines count,
    how the header fields are folded, how order lines are grouped by customer, and the
    overall outcome. Every fold is written over the prefix of its input, the way the
    wizard's loop visits the lines. */
module SaleOrderSpec {
  import opened WizardTypes

  /** A line takes part in the run exactly when its quantity is not zero; negative
      quantities are kept. */
  predicate IsCounted(l: WizardLine) {
    l.qty != 0.0
  }

  /** The lines that survive the filter, in input order. */
  function Counted(lines: seq<WizardLine>): (c: seq<WizardLine>)
    ensures |c| <= |lines|
  {
    if lines == [] then []
    else
      var init := Counted(lines[..|lines| - 1]);
      var l := lines[|lines| - 1];
      if IsCounted(l) then init + [l] else init
  }

  /** Some counted line asks for more than its blanket line has left. */
  predicate HasExcess(c: seq<WizardLine>) {
    exists k :: 0 <= k < |c| && c[k].qty > c[k].remaining
  }

  /** One step of the "agree or conflict" accumulator. The accumulator starts at 0 and a
      conflict writes False, which compares equal to 0, so the value after a conflict is
      adopted again by the next step. */
  function FoldStep(s: Id, v: Id): (r: Id)
    ensures r == v || r == 0
    ensures s != 0 && s == v ==> r == s
  {
    if s == 0 then v
    else if s != v then 0
    else s
  }

  /** The four header accumulators after the given counted lines. */
  function HeaderOf(c: seq<WizardLine>): (h: Header)
    ensures c == [] ==> h == Header(0, 0, 0, 0)
    ensures c != [] ==> h.user == 0 || h.user == c[|c| - 1].salesman
    ensures c != [] ==> h.currency == 0 || h.currency == c[|c| - 1].currency
    ensures c != [] ==> h.pricelist == 0 || h.pricelist == c[|c| - 1].pricelist
    ensures c != [] ==> h.paymentTerm == 0 || h.paymentTerm == c[|c| - 1].paymentTerm
  {
    if c == [] then Header(0, 0, 0, 0)
    else
      var h := HeaderOf(c[..|c| - 1]);
      var l := c[|c| - 1];
      Header(FoldStep(h.user, l.salesman), FoldStep(h.currency, l.currency),
             FoldStep(h.pricelist, l.pricelist), FoldStep(h.paymentTerm, l.paymentTerm))
  }

  /** The order-line values built from one counted line. */
  function LineVals(l: WizardLine): OrderLineVals {
    OrderLineVals(l.product, l.productName, l.uom, l.sequence, l.priceUnit,
                  l.blanketLine, l.qty, l.taxes)
  }

  /** The distinct partners of the counted lines, in the order they first appear (the key
      order of the wizard's insertion-ordered dictionary). */
  function Customers(c: seq<WizardLine>): (ps: seq<Id>)
    ensures ps == [] <==> c == []
  {
    if c == [] then []
    else
      var ps := Customers(c[..|c| - 1]);
      var p := c[|c| - 1].partner;
      if p in ps then ps else ps + [p]
  }

  /** The order lines of one partner's group, in input order. */
  function GroupOf(c: seq<WizardLine>, p: Id): seq<OrderLineVals> {
    if c == [] then []
    else
      var g := GroupOf(c[..|c| - 1], p);
      var l := c[|c| - 1];
      if l.partner == p then g + [LineVals(l)] else g
  }

  /** The wizard's dictionary from partner to order lines after the counted lines `c`: each
      line's values are appended under its partner, a missing partner starting from the
      empty list. */
  function GroupsMap(c: seq<WizardLine>): map<Id, seq<OrderLineVals>> {
    if c == [] then map[]
    else
      var m := GroupsMap(c[..|c| - 1]);
      var l := c[|c| - 1];
      m[l.partner := (if l.partner in m then m[l.partner] else []) + [LineVals(l)]]
  }

  /** A dictionary holds exactly the customers of the counted lines `c`, each with its group. */
  ghost predicate GroupsMatch(m: map<Id, seq<OrderLineVals>>, c: seq<WizardLine>) {
    (forall p :: p in m <==> p in Customers(c)) &&
    (forall p :: p in m ==> m[p] == GroupOf(c, p))
  }

  /** One order-values record per partner of `ps`, each with that partner's group and
      all with the same header and origin. */
  function OrdersFor(c: seq<WizardLine>, h: Header, origin: string, ps: seq<Id>): (os: seq<OrderVals>)
    ensures |os| == |ps|
  {
    seq(|ps|, j requires 0 <= j < |ps| =>
      OrderVals(ps[j], origin, h.user, h.currency, h.pricelist, h.paymentTerm, GroupOf(c, ps[j])))
  }

  /** The order values of a successful run: one record per customer. */
  function BuildOrders(c: seq<WizardLine>, h: Header, origin: string): seq<OrderVals> {
    OrdersFor(c, h, origin, Customers(c))
  }

  /** The outcome of create_sale_order on the wizard's lines: the quantity check first,
      then the empty check, then the currency check. */
  function CreateSaleOrders(lines: seq<WizardLine>, origin: string): Result {
    var c := Counted(lines);
    if HasExcess(c) then Err(ExceedsRemaining)
    else if c == [] then Err(EmptyOrder)
    else
      var h := HeaderOf(c);
      if h.currency == 0 then Err(DifferentCurrencies)
      else Ok(BuildOrders(c, h, origin))
  }

  /** Visiting one more input line extends the counted lines by that line when it counts. */
  lemma CountedStep(lines: seq<WizardLine>, i: nat)
    requires i < |lines|
    ensures Counted(lines[..i + 1]) ==
            if IsCounted(lines[i]) then Counted(lines[..i]) + [lines[i]] else Counted(lines[..i])
  {
    assert lines[..i + 1][..i] == lines[..i];
  }

  /** One more counted line is an excess exactly when it asks for more than remains. */
  lemma ExcessSnoc(c: seq<WizardLine>, l: WizardLine)
    ensures HasExcess(c + [l]) <==> HasExcess(c) || l.qty > l.remaining
  {
    if HasExcess(c) {
      var k :| 0 <= k < |c| && c[k].qty > c[k].remaining;
      assert (c + [l])[k] == c[k];
    }
    if l.qty > l.remaining {
      assert (c + [l])[|c|] == l;
    }
    if HasExcess(c + [l]) {
      var k :| 0 <= k < |c| + 1 && (c + [l])[k].qty > (c + [l])[k].remaining;
      if k < |c| {
        assert (c + [l])[k] == c[k];
      }
    }
  }

  /** What one more counted line does to the header folds, the customers and the groups. */
  lemma SnocStep(c: seq<WizardLine>, l: WizardLine)
    ensures HeaderOf(c + [l]) == Header(FoldStep(HeaderOf(c).user, l.salesman),
                                        FoldStep(HeaderOf(c).currency, l.currency),
                                        FoldStep(HeaderOf(c).pricelist, l.pricelist),
                                        FoldStep(HeaderOf(c).paymentTerm, l.paymentTerm))
    ensures Customers(c + [l]) ==
            if l.partner in Customers(c) then Customers(c) else Customers(c) + [l.partner]
    ensures GroupsMap(c + [l]) ==
            GroupsMap(c)[l.partner := (if l.partner in GroupsMap(c) then GroupsMap(c)[l.partner] else []) + [LineVals(l)]]
    ensures forall p :: GroupOf(c + [l], p) ==
                        (if l.partner == p then GroupOf(c, p) + [LineVals(l)] else GroupOf(c, p))
  {
    assert (c + [l])[..|c|] == c;
    assert (c + [l])[|c|] == l;
  }

  /** Filtering commutes with concatenation. */
  lemma {:induction false} CountedAppend(a: seq<WizardLine>, b: seq<WizardLine>)
    ensures Counted(a + b) == Counted(a) + Counted(b)
    decreases |b|
  {
    if b == [] {
      assert a + b == a;
    } else {
      var b' := b[..|b| - 1];
      assert (a + b)[..|a + b| - 1] == a + b';
      assert b[..|b| - 1] == b';
      CountedAppend(a, b');
    }
  }

  /** A counted line over its remaining quantity in a prefix stays an excess for the
      whole input. */
  lemma ExcessPersists(lines: seq<WizardLine>, i: nat)
    requires i <= |lines|
    requires HasExcess(Counted(lines[..i]))
    ensures HasExcess(Counted(lines))
  {
    assert lines == lines[..i] + lines[i..];
    CountedAppend(lines[..i], lines[i..]);
    var c := Counted(lines[..i]);
    var k :| 0 <= k < |c| && c[k].qty > c[k].remaining;
    assert Counted(lines)[k] == c[k];
  }

  /** A partner that is not among the customers has an empty group. */
  lemma {:induction false} GroupOfAbsent(c: seq<WizardLine>, p: Id)
    requires p !in Customers(c)
    ensures GroupOf(c, p) == []
  {
    if c != [] {
      var init := c[..|c| - 1];
      assert p !in Customers(init) && c[|c| - 1].partner != p;
      GroupOfAbsent(init, p);
    }
  }

  /** The dictionary built line by line holds each customer's group, and nothing else. */
  lemma {:induction false} GroupsMapMatches(c: seq<WizardLine>)
    ensures GroupsMatch(GroupsMap(c), c)
  {
    if c != [] {
      var init, l := c[..|c| - 1], c[|c| - 1];
      assert c == init + [l];
      GroupsMapMatches(init);
      SnocStep(init, l);
      if l.partner !in GroupsMap(init) {
        GroupOfAbsent(init, l.partner);
      }
    }
  }

  /** The dictionary's keys are the customers. */
  lemma {:induction false} GroupsMapKeys(c: seq<WizardLine>, p: Id)
    ensures p in GroupsMap(c) <==> p in Customers(c)
  {
    if c != [] {
      GroupsMapKeys(c[..|c| - 1], p);
    }
  }
}

# Blanket order to sale orders: a Dafny model of the wizard's core

The sales blanket order module lets a user pick lines of a blanket order (a long-running
agreement on products, prices and total quantities) and turn them into draft sale orders.
The one piece of decision-making is `BlanketOrderWizard.create_sale_order`: it skips lines
whose quantity is zero, refuses a line that asks for more than its blanket line has left,
groups the order-line values by customer in first-appearance order, folds four header fields
(currency, pricelist, salesman, payment term) with an "agree or conflict" accumulator, refuses
an empty run or an unset currency, and produces one order-values record per customer.

The model has five files:

- `wizard_types.dfy` (module `WizardTypes`): the wizard line with its related fields
  resolved, the order-line values, the order values, the three errors and the result. Ids are
  naturals and 0 stands for an empty many-to-one (False). Quantities and prices are `real`,
  compared exactly.
- `sale_order_spec.dfy` (module `SaleOrderSpec`): the functional specification. `Counted` is
  the filter, `FoldStep`/`HeaderOf` the accumulators, `Customers` the partners in
  first-appearance order, `GroupOf` one partner's order lines, `GroupsMap` the dictionary the
  loop builds, and `CreateSaleOrders` the whole outcome.
- `create_sale_orders.dfy` (module `BlanketOrderWizard`): the method `CreateSaleOrder`. Its
  first loop (`ScanLines`) updates an insertion-ordered dictionary (a `map` plus its key
  order) and four accumulators line by line. Its second loop (`OrderValues`) appends one
  record per customer. The method is proved equal to `CreateSaleOrders`.
- `sale_order_properties.dfy` (module `SaleOrderProperties`): the properties the code
  promises, proved about the specification.
- `currency_agreement.dfy` (module `CurrencyAgreement`): the finding below.

The accumulator is modelled as the code behaves. It starts at 0 and a conflict writes
False, and False equals 0, so the next line's value is adopted again. `FoldStep(s, v)` is `v`
when `s == 0`, `0` when `s != v`, and `s` otherwise.

## Model

| member | source | states |
|---|---|---|
| BlanketOrderWizard.CreateSaleOrder | sales_blanket_order/wizard/create_sale_orders.py:23-84 | the method's result is exactly `CreateSaleOrders`: the quantity error, then the empty error, then the currency error, otherwise one order-values record per customer |
| BlanketOrderWizard.ScanLines | sales_blanket_order/wizard/create_sale_orders.py:24-61 | the loop stops with failure exactly when some counted line exceeds its remaining quantity; otherwise the dictionary holds each customer's group and nothing else, its key order is the customers' order, and the four accumulators are the folds over the counted lines |
| BlanketOrderWizard.OrderValues | sales_blanket_order/wizard/create_sale_orders.py:70-80 | one record per customer in dictionary order, each with that customer's group, the blanket order's name as origin and the shared header |
| BlanketOrderWizard.NoGroupsWhenEmpty | sales_blanket_order/wizard/create_sale_orders.py:63-64 | the dictionary is empty exactly when no line was counted |
| SaleOrderSpec.FoldStep | sales_blanket_order/wizard/create_sale_orders.py:43-61 | one accumulator step yields the line's value or 0, and an agreeing non-zero value stays |
| SaleOrderSpec.HeaderOf | sales_blanket_order/wizard/create_sale_orders.py:25-61 | all four accumulators are 0 before any line; after the counted lines, each equals the last counted line's value or 0 |
| SaleOrderSpec.GroupsMapMatches | sales_blanket_order/wizard/create_sale_orders.py:33-41 | the dictionary built by appending each line's values under its partner has the customers as keys and maps each to exactly its group |
| SaleOrderSpec.CountedAppend | sales_blanket_order/wizard/create_sale_orders.py:29 | the filter commutes with concatenation of line lists |
| SaleOrderProperties.CountedMembers | sales_blanket_order/wizard/create_sale_orders.py:29 | a line survives the filter exactly when it is an input line with non-zero quantity; negative quantities are kept |
| SaleOrderProperties.CountedEmpty | sales_blanket_order/wizard/create_sale_orders.py:29 | no line survives exactly when every quantity is zero |
| SaleOrderProperties.ZeroQuantityIgnored | sales_blanket_order/wizard/create_sale_orders.py:29 | inserting a zero-quantity line anywhere leaves the whole outcome unchanged: no order line, no header effect, no quantity check |
| SaleOrderProperties.NegativeQuantityCounted | sales_blanket_order/wizard/create_sale_orders.py:29 | a line with negative quantity is counted in place |
| SaleOrderProperties.ExcessInInput | sales_blanket_order/wizard/create_sale_orders.py:29-32 | some counted line is over its remaining quantity exactly when some input line with non-zero quantity is |
| SaleOrderProperties.ExceedsRemainingWhen | sales_blanket_order/wizard/create_sale_orders.py:29-32 | the outcome is the quantity error exactly when some non-zero line asks for more than remains, whatever else the lines hold, so it takes precedence over the other two errors |
| SaleOrderProperties.EmptyOrderWhen | sales_blanket_order/wizard/create_sale_orders.py:63-64 | the outcome is the empty-order error exactly when every quantity is zero, so it takes precedence over the currency error |
| SaleOrderProperties.DifferentCurrenciesWhen | sales_blanket_order/wizard/create_sale_orders.py:66-68 | the outcome is the currency error exactly when the quantity check passes, some line is counted and the currency accumulator ends at 0 |
| SaleOrderProperties.FreeHeadersNeverRaise | sales_blanket_order/wizard/create_sale_orders.py:48-61 | changing only pricelists, salesmen and payment terms changes neither whether the run fails nor which error it raises |
| SaleOrderProperties.UniformCurrencyFold | sales_blanket_order/wizard/create_sale_orders.py:43-46 | when all counted lines carry the same currency, the currency fold yields it |
| SaleOrderProperties.UniformCurrencySucceeds | sales_blanket_order/wizard/create_sale_orders.py:43-68 | if all counted lines share one non-zero currency and none exceeds its remaining quantity, the run succeeds and every order carries that currency |
| SaleOrderProperties.CustomersDistinct | sales_blanket_order/wizard/create_sale_orders.py:71 | the customers iterated over are pairwise distinct |
| SaleOrderProperties.CustomersCover | sales_blanket_order/wizard/create_sale_orders.py:41 | a partner is a customer exactly when some counted line belongs to it |
| SaleOrderProperties.CustomersInFirstAppearanceOrder | sales_blanket_order/wizard/create_sale_orders.py:71 | customers come in the order in which each first appears among the counted lines |
| SaleOrderProperties.GroupOfMembers | sales_blanket_order/wizard/create_sale_orders.py:41 | a group holds exactly the order-line values of the counted lines of its partner |
| SaleOrderProperties.CustomerGroupNonEmpty | sales_blanket_order/wizard/create_sale_orders.py:79 | every customer's order lines are non-empty |
| SaleOrderProperties.OrderLinesTotal | sales_blanket_order/wizard/create_sale_orders.py:33-41 | on success the order lines across all orders are exactly as many as the counted lines: none dropped, none duplicated |
| SaleOrderProperties.SuccessShape | sales_blanket_order/wizard/create_sale_orders.py:70-80 | on success there is one order per distinct partner, in first-appearance order, every counted partner has one, each order's lines are exactly its partner's non-empty group, all share origin and header, the currency is the last counted line's and non-zero, and the other header fields are the last counted line's or 0 |
| SaleOrderProperties.OrderLinesFromCountedLines | sales_blanket_order/wizard/create_sale_orders.py:33-40 | on success each order line comes from a counted line of that order's partner, with its quantity, unit price, sequence, product, name, unit, taxes and blanket line |
| SaleOrderProperties.CountedLinePlaced | sales_blanket_order/wizard/create_sale_orders.py:41 | on success each counted line's values sit in the order of its own partner |
| CurrencyAgreement.AgreeFoldMeans | sales_blanket_order/wizard/create_sale_orders.py:43-46 | the corrected fold agrees exactly when every counted line has the first line's value, and is a conflict otherwise |
| CurrencyAgreement.IntendedCurrencyCheck | sales_blanket_order/wizard/create_sale_orders.py:66-68 | with the corrected fold the currency check passes exactly when all counted lines share one non-zero currency; orders then carry it, and a non-False pricelist means all lines agree on it |
| CurrencyAgreement.MixedCurrenciesAccepted | sales_blanket_order/wizard/create_sale_orders.py:43-46 | as written, lines in currencies 1, 2, 2 pass the currency check and give an order in currency 2; the corrected fold refuses them |

## Left out

- Creating the records through the ORM, the discount onchange on their lines and the collected ids (create_sale_orders.py:81-84): persistence in the host framework. The model stops at the list of order values that would be passed to create, in creation order.
- The returned window action (create_sale_orders.py:85-93): user-interface plumbing.
- The translated message texts: the three errors are distinct constructors.
- Field declarations and the related, many-to-one and many-to-many machinery (create_sale_orders.py:13-21, 100-110): the resolved values are plain inputs. The wizard's `sale_order_id` and the line's `date_scheduled` are not read by the operation and are not modelled.
- Which record each input comes from: the code reads the currency from the blanket line's order (line 44), not from the wizard line's related currency field (line 108), and reads price and sequence from the blanket line. The model has one input field per value the code reads.
- The wizard record itself: the operation only reads its lines and its blanket order's name, so these are the method's parameters. The name is a string; an empty name is not distinguished from False.
- The `(0, 0, vals)` and `(6, 0, ids)` command tuples: plain records and a sequence of tax ids.
- Floating point: quantities are only compared, never computed on, so they are exact reals. `float_is_zero` is imported but not used.
- The host's raising of exceptions and transaction rollback: an error is a returned value, and nothing is created before the checks.

## Findings

| source | as written | input that shows it | evidently intended | confidence | as-written member | corrected member |
|---|---|---|---|---|---|---|
| sales_blanket_order/wizard/create_sale_orders.py:43-46 | a conflict sets the currency accumulator to False, which equals the initial 0, so the next line's currency is adopted again and the check at lines 66-68 only sees a conflict on the last counted line | three counted lines of one customer in currencies 1, 2, 2: no error is raised and one order is created in currency 2, holding a line priced in currency 1 | any disagreement among the counted lines' currencies raises the "different currencies" error | high; not executed | CurrencyAgreement.MixedCurrenciesAccepted | CurrencyAgreement.IntendedCurrencyCheck |

The same re-adoption happens for pricelist, salesman and payment term (lines 48-61). There
it does not raise: lines with pricelists 1, 2, 2 give pricelist 2 instead of False. The
corrected fold treats all four fields alike (`CurrencyAgreement.IntendedHeader`).
`CreateSaleOrdersIntended` is the outcome with the corrected folds. The rest of the model
keeps the behaviour as written, because it models the code.

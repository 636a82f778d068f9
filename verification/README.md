# Triple discount on sale order lines

A Dafny model of the `sale_triple_discount` extension to the sale order line.
The extension adds two more discount percentages, `discount2` and `discount3`,
to the line's own `discount`. It also adds a discounting type, `additive` or
`multiplicative`, that says how the three are combined into one effective
discount.

- `discount.dfy`, module `TripleDiscount`: the combiner. A stored field is
  `Unset` or `Set(p)`, and an unset field counts as 0. `Percents` lists the
  three fields in the order of `_discount_fields`. The additive policy sums
  and clamps to [0, 100]. The multiplicative policy is
  `100 - 100 * (1 - d1/100)(1 - d2/100)(1 - d3/100)`. It is given in closed
  form by `MultiplicativeFormula` and computed by the method
  `MultiplicativeDiscount`, which folds the retention factors in field order
  as the line does. Any other discounting type is an error. Percentages are
  exact `real`s.
- `order_line.dfy`, module `SaleOrderLine`: the record cache as a class
  `SaleOrderLines` holding a map from line id to line, plus the amounts the
  host computes.
  - `Preprocess` saves each line's three fields in a snapshot. It then gives
    the line its working value: `discount` = combined discount, `discount2` =
    `discount3` = 0.
  - `Postprocess` writes the snapshot back.
  - `ComputeAmount` brackets the host's amount computation with the two.
  - `Valid` is the check constraint `discount2 <= 100`, `discount3 <= 100`,
    kept as a state invariant.
  - The ghost functions `Working`, `PreprocessSnapshot` and `Restored` give
    the table and the snapshot that these methods produce.
  - `PrepareInvoiceLine` adds the two raw fields to the host's invoice-line
    mapping.

A recordset is the sequence of line ids it iterates over. An id may occur
more than once. When it does, the snapshot keeps the working value that the
first visit wrote, and the round trip does not restore that line
(`RepeatedLineKeepsWorkingValue`, with `RepeatedLineNotRestored` as an
instance). `RoundTrip` and `ComputeAmount` therefore state
exact restoration for recordsets without repeated lines.

Two behaviours of the code that the model keeps as written:

- The multiplicative result is not clamped. A negative `discount2` can give a
  negative combined discount: with `discount` and `discount3` at 0 the result
  is `discount2` itself (`MultiplicativeCanBeNegative`).
- An unknown discounting type met during preprocess stops the loop. The lines
  visited before it keep their working values, because the code restores
  nothing on that path.

## Model

| member | source | states |
|---|---|---|
| `TripleDiscount.PercentOf` | sale_triple_discount/models/sale_order_line.py:48 | the value a field contributes to the sum and product: its percentage, or 0 when unset (`self[x] or 0.0`) |
| `TripleDiscount.Percents` | sale_triple_discount/models/sale_order_line.py:63-65 | the three fields in the order `discount`, `discount2`, `discount3` that both policies read |
| `TripleDiscount.UnsetCountsAsZero` | sale_triple_discount/models/sale_order_line.py:57 | an unset field gives the same combined discount as a field holding 0, under either policy and for each of the three fields |
| `TripleDiscount.AdditiveDiscount` | sale_triple_discount/models/sale_order_line.py:46-53 | the additive discount is the sum of the three fields (unset as 0), clamped to [0, 100] |
| `TripleDiscount.AdditiveCases` | sale_triple_discount/models/sale_order_line.py:49-53 | a sum of at most 0 gives 0, a sum of at least 100 gives 100, a sum in between gives the sum |
| `TripleDiscount.MultiplicativeDiscount` | sale_triple_discount/models/sale_order_line.py:55-61 | the loop that multiplies the retention factors in field order yields `100 - 100·(1-d1/100)(1-d2/100)(1-d3/100)` |
| `TripleDiscount.MultiplicativeOfNothing` | sale_triple_discount/models/sale_order_line.py:55-61 | with all three fields 0 or unset, the multiplicative discount is 0 |
| `TripleDiscount.MultiplicativeWithinBounds` | sale_triple_discount/models/sale_order_line.py:55-61 | with every field in [0, 100], the multiplicative discount is in [0, 100] |
| `TripleDiscount.MultiplicativeAtMostHundred` | sale_triple_discount/models/sale_order_line.py:74-85 | when every field is at most 100, as the check constraints demand of `discount2` and `discount3`, the multiplicative discount is at most 100 |
| `TripleDiscount.MultiplicativeCanBeNegative` | sale_triple_discount/models/sale_order_line.py:55-61 | without a lower bound on the fields, the multiplicative discount can be negative (0, -100, unset gives -100) |
| `TripleDiscount.FinalDiscount` | sale_triple_discount/models/sale_order_line.py:34-44 | a value exactly when the type is `additive` or `multiplicative`, otherwise the unknown-type error carrying the type; an additive value lies in [0, 100] |
| `TripleDiscount.FinalDiscountStable` | sale_triple_discount/models/sale_order_line.py:111-112 | combining `(f, 0, 0)`, where `f` is a line's combined discount, gives `f` again under the line's type |
| `TripleDiscount.SampleDiscounts` | sale_triple_discount/models/sale_order_line.py:46-61 | additive (40,40,40) = 100, (10,20,5) = 35, (-5,unset,0) = 0; multiplicative (50,50,0) = 75, (10,10,10) = 27.1 |
| `SaleOrderLine.WorkingLine` | sale_triple_discount/models/sale_order_line.py:111-114 | a prepared line keeps its type, holds its combined discount in `discount` and recombines to it, has 0 in `discount2` and `discount3`, and meets the check constraints |
| `SaleOrderLine.WorkingLineIdempotent` | sale_triple_discount/models/sale_order_line.py:100-102 | preparing a prepared line again changes nothing |
| `SaleOrderLine.WorkingIdempotent` | sale_triple_discount/models/sale_order_line.py:100-102 | preprocessing the same recordset a second time leaves the table as the first pass left it |
| `SaleOrderLine.Working` | sale_triple_discount/models/sale_order_line.py:104-115 | after preprocess every line of the recordset holds its combined discount in `discount` and has 0 in the secondary fields; every other line is unchanged |
| `SaleOrderLine.PreprocessSnapshot` | sale_triple_discount/models/sale_order_line.py:104-109 | the snapshot is keyed by exactly the recordset's lines and, with no line repeated, holds each line's original three fields |
| `SaleOrderLine.Restored` | sale_triple_discount/models/sale_order_line.py:117-123 | after postprocess each snapshotted line holds its snapshot entry and keeps its type; lines outside the snapshot are unchanged |
| `SaleOrderLine.RoundTrip` | sale_triple_discount/models/sale_order_line.py:68-72 | postprocess applied to preprocess's snapshot restores the whole table exactly, for a recordset without repeated lines |
| `SaleOrderLine.RepeatedLineKeepsWorkingValue` | sale_triple_discount/models/sale_order_line.py:106-114 | every line a recordset lists twice holds its working value, not its stored fields, after the round trip |
| `SaleOrderLine.RepeatedLineNotRestored` | sale_triple_discount/models/sale_order_line.py:106-109 | for example, the line (10, 20, unset), additive, listed twice comes back as (30, 0, 0) |
| `SaleOrderLine.WithinLimits` | sale_triple_discount/models/sale_order_line.py:74-85 | the check constraints `discount2 <= 100` and `discount3 <= 100`, passed by an unset field, with no lower bound |
| `SaleOrderLine.SaleOrderLines.Valid` | sale_triple_discount/models/sale_order_line.py:74-85 | every stored line meets the check constraints |
| `SaleOrderLine.SaleOrderLines.constructor` | sale_triple_discount/models/sale_order_line.py:74-85 | a table of lines that meet the check constraints starts out `Valid`, with no amounts computed |
| `SaleOrderLine.ValidBoundsMultiplicative` | sale_triple_discount/models/sale_order_line.py:74-85 | in a `Valid` table, a multiplicative line whose `discount` is at most 100 has a combined discount of at most 100 |
| `SaleOrderLine.SnapshotWithinLimits` | sale_triple_discount/models/sale_order_line.py:74-85 | a snapshot taken from lines that meet the check constraints meets them too |
| `SaleOrderLine.SaleOrderLines.Preprocess` | sale_triple_discount/models/sale_order_line.py:96-115 | succeeds exactly when every line's type is known, and then leaves the `Working` table and returns the `PreprocessSnapshot`; otherwise it fails at the first unknown type with the lines before it prepared; keeps the check constraints |
| `SaleOrderLine.SaleOrderLines.Postprocess` | sale_triple_discount/models/sale_order_line.py:117-123 | the table becomes `Restored(old table, snapshot)`; the check constraints hold afterwards when they held before and hold of the snapshot |
| `SaleOrderLine.SaleOrderLines.HostComputeAmount` | sale_triple_discount/models/sale_order_line.py:70 | each line of the recordset gets the amount the host computes from the line as it stands; other amounts are unchanged |
| `SaleOrderLine.SaleOrderLines.ComputeAmount` | sale_triple_discount/models/sale_order_line.py:67-72 | on success the host computed every amount from the line's working value, and the lines end as they began when none is repeated; on failure no amount changes and the lines before the first unknown type keep their working values; keeps the check constraints |
| `SaleOrderLine.PrepareInvoiceLine` | sale_triple_discount/models/sale_order_line.py:87-94 | the host's invoice mapping gains `discount2` and `discount3` equal to the line's stored fields; every other key keeps its value |
| `SaleOrderLine.InvoiceLineIgnoresMode` | sale_triple_discount/models/sale_order_line.py:87-94 | the invoice mapping is the same whatever the discounting type |

## Left out

- Float arithmetic and the `Discount` decimal precision: percentages are exact reals, so the 27.1 of (10,10,10) is exact here.
- Clearing the cached discount fields before and after the loops (`invalidate_recordset`) is not modelled. The record cache and the database are one map here. So a second preprocess reads the working values the first one wrote. The program differs here: it drops the cached fields before the loop, so a second preprocess snapshots the stored fields again. In the model, preprocess, preprocess, postprocess leaves the lines with their working values. In the program, the same sequence would restore the stored fields.
- The host's amount computation (`super()._compute_amount()`) is a per-line function of the line passed as a parameter. It writes an amount map. Taxes, totals and currencies are not modelled.
- `ensure_one`, the `api.depends` / `api.model` decorators and the line's other fields are not modelled. The line is reduced to its discounts and its discounting type.
- The text of the unknown-type error is not modelled. The template names `dic_type` while the values are keyed `disc_type`, so formatting that message fails in Python as well. The model keeps only the error and the offending type.
- A rollback of the transaction after an error is not modelled.
- Postprocess writes the snapshot back in the dict's insertion order. The model uses an arbitrary order. Each line is written once, so the order does not change the outcome.
- The database enforcement of the check constraints is not modelled. They appear only as the `Valid` invariant, and the host's own bounds on `discount` are not part of it.
- `_convert_to_tax_base_line_dict` (sale_triple_discount/models/sale_order_line.py:125-137) is not modelled. It passes the line to the tax engine with `FinalDiscount` of the line as its `discount`.

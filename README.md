# Price adjustment for Tehran Stock Exchange daily histories

`pricehistory` downloads the daily price history of Tehran Stock Exchange
instruments and adds a back-adjusted ("adjusted close") price series to it.
This project models the adjustment core in Dafny and proves properties of it.
The core has two parts:

- `PriceHistory._adjust_price` groups the flat list of daily records by
  instrument id, runs the adjuster on each group in first-seen order,
  concatenates the results and sorts them by `(id, date)`.
- `PriceHistory._adj_price_calculator` is the adjuster. It handles one
  instrument:
  - It sorts the records by date, most recent first.
  - For each record it writes the single-day return `ret = close / yesterday`
    and `cumprod`, the running product of the returns.
  - It computes `latest_close / cumprod` for every record and shifts that list
    one slot toward the past, so the most recent record gets its own close.
  - It writes the shifted list back as `adj_price` and returns the records
    sorted by date ascending.

Layout:

- `records.dfy` (`Records`): the daily record. Every numeric field is
  `Option<real>`, because the conversion yields `None` for a missing or
  unparseable value. `ret`, `cumprod` and `adjPrice` are `None` while the key
  is absent from the dict. Also here: Python truthiness of such a value, and
  `Base`, the record with the three adjuster-owned keys cleared. Permutation
  results are stated on `Base`.
- `ordering.dfy` (`Ordering`): the three sort keys, the lexicographic order
  of `str`, and a stable insertion sort that stands for Python's `sorted` and
  `list.sort`.
- `adjuster.dfy` (`Adjuster`): the adjuster.
  - It is an imperative method over a local array of records (the dicts it
    mutates) and an array of prices (the list it shifts in place).
  - Each of its loops is a separate method, proved against specification
    functions.
  - The arithmetic of the back adjustment is proved over the sequence of daily
    returns.
- `aggregator.dfy` (`Aggregator`): the grouping loop, as a key sequence (the
  dict's insertion order) plus a map. Also the loop over the groups and the
  final sort.

## Model

| member | source | states |
|---|---|---|
| Ordering.Sort | pricehistory/pricehistory.py:156 | sorting returns the same records, each as many times as in the input |
| Ordering.SortSorted | pricehistory/pricehistory.py:193 | the sort result is ordered by its key: date ascending, date descending, or `(id, date)` with `str` order on the id |
| Ordering.SortAtEnd | pricehistory/pricehistory.py:193 | a record that sorts after every other record ends up last |
| Adjuster.YesterdayOrEpsilon | pricehistory/pricehistory.py:166 | the divisor substituted for the previous close is never zero, so the return is always defined |
| Adjuster.RetMeaning | pricehistory/pricehistory.py:165-167 | the return times the divisor gives the close (or 0.0); the return is zero exactly when the close is missing or zero; a missing or zero previous close multiplies the close by 10^9 |
| Adjuster.AdjPriceCalculator | pricehistory/pricehistory.py:142-195 | the adjuster returns the annotated group sorted by date ascending; it has as many records as the input, and they are the input records with only `ret`, `cumprod` and `adj_price` changed |
| Adjuster.ComputeReturns | pricehistory/pricehistory.py:162-169 | after the first pass, the record at descending position k carries its own return and the product of the returns at positions 0..k |
| Adjuster.ComputeAdjPrices | pricehistory/pricehistory.py:175-180 | each unshifted price is the anchor over that record's cumulative product, or 0.0 where that product is zero |
| Adjuster.Shift | pricehistory/pricehistory.py:182-186 | after the in-place shift, slot 0 holds the anchor and every other slot holds the value of the slot before it |
| Adjuster.AssignBack | pricehistory/pricehistory.py:188-190 | each record gets the price at its own position, and nothing else in it changes |
| Adjuster.AdjustedGroupShape | pricehistory/pricehistory.py:156-193 | the adjusted group has the input's length, is sorted by date ascending, and is a permutation of the input up to the three adjuster-owned keys |
| Adjuster.RunProdZero | pricehistory/pricehistory.py:168-169 | the running product is zero exactly when one of the returns multiplied into it is zero |
| Adjuster.ZeroCloseZeroesThePast | pricehistory/pricehistory.py:165-180 | a record with a missing or zero close forces an adjusted price of 0.0 on every older record |
| Adjuster.ConsecutiveRatio | pricehistory/pricehistory.py:171-186 | while the product is non-zero, an adjusted price times the return of the next more recent day gives that day's adjusted price |
| Adjuster.RunProdSplit | pricehistory/pricehistory.py:168 | the running product up to j is the product up to i times the returns between i and j |
| Adjuster.AdjPriceTimesRunProd | pricehistory/pricehistory.py:171-186 | while the product is non-zero, the adjusted price times the running product gives back the anchor close |
| Adjuster.AdjustedRatio | pricehistory/pricehistory.py:171-186 | the ratio of any two adjusted prices is the compounded return of the days from the older one's successor up to the more recent one |
| Adjuster.AnnotatedRatio | pricehistory/pricehistory.py:162-190 | in the annotated records, each record carries its own return and cumulative product, and the ratio property holds between any two `adj_price` values |
| Adjuster.LatestIsUnique | pricehistory/pricehistory.py:156-160 | with distinct dates, the first record of the descending sort is strictly more recent than every other record |
| Adjuster.AnchorGoesLast | pricehistory/pricehistory.py:193-195 | with distinct dates, the ascending sort puts the annotated anchor record last |
| Adjuster.AnchorIsLatest | pricehistory/pricehistory.py:156-195 | with distinct dates, the last output record is the most recent one, and its `adj_price` is its own close (0.0 if the close is missing or zero) |
| Adjuster.NoDiscontinuityExample | pricehistory/pricehistory.py:142-195 | two days, closes 50 then 100, each equal to its previous close: returns 1, cumulative products 1, and both adjusted prices 100 |
| Adjuster.DiscontinuityExample | pricehistory/pricehistory.py:142-195 | the same two days, but the newer previous close is 25: the newer return is 4, both cumulative products are 4, and the older adjusted price becomes 25 while the newer stays 100 |
| Aggregator.Filter | pricehistory/pricehistory.py:123-128 | an id's group holds only input records of that id |
| Aggregator.GroupIds | pricehistory/pricehistory.py:123-128 | the dict's keys appear once each, in first-seen order, and each has a non-empty group |
| Aggregator.GroupIdsCover | pricehistory/pricehistory.py:123-128 | an id is a key exactly when some input record carries it |
| Aggregator.FilterCounts | pricehistory/pricehistory.py:123-128 | an id's group holds every input record of that id, as many times as the input does, and nothing else |
| Aggregator.Group | pricehistory/pricehistory.py:123-128 | the grouping loop produces exactly those keys, in that order, and maps each key to its group in input order |
| Aggregator.AdjustGroups | pricehistory/pricehistory.py:130-134 | the loop over the groups concatenates the adjuster's result for each key, in key order |
| Aggregator.AdjustPrice | pricehistory/pricehistory.py:113-140 | `_adjust_price`: empty input gives empty output; otherwise the result is the adjusted groups sorted by `(id, date)`, with the input's length and records (up to the adjuster-owned keys), and every record was adjusted together with exactly its own instrument's records |
| Aggregator.AdjustedAllPreservesRecords | pricehistory/pricehistory.py:130-138 | the final result is sorted by `(id, date)`, has the input's length, and is a permutation of the input up to the three adjuster-owned keys |
| Aggregator.AdjustedAllWithinGroup | pricehistory/pricehistory.py:123-134 | no group mixes instruments: each output record comes from adjusting exactly the input records of its own id |

## Left out

- The rest of the package is not part of this model: `get`, the firm list lookup, the per-symbol download and its thread pool, HTTP, the CSV and JSON output, the symbol-name filter, and the float parsing done by `to_numeric`.
- Floating point: returns, products and quotients are exact reals. IEEE-754 rounding, overflow to infinity, underflow to zero and NaN are not modelled. For example, a product that underflows to 0.0 in the source is non-zero here.
- The dates are natural numbers compared numerically. The source keeps the provider's `dEven` value as is. Comparing such values as digit strings of equal length gives the same order.
- A record whose `id` or `date` is `None` is not modelled. Python raises `TypeError` when sorting such a record next to a string or number.
- Adjuster.AdjPriceCalculator: requires a non-empty group. In the source, an empty group would raise `IndexError` at `records_desc[0]`, but `_adjust_price` only ever passes non-empty groups.
- The source mutates the caller's record dicts in place. The model copies the records into a local array and mutates that, so aliasing between the input list and the returned records is not modelled.
- Ordering.Sort: stability is built into the definition (ties keep the earlier input record first), but there is no separate lemma stating it.
- Adjuster.AnchorIsLatest: proved only for groups with distinct dates. When two records share the most recent date, the stable ascending sort does not put the anchor last.
- Adjuster.ConsecutiveRatio: holds only while the running product is non-zero. Once a zero close is reached, Adjuster.ZeroCloseZeroesThePast gives the values instead.

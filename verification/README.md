# Quotation form — a Dafny model

This project models the logic of the M&N quotation form (`src/App.tsx`). The form is a
single React component. It puts a login gate in front of a quotation editor that holds:

- the customer, the fee fields and the texts of the printed sheet;
- a list of line items (description, quantity, price per unit);
- totals recomputed after every change (subtotal, taxable base, tax, total cost, final price);
- a "CMS" of saved quotations, kept newest first in browser storage.

All form values are text, as in the source. Amounts are read the way `parseFloat(s) || 0`
reads them: a decimal prefix after leading white space, or 0 when there is none. Amounts are
modelled as exact reals.

Modules, in dependency order:

- `Optional` — `Option`, for a value that may be absent (a storage read that failed, a
  failed lookup, text that holds no number).
- `Lists` — filtering a sequence by a key (`Array.prototype.filter` with an id test), with
  unique-key lemmas.
- `Numeric` — the decimal reader `Parse`/`Num`, decimal printing of naturals, and the
  six-digit quote number `floor(100000 + r * 900000)`. `Parse` is a left-to-right scan over
  the stages of the number: leading white space, sign and whole digits, then the fraction.
- `Quote` — the item and form records, setting one field, the item-list editor (edit by id,
  append, remove by id), and the default form.
- `Totals` — the totals of a form. The source's `reduce` is `FoldLines`, proved equal to the
  reference sum `SumLines`.
- `Store` — saving, loading and deleting saved quotes, and the "newest first" invariant.
- `Session` — the two-entry allow-list and its lookup.
- `Preview` — the export file name and the blank rows padding the printed table.
- `App` — class `QuoteApp`, one field per state cell of the component and one method per event
  handler. The totals cell is only ever written by the effect that recomputes it from
  `formData`, so the class reads it as `ShownTotals()`, the totals of the current form.

Nondeterministic inputs are method parameters:

- `Math.random()` becomes a real `r` in `[0, 1)` for the quote number, and an item id for the
  new rows;
- `Date.now()` becomes the integer `now`;
- `new Date().toISOString()` becomes the string `date`.

The storage read at start-up is an `Option` (`None` when missing or unreadable). Each storage
write is the field `persisted`.

## Model

| member | source | states |
|---|---|---|
| Quote.SetItemField | src/App.tsx:223 | `{ ...item, [field]: value }` sets that field to the value; the id and the other two fields are unchanged |
| Lists.Without | src/App.tsx:238 | the `filter(x => x.id !== id)` of rows (and of saved quotes, line 170): no longer, every kept element was there and has another key, every element with another key is kept; WithoutAppend, WithoutAbsent and WithoutUnique fix the order and the exact result |
| Quote.SetField | src/App.tsx:204-207 | `{ ...prev, [name]: value }` sets the named field; every other field and the item list are unchanged |
| Quote.UpdateItem | src/App.tsx:220-225 | same length and order; rows carrying the id get the field set, every other row is kept as is |
| Quote.UpdateItemAbsent | src/App.tsx:220-225 | editing an id that no row carries leaves the list unchanged |
| Quote.UpdateItemAt | src/App.tsx:220-225 | with unique ids, editing the id of row `j` changes row `j` alone |
| Quote.UpdateItemKeepsWellFormed | src/App.tsx:220-225 | editing a row keeps at least one row and unique ids |
| Quote.AddItem | src/App.tsx:227-232 | `[...items, createNewItem()]`: the list grows by one; the old rows are an unchanged prefix; the new last row has description `''`, quantity `'1'` and price `''` |
| Quote.CreateNewItem | src/App.tsx:61-66 | `createNewItem()` with the random id as a parameter: what it builds is stated by the last row of `Quote.AddItem` (description `''`, quantity `'1'`, price `''`) |
| Quote.AddItemKeepsWellFormed | src/App.tsx:227-232 | appending a row with a fresh id keeps the list well formed |
| Quote.RemoveItem | src/App.tsx:234-241 | a list of at most one row is left unchanged; otherwise every row with that id is filtered out |
| Quote.RemoveItemKeepsWellFormed | src/App.tsx:234-241 | with unique ids the list never becomes empty; an absent id is a no-op; a present id (with more than one row) removes exactly that row, keeping the others in order |
| Quote.RemoveItemNeedsUniqueIds | src/App.tsx:234-241 | without unique ids the guard is not enough: two rows sharing an id are both removed, leaving none |
| Quote.InitialFormData | src/App.tsx:68-91 | the defaults: one fresh row, the given quote number, and every amount field `'0'` |
| Numeric.NatToString | src/App.tsx:79 | `toString()` of a natural: non-empty, all digits, no leading zero unless it is 0 |
| Numeric.Parse | src/App.tsx:177-178 | the `parseFloat` part of the amount reading (also lines 182-187): a scan of leading white space, one optional sign, whole digits and a fraction, stopping at the first character that does not fit. Its value is stated by ParseSkipsSpace (leading white space), ParseSign (one sign before a text that opens with neither white space nor a sign), ParseDecimal and ParseInteger (text that opens a number) and ParseBadStart, ParseSignNoNumber, ParsePointNoDigit, ParseSecondSign and ParseNoDigits (text that does not, which gives no number even when digits come later) |
| Numeric.Num | src/App.tsx:182-187 | `parseFloat(s)` with 0 as the fallback: the parsed value, or 0 when there is none; ParseNatToString, ParseNoDigits and ParseEmpty state its values |
| Numeric.DigitsFromSnoc | src/App.tsx:79 | appending a digit multiplies the value read so far by ten and adds the digit |
| Numeric.DigitsValueOfNatToString | src/App.tsx:79 | the digits printed for `n` read back as `n` |
| Numeric.ParseWholeDigits | src/App.tsx:177-178 | reading a run of digits in the whole-number stage accumulates their decimal value |
| Numeric.ParseDigits | src/App.tsx:177-178 | `parseFloat` of a digit string is its decimal value |
| Numeric.ParseNatToString | src/App.tsx:182-187 | printing a natural and reading it back gives the same number, both through `Parse` and through `Num` |
| Numeric.ParseEmpty | src/App.tsx:177-178 | the empty text does not parse and counts as 0 |
| Numeric.ParseFromNoDigits | src/App.tsx:177-178 | from any stage that has read no digit yet, a text without digits gives no number |
| Numeric.ParseNoDigits | src/App.tsx:177-178 | a text with no digit at all does not parse and counts as 0 |
| Numeric.ShiftIsDivision | src/App.tsx:177-178 | moving a value `n` decimal places right is dividing it by `10^n` |
| Numeric.ParseWholeThen | src/App.tsx:177-178 | whole digits followed by any text: their value is accumulated and the reading carries on with the text |
| Numeric.ParseFractionThen | src/App.tsx:177-178 | fraction digits followed by any text: each digit is one more decimal place, and the reading carries on with the text |
| Numeric.ParseSkipsSpace | src/App.tsx:177-178 | leading white space never changes the number read |
| Numeric.ParseFromNegative | src/App.tsx:177-178 | after a '-' sign, the reading is the unsigned reading negated |
| Numeric.ParseSign | src/App.tsx:177-178 | for a text `t` that does not open with white space or a sign, `"-" + t` reads as the reading of `t` negated and `"+" + t` as the reading of `t` ("- 5" falls outside, see ParseSignNoNumber) |
| Numeric.ParseSecondSign | src/App.tsx:177-178 | two signs in a row ("+-5") give no number |
| Numeric.ParseStartsWhole | src/App.tsx:177-178 | text that opens with a digit or the point is read as an unsigned number from its first character |
| Numeric.ParseInteger | src/App.tsx:177-178 | digits followed by text that is neither a digit nor a point read as the digits' value ("12abc" is 12) |
| Numeric.ParseNoNumberAfterSign | src/App.tsx:177-178 | past the sign, text opening with neither a digit nor a point followed by a digit gives no number, whatever digits come later |
| Numeric.ParseBadStart | src/App.tsx:177-178 | text opening with a character that is not a digit, point, white space or sign gives no number ("$500") |
| Numeric.ParseSignNoNumber | src/App.tsx:177-178 | a sign not followed by a digit or by a point and a digit gives no number ("- 5") |
| Numeric.ParsePointNoDigit | src/App.tsx:177-178 | a point not followed by a digit gives no number (".x5") |
| Numeric.ParseNoNumberExamples | src/App.tsx:182-187 | "$500", "- 5" and ".x5" give no number and so count as 0 |
| Numeric.ParseFractionEnd | src/App.tsx:177-178 | the fraction ends at the first character that is not a digit |
| Numeric.ParsePointThen | src/App.tsx:177-178 | from the point on, the fraction digits are read and the text after them is ignored |
| Numeric.ParseWholeThenPoint | src/App.tsx:177-178 | whole digits, the point and fraction digits end in the fraction stage holding both runs' values |
| Numeric.ParseDecimalStages | src/App.tsx:177-178 | a decimal `w.f` followed by a tail that does not start with a digit ends in that fraction stage |
| Numeric.ParseDecimal | src/App.tsx:177-178 | `w.f` followed by a tail that does not start with a digit reads as `w + f / 10^\|f\|` when either run is non-empty ("12.50", "5.", ".5", "2.5kg") |
| Numeric.ParsePriceExample | src/App.tsx:177-178 | "12.50" reads as 12.5 |
| Numeric.ParseUnitExample | src/App.tsx:177-178 | "3.25x" reads as 3.25: the unit is ignored |
| Numeric.ParseSignedExample | src/App.tsx:177-178 | " -3.25x" reads as -3.25 |
| Numeric.ParsePrefixExamples | src/App.tsx:177-178 | "12abc" reads as 12, and "+-5" is no number, so it counts as 0 |
| Numeric.QuoteSerial | src/App.tsx:79 | `floor(100000 + r * 900000)` lies in 100000..999999 for `r` in `[0, 1)` |
| Numeric.NatToStringLength | src/App.tsx:79 | a natural between `10^(k-1)` and `10^k` prints as `k` digits |
| Numeric.FreshQuoteNumber | src/App.tsx:246 | the quote number is six digits, does not start with 0, and reads back as a number in 100000..999999 |
| Totals.FoldLinesIsSum | src/App.tsx:176-180 | the source's left fold of `qty * price` from an accumulator equals the accumulator plus the in-order sum of the line amounts |
| Totals.LineAmount | src/App.tsx:177-179 | `qty * price` with both read through `Num`; NonNumericLineAddsNothing states that a row with a digit-free quantity or price adds 0 |
| Totals.FoldLines | src/App.tsx:176-180 | the source's `reduce` from an accumulator, row by row in list order; FoldLinesIsSum equates it with the reference sum |
| Totals.ComputeTotals | src/App.tsx:182-202 | taxable adds labor, cutting, transport and other fees to the subtotal; tax is `taxable * rate / 100`; total cost is taxable plus tax; final price is `taxable * (100 + rate) / 100 - discount`; every amount is the parsed value or 0 |
| Totals.SubtotalIsSum | src/App.tsx:176-180 | the subtotal is the in-order sum of `Num(quantity) * Num(pricePerUnit)` over the rows |
| Totals.SumLinesAppend | src/App.tsx:176-180 | the sum over a concatenation is the sum of the two sums |
| Totals.NonNumericLineAddsNothing | src/App.tsx:177-179 | a row whose quantity or price holds no digit contributes nothing to the subtotal |
| Totals.SumLinesReplace | src/App.tsx:176-180 | replacing one row changes the sum by the difference of the two rows' amounts |
| Totals.AddItemKeepsTotals | src/App.tsx:227-232 | appending a default row moves no total |
| Totals.UpdateItemTotals | src/App.tsx:220-225 | with unique ids, editing row `j` moves the subtotal by that row's change alone |
| Totals.SumLinesSameAmounts | src/App.tsx:176-180 | two lists whose rows have the same amounts, row by row, have the same sum |
| Totals.DescriptionEditKeepsSum | src/App.tsx:220-225 | editing descriptions does not change the subtotal |
| Totals.DescriptionEditKeepsTotals | src/App.tsx:220-225 | editing descriptions moves no total |
| Totals.RemoveItemSum | src/App.tsx:234-241 | with unique ids and more than one row, removing row `j` takes exactly its amount off the sum |
| Totals.RemoveItemTotals | src/App.tsx:234-241 | with unique ids and more than one row, removing row `j` takes exactly its amount off the subtotal |
| Totals.TotalsReadOnlyAmounts | src/App.tsx:175-202 | two forms with the same sum of rows and the same six amount fields have the same totals |
| Totals.SetFieldKeepsAmounts | src/App.tsx:204-207 | setting a field that is not an amount keeps the rows and the six amount fields |
| Totals.TextFieldKeepsTotals | src/App.tsx:204-207 | editing a field that is not an amount moves no total |
| Totals.InitialFormCostsNothing | src/App.tsx:68-91 | the default form's totals are all zero |
| Totals.NumOfLiteral | src/App.tsx:182-187 | a text spelling a natural reads as that natural |
| Totals.WorkedExample | src/App.tsx:175-202 | rows 2 x 500 and 1 x 1000, fees 200/100/50, 10% tax, discount 100: totals 2000, 2350, 235, 2585, 2485 |
| Store.LoadAll | src/App.tsx:140-149 | start-up reads the stored collection when it is readable, and otherwise starts empty |
| Store.SaveQuote | src/App.tsx:151-162 | the snapshot goes in front and the old entries follow unchanged; it carries the id, the date and the total; loading it gives back the form |
| Store.LoadQuote | src/App.tsx:165 | `setFormData(quote)`: the snapshot's form, verbatim; `Store.SaveQuote` states that loading the snapshot just saved gives back the saved form |
| Store.DeleteQuote | src/App.tsx:169-173 | every kept entry was in the collection and has another id; every entry with another id is kept |
| Store.NewestFirstUnique | src/App.tsx:154 | in a newest-first collection no two entries share an id |
| Store.SaveKeepsNewestFirst | src/App.tsx:151-162 | saving under a clock reading later than every stored id keeps the collection newest first |
| Store.DeleteKeepsNewestFirst | src/App.tsx:169-173 | deleting keeps the collection newest first |
| Store.DeleteQuoteExact | src/App.tsx:169-173 | in a newest-first collection, deleting the id of entry `j` removes exactly that entry; the rest keep their content and order |
| Store.DeleteQuoteAbsent | src/App.tsx:169-173 | deleting an id no entry carries changes nothing |
| Store.DeleteUndoesSave | src/App.tsx:151-173 | deleting the entry just saved under a fresh id restores the old collection |
| Store.SaveDeleteKeepWellFormed | src/App.tsx:151-173 | saving a well-formed form and deleting keep every saved form well formed |
| Session.FindUser | src/App.tsx:119 | the lookup finds an entry exactly when some entry matches both username and password, and then returns that pair |
| Session.Users | src/App.tsx:114-117 | the two-entry allow-list, in source order |
| Session.Allowed | src/App.tsx:114-117 | the allow-list as a predicate; LoginSucceedsIff states that the lookup in `Users` succeeds exactly when it holds |
| Session.LoginSucceedsIff | src/App.tsx:114-119 | login succeeds exactly for ("Noel", "admin@userNOEL") and ("admin", "admin@user"), and yields the submitted username |
| Preview.ClientLabel | src/App.tsx:262 | `customerName \|\| 'Client'`: the name when it is non-empty, else "Client" |
| Preview.ExportFileName | src/App.tsx:262 | the name splits into "Quote-", the quote number, "-", the client label and ".jpg" |
| Preview.BlankRows | src/App.tsx:742 | `max(0, 15 - n)`: items plus padding fill at least 15 rows, exactly 15 whenever there is padding |
| App.QuoteApp.constructor | src/App.tsx:94-149 | logged out with empty login fields; the default form, whose totals are zero; saved quotes read from storage |
| App.QuoteApp.ShownTotals | src/App.tsx:102-108 | the `totals` cell, which only the effect on `formData` at lines 175-202 writes: the totals of the current form; the constructor states it is all zero at load, and InputChange, LogoLoaded, ItemChange and AddItem state when it stays the same |
| App.QuoteApp.EditLogin | src/App.tsx:300-321 | typing sets one login field and nothing else |
| App.QuoteApp.Login | src/App.tsx:112-132 | an allowed pair logs in as that user, clears the error and puts a non-empty company name on the form; any other pair shows the fixed error and changes nothing else |
| App.QuoteApp.Logout | src/App.tsx:134-138 | logged out, user and login fields cleared, the form unchanged |
| App.QuoteApp.SaveQuote | src/App.tsx:151-162 | the collection becomes `Store.SaveQuote` of the old one, the form, the clock reading, the date and the final price shown, and is written to storage; the form is unchanged |
| App.QuoteApp.ToggleSavedQuotes | src/App.tsx:355 | the saved-quote list flips between shown and hidden; nothing else changes |
| App.QuoteApp.LoadQuote | src/App.tsx:164-167 | the form becomes the snapshot's verbatim and the list closes; loading an entry of a well-formed collection gives a well-formed form |
| App.QuoteApp.DeleteQuote | src/App.tsx:169-173 | the collection loses the entries with that id and is written to storage; newest-first and well-formedness are kept |
| App.QuoteApp.InputChange | src/App.tsx:204-207 | one field of the form changes; editing a non-amount field keeps the totals |
| App.QuoteApp.LogoLoaded | src/App.tsx:213-215 | the logo reference becomes the loaded data text; the totals are unchanged |
| App.QuoteApp.ItemChange | src/App.tsx:220-225 | the items are edited by id; well-formedness is kept; editing a description keeps the totals |
| App.QuoteApp.AddItem | src/App.tsx:227-232 | a default row with the fresh id is appended; well-formedness and the totals are kept |
| App.QuoteApp.RemoveItem | src/App.tsx:234-241 | rows with the id are removed unless only one row is shown; a well-formed list stays well formed and loses exactly one row when the id is present |
| App.QuoteApp.Reset | src/App.tsx:243-248 | the form returns to the load-time defaults with a fresh quote number, and its rows are well formed |
| App.SaveThenLoad | src/App.tsx:151-167 | saving and then loading the new entry gives back the same form and totals; the entry carries the final price |

## Left out

- IEEE `parseFloat` in full: exponents, `Infinity`, `NaN` and Unicode white space beyond the
  ASCII space, tab, line feed, carriage return, vertical tab and form feed. `Parse` reads an
  optional sign, digits, an optional point and digits.
- Floating-point rounding. Amounts are exact reals, so the model has no binary rounding error.
- `formatCurrency` and `Intl.NumberFormat` (src/App.tsx:268-273). They are locale display only.
- The JSX markup and styling, `window.print`, the `html2canvas` rendering and the download link
  click. Of the export, only the file name is kept.
- The `FileReader` of the logo upload. `LogoLoaded` takes the data text the reader produces.
- `alert` after saving, and `console.error` on an unreadable store.
- `localStorage` and JSON. The collection is an in-memory sequence. A write is the field
  `persisted`; the start-up read is an `Option`.
- App.QuoteApp.SaveQuote and App.QuoteApp.DeleteQuote: every storage write is modelled as
  landing (`persisted == Some(savedQuotes)`). In the source `localStorage.setItem`
  (src/App.tsx:160, 172) runs after `setSavedQuotes(updated)` and can throw, for instance when
  the storage is full once snapshots carry uploaded logos as data URLs. The collection in
  memory then runs ahead of the stored one, and the save alert is skipped. The model has no
  failing write.
- The flattened saved quote. The source spreads the form fields and `id`, `date`, `total` into
  one object. `SavedQuote` keeps the form as a nested record beside its stamp, and loading
  restores the form without the three extra keys.
- The validity date `now + 30 days` (src/App.tsx:81). It is computed once at load, and the model
  takes it as a text parameter.
- Item ids drawn by `Math.random().toString(36)`. They are parameters. `App.QuoteApp.AddItem`
  requires the new id to be absent, which the source leaves to chance.
- App.QuoteApp.RemoveItem: the guard reads the list as of the last render. The source's updater
  sees the pending list (`prev`), which can differ when several updates are batched. The model
  handles events one at a time.
- The `id` key of `handleItemChange`. The editor only ever edits description, quantity and price,
  so `ItemField` has those three.
- React scheduling in general. The totals effect is modelled as having run after each change
  (`ShownTotals()`), not as a separate render that briefly shows stale totals.

# Invoice generator: the computation core, modelled in Dafny

The invoice generator reads a seller configuration and one invoice record,
checks them, prices the items, builds an EPC069-12 "SCT" payment-QR payload
and fills an HTML template with placeholder values. This project models the
part of `invoice/__main__.py` that computes rather than does I/O:

- `money`: cent rounding with ROUND_HALF_UP and two-decimal printing
  (module `Decimals`, file `money.dfy`).
- `esc`: HTML escaping by five successive replace-all passes (module
  `Html`, file `escape.dfy`).
- `epc_qr_payload`: the 11-field, newline-joined payment payload (module
  `Epc`, file `epc.dfy`).
- `render_html`: the in-order `{{key}}` substitution loop (module
  `Templates`, file `render.dfy`).
- The checks, running total, item rows and placeholder dataset of `main`
  (module `Invoice`, file `invoice.dfy`). `PriceItems` is the loop over the
  items. `Compute` runs the three checks in order around it and builds the
  dataset. `Generate` is what `main` then does to the outside world, as a
  list of effects.

Two support modules hold the Python text operations the core uses (`Text`,
file `text.dfy`: `str.replace`, `str.strip` and `str.join`, plus a `Split` on
newlines that the program never calls but that the payload round-trip lemma
uses to read the QR payload back) and
the `Option`/`Result` datatypes (`Optional`, file `option.dfy`).

A Python `Decimal` is `Decimal(neg, coef, scale)`: the value is
(-1)^neg · coef / 10^scale. The sign is a separate bit, so `-0.00` can be
represented. Addition follows Python's `decimal` rule for the sign of a zero
sum. A Python dict is a sequence of key/value pairs in insertion order.
Dates are day numbers. Printing a date (`isoformat`), printing a quantity
(`str(qty)`) and the optional QR renderer (`try_make_qr_svg`) are function
parameters: `isoDate`, `showQty` and `qrRender`.

The program has no locale or VAT handling:
- amounts are printed with a `.` and no locale-specific formatting;
- dates are printed by `isoformat`;
- unit names are used as given, with no synonym normalisation;
- there is no VAT line; the small-business note is a fixed text;
- the remittance text is `Invoice <number>`;
- the service period is escaped and nothing more.

## Model

| member | source | states |
|---|---|---|
| Decimals.QuantizeRoundsHalfUp | invoice/__main__.py:13-14 | quantizing keeps the sign, gives scale 2, and the cent count is the magnitude rounded to hundredths half-up, with ties going away from zero |
| Decimals.RoundsHalfUpUnique | invoice/__main__.py:13-14 | half-up rounding to cents has exactly one answer, so the rounding specification determines the result |
| Decimals.Format2Parses | invoice/__main__.py:14 | the two-decimal printing of a scale-2 amount reads back as exactly that amount, sign included |
| Decimals.Format2Shape | invoice/__main__.py:14 | the printed amount is an optional `-` (present exactly when negative), digits, a `.` and exactly two digits |
| Decimals.MoneySpec | invoice/__main__.py:13-14 | `money(x)` has the shape above, holds only digits, `.` and `-`, and reads back as `x` rounded half-up to cents with `x`'s sign |
| Decimals.MoneyHalfUpExamples | invoice/__main__.py:13-14 | `money(10.005)` is `10.01`, `money(10.015)` is `10.02`, and `money(-0.001)` is `-0.00` |
| Decimals.NatToDigits | invoice/__main__.py:14 | the integer part is printed as digits without leading zeros whose value is the number |
| Decimals.AddCents | invoice/__main__.py:160 | adding two cent amounts stays at scale 2 and adds their signed values; a negative zero sum needs two negative operands |
| Html.EscIsPerCharacter | invoice/__main__.py:17-24 | the five successive passes equal escaping each character once, so no entity produced by an earlier pass is escaped again |
| Html.EscOutput | invoice/__main__.py:17-24 | the output has no `<`, `>`, `"` or `'`, and every `&` in it starts one of the five entities |
| Html.UnescapeEscapeEach | invoice/__main__.py:17-24 | reading the five entities back as characters recovers the input |
| Html.EscInjective | invoice/__main__.py:17-24 | two texts with the same escaping are equal |
| Html.EscIdentity | invoice/__main__.py:17-24 | a text without any of the five special characters is unchanged |
| Html.EscAmpersandFirst | invoice/__main__.py:19 | existing entities are not recognised: a leading `&` is escaped whatever follows it, so `esc("&" + s)` is `&amp;` followed by `esc(s)`; with `Html.EscIdentity` on `amp;` this makes `esc("&amp;")` equal to `&amp;amp;` |
| Html.EscapeEachLonger | invoice/__main__.py:17-24 | escaping never shortens a text and lengthens every text that holds one of the five special characters |
| Html.EscNotIdempotent | invoice/__main__.py:17-24 | `esc` changes every text holding a special character, and escaping such a text twice differs from escaping it once |
| Html.EscSplits | invoice/__main__.py:17-24 | escaping a concatenation is concatenating the escaped parts |
| Epc.CompactIbanSpec | invoice/__main__.py:80 | removing spaces from the IBAN keeps every other character in order and leaves no space |
| Epc.EpcFieldsNoNewline | invoice/__main__.py:73-85 | when name, IBAN, remittance and BIC hold no newline, no field does |
| Epc.EpcPayloadRoundTrip | invoice/__main__.py:73-86 | under the same condition, splitting the payload on newlines gives exactly the 11 fields in order: BCD, 002, 1, SCT, the BIC or empty, the name, the IBAN without spaces, EUR and the amount, empty, the remittance, empty |
| Epc.EpcAccountAndAmount | invoice/__main__.py:80-81 | the IBAN field holds no space, and the amount field is `EUR` followed by the amount rounded half-up to cents |
| Epc.AmountLineNoNewline | invoice/__main__.py:81 | the amount field never holds a newline, whatever the amount |
| Templates.RenderHtml | invoice/__main__.py:99-103 | the loop over the entries in order computes the fold that replaces every `{{key}}` by its value, one key after another |
| Templates.RenderWithoutPlaceholders | invoice/__main__.py:99-103 | a template holding no `{{key}}` of any key is returned unchanged |
| Templates.RenderKeepsUnknownPlaceholder | invoice/__main__.py:99-103 | a `{{name}}` whose name is not a key stays in the output, when the name and keys contain no braces |
| Templates.ReplaceKeepsPlaceholder | invoice/__main__.py:102 | one substitution step cannot destroy the placeholder of a different brace-free name |
| Templates.NoMatchInPlaceholder | invoice/__main__.py:102 | the placeholder of one brace-free key never occurs inside that of another |
| Text.StripSlice | invoice/__main__.py:175 | `strip()` yields a contiguous slice of its input, and every character it drops before or after that slice is whitespace |
| Text.StripEnds | invoice/__main__.py:175 | the result of `strip()` neither begins nor ends with whitespace |
| Text.StripEmpty | invoice/__main__.py:175-176 | `strip()` is empty exactly when every character is whitespace |
| Text.SplitJoin | invoice/__main__.py:86 | joining parts that lack the separator and splitting again gives the parts back |
| Text.ReplaceAllSplits | invoice/__main__.py:19-23 | when no occurrence straddles the boundary, replacing in a concatenation replaces in each part |
| Text.ReplaceAllAbsent | invoice/__main__.py:102 | replacing a pattern that does not occur changes nothing |
| Text.ReplaceCharRemoves | invoice/__main__.py:80 | replacing a character by a text without it removes every occurrence |
| Invoice.Compute | invoice/__main__.py:132-221 | fails exactly when a check fails, with the first failing check (date, then items, then IBAN); otherwise yields the dataset and the QR markup |
| Invoice.PriceItems | invoice/__main__.py:152-170 | the item loop ends with the total equal to the sum of the rounded line totals and one row per item in order; its invariant keeps both equal to their values for the items seen so far |
| Invoice.ValidExactly | invoice/__main__.py:139-178 | the checks pass exactly when the date is present, there is at least one item, and the IBAN has a non-whitespace character |
| Invoice.Generate | invoice/__main__.py:139-231 | exit status 2 exactly when a check fails, with one error line and no directory or file touched; otherwise exit 0, the output directory, `<number>.html` with the rendered template, and the QR note exactly when there is no QR markup |
| Invoice.LineTotalRounds | invoice/__main__.py:156-159 | a line total is the quantity times the unit price rounded half-up to cents, signed as the product; with no quantity it is the unit price rounded |
| Invoice.TotalIsSumOfRoundedLines | invoice/__main__.py:152-160 | the total is at scale 2, its signed value is the sum of the individually rounded line totals, and it is never a negative zero |
| Invoice.CentsSumAppend | invoice/__main__.py:154-160 | appending an item adds its rounded line total to the sum |
| Invoice.PerLineRoundingExample | invoice/__main__.py:159-160 | rounding per line is not rounding the sum: three lines of 0.005 total 0.03, while 0.015 rounds to 0.02 |
| Invoice.RowCellsEscaped | invoice/__main__.py:155-168 | every row cell is free of raw markup with every `&` opening an entity, and the price cells read back as the rounded unit price and the line total |
| Invoice.EscMoney | invoice/__main__.py:166-167 | an amount printed by `money` passes through `esc` unchanged and holds no markup |
| Invoice.EscAllSafe | invoice/__main__.py:194-217 | every text of an escaped group holds no raw markup, and every `&` in it opens an entity |
| Invoice.DatasetEscaped | invoice/__main__.py:194-221 | every dataset value other than the item rows, the QR markup and the fixed tax note holds no raw markup, and every `&` in it opens an entity |
| Invoice.DatasetOfInvoiceDate | invoice/__main__.py:196 | `INVOICE_DATE` is the escaped printed invoice date |
| Invoice.DatasetOfDueDate | invoice/__main__.py:135-144 | `DUE_DATE` is the escaped printed date plus the payment term, and the term is 14 days when none is configured |
| Invoice.DatasetOfTaxNumber | invoice/__main__.py:205 | `SELLER_TAXNO` is the escaped tax number, or the escaped default when none is configured |
| Invoice.DefaultTaxNumberUnescaped | invoice/__main__.py:205 | the default tax number is `PENDING` and `esc` leaves it unchanged, so a seller without one shows `PENDING` |
| Invoice.DatasetOfCurrency | invoice/__main__.py:136 | `CURRENCY` is the escaped currency, or the escaped default when none is configured |
| Invoice.DefaultCurrencyUnescaped | invoice/__main__.py:136 | the default currency is `EUR` and `esc` leaves it unchanged |
| Invoice.DatasetOfTotal | invoice/__main__.py:212 | `TOTAL` is the escaped `money` of the total |
| Invoice.DatasetTotal | invoice/__main__.py:152-212 | on success, `TOTAL` reads back as the total, which is at scale 2 and equals the sum of the rounded line totals |
| Invoice.DatasetOfQrSvg | invoice/__main__.py:219 | `QR_SVG` is the QR markup as computed, not escaped |
| Invoice.BicLine | invoice/__main__.py:78 | a missing or blank BIC gives an empty BIC field in the payload; any other BIC appears stripped and non-empty |
| Invoice.LookupAt | invoice/__main__.py:194-221 | looking up a key in the dataset finds its first entry |

## Left out

- Command-line parsing, config-file discovery (`resolve_config`,
  `default_config_candidates`) and the invoice-file existence check: they
  depend on the environment and the filesystem.
- `load_toml` and reading the template: a foreign parser and file I/O. The
  model takes typed records and the template text as inputs. The `KeyError`
  for a missing required field (`seller.name`, `client.address1`,
  `description`, `unit_price` and so on) cannot arise, because those fields
  are not optional in the records.
- `parse_date` and `isoformat`: calendar parsing and printing. A date is a
  day number and its printing is the parameter `isoDate`. An unparsable
  date string is not modelled.
- `try_make_qr_svg` and the `segno` library: the parameter `qrRender`,
  which returns some markup or none.
- `str(qty)`, which can use exponent notation: the parameter `showQty`.
- Decimal construction from text (`Decimal(str(...))`): quantities and
  prices arrive as exact finite decimals. `NaN` and `Infinity`, which a TOML
  `nan` or `inf` becomes at lines 156 and 158, are not modelled; with them
  `money` prints `NaN` or raises.
- The 28-digit precision of Python's default decimal context: arithmetic is
  exact here, so a product with more than 28 significant digits, which
  Python would round before quantizing, is not modelled.
- `InvalidOperation` from `quantize` when the result needs more digits than
  the context precision allows.
- The informational `print` lines other than the missing-QR note, and the
  macOS `open` call.
- Text.ReplaceAll: requires a non-empty pattern; Python's `str.replace`
  with an empty pattern inserts between characters, which the code never
  uses.

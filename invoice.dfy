/**
 * The invoice computation of `main`: defaults, the three validation checks
 * in order, per-line rounding and the running total, the item rows, the
 * payment QR payload and the placeholder dataset handed to the template.
 */
module Invoice {
  import opened Optional
  import opened Text
  import opened Decimals
  import opened Html
  import opened Epc
  import opened Templates

  /** The `[seller]` table of the configuration; only `name`, `address1` and `address2` are required. */
  datatype Seller = Seller(
    name: string, address1: string, address2: string,
    email: Option<string>, website: Option<string>, taxNumber: Option<string>)

  /** The `[payment]` table; an absent table reads as every field missing. */
  datatype Payment = Payment(
    iban: Option<string>, bic: Option<string>, bank: Option<string>,
    termsDays: Option<int>, currency: Option<string>)

  datatype Config = Config(seller: Seller, payment: Payment)

  datatype Client = Client(name: string, address1: string, address2: string)

  /** One entry of `items`: `description` and `unit_price` are required. */
  datatype Item = Item(description: string, quantity: Option<Decimal>, unit: Option<string>, unitPrice: Decimal)

  /** The invoice record; `date` is a day number, `None` when the field is missing. */
  datatype InvoiceData = InvoiceData(
    date: Option<int>, client: Client, items: seq<Item>, servicePeriod: Option<string>)

  /** The three validation failures; each ends the program with exit status 2. */
  datatype Error = MissingDate | NoItems | MissingIban

  function Message(e: Error): string {
    match e
    case MissingDate => "Invoice TOML missing required field: date = \"YYYY-MM-DD\""
    case NoItems => "Invoice has no items."
    case MissingIban => "Config missing required field: [payment].iban"
  }

  const ExitInvalid: int := 2
  const DefaultTermsDays: int := 14

  /** The tax number shown when none is configured. */
  const DefaultTaxNumber: string := "PENDING"

  /** The currency shown when none is configured. */
  const DefaultCurrency: string := "EUR"
  const SmallBusinessNote: string := "Gemäß \U{A7}19 UStG wird keine Umsatzsteuer berechnet."

  /** `payment.get("terms_days", 14)`. */
  function TermsDays(cfg: Config): int {
    cfg.payment.termsDays.GetOr(DefaultTermsDays)
  }

  /** `str(payment.get("iban", "")).strip()`. */
  function Iban(cfg: Config): string {
    Strip(cfg.payment.iban.GetOr(""))
  }

  /** `str(payment.get("bic", "")).strip() or None`. */
  function Bic(cfg: Config): Option<string> {
    var b := Strip(cfg.payment.bic.GetOr(""));
    if b == [] then None else Some(b)
  }

  /** The first failing check, in the order `main` makes them: date, items, IBAN. */
  function FirstError(cfg: Config, inv: InvoiceData): Option<Error> {
    if inv.date.None? then Some(MissingDate)
    else if inv.items == [] then Some(NoItems)
    else if Iban(cfg) == [] then Some(MissingIban)
    else None
  }

  /** `Decimal(str(it.get("quantity", 1)))`. */
  function Quantity(it: Item): Decimal {
    it.quantity.GetOr(Decimal(false, 1, 0))
  }

  /** `(qty * unit_price).quantize(Decimal("0.01"), rounding=ROUND_HALF_UP)`. */
  function LineTotal(it: Item): Decimal {
    Quantize(Mul(Quantity(it), it.unitPrice))
  }

  const Zero: Decimal := Decimal(false, 0, 2)

  /** `total` after the loop has seen `items`: `Decimal("0.00")` plus each rounded line total in turn. */
  function SumLines(items: seq<Item>): Decimal
    decreases |items|
  {
    if items == [] then Zero
    else Add(SumLines(items[..|items| - 1]), LineTotal(items[|items| - 1]))
  }

  /** Reference definition: the sum of the signed cent counts of the rounded line totals. */
  function CentsSum(items: seq<Item>): int
    decreases |items|
  {
    if items == [] then 0 else Signed(LineTotal(items[0])) + CentsSum(items[1..])
  }

  /**
   * The five cells of an item row: description, quantity, unit, unit price
   * and line total. `showQty` stands for `str()` of a Decimal.
   */
  function Cells(it: Item, showQty: Decimal -> string): seq<string> {
    [Esc(it.description), Esc(showQty(Quantity(it))), Esc(it.unit.GetOr("")),
     Money(it.unitPrice), Money(LineTotal(it))]
  }

  /** The `<tr>` markup around the five cells. */
  function RowMarkup(cells: seq<string>): string
    requires |cells| == 5
  {
    "<tr>"
    + "<td>" + cells[0] + "</td>"
    + "<td class='num'>" + cells[1] + "</td>"
    + "<td>" + cells[2] + "</td>"
    + "<td class='num'>" + cells[3] + "</td>"
    + "<td class='num'>" + cells[4] + "</td>"
    + "</tr>"
  }

  /** `rows` after the loop has seen `items`. */
  function Rows(items: seq<Item>, showQty: Decimal -> string): seq<string>
    decreases |items|
  {
    if items == [] then []
    else Rows(items[..|items| - 1], showQty) + [RowMarkup(Cells(items[|items| - 1], showQty))]
  }

  /** The payment QR payload `main` builds: remittance "Invoice <number>", amount the total. */
  function Payload(cfg: Config, invoiceNo: string, total: Decimal): string {
    EpcQrPayload(cfg.seller.name, Iban(cfg), total, "Invoice " + invoiceNo, Bic(cfg))
  }

  /** The keys of the `data` dict, in insertion order. */
  const DatasetKeys: seq<string> :=
    ["INVOICE_NO", "INVOICE_DATE", "DUE_DATE", "SERVICE_PERIOD"]
    + ["SELLER_NAME", "SELLER_ADDRESS1", "SELLER_ADDRESS2", "SELLER_EMAIL", "SELLER_WEBSITE", "SELLER_TAXNO"]
    + ["CLIENT_NAME", "CLIENT_ADDRESS1", "CLIENT_ADDRESS2"]
    + ["ITEM_ROWS", "TOTAL", "CURRENCY"]
    + ["IBAN", "BIC", "BANK"]
    + ["QR_SVG", "KLEINUNTERNEHMER_NOTE"]

  /** Each text passed through `esc`. */
  function EscAll(texts: seq<string>): seq<string> {
    seq(|texts|, i requires 0 <= i < |texts| => Esc(texts[i]))
  }

  /** The first group of `data`: invoice number, dates and service period. */
  function HeaderValues(cfg: Config, inv: InvoiceData, invoiceNo: string, date: int, isoDate: int -> string): seq<string> {
    EscAll([invoiceNo, isoDate(date), isoDate(date + TermsDays(cfg)), inv.servicePeriod.GetOr("")])
  }

  /** The seller group of `data`. */
  function SellerValues(seller: Seller): seq<string> {
    EscAll([seller.name, seller.address1, seller.address2,
            seller.email.GetOr(""), seller.website.GetOr(""), seller.taxNumber.GetOr(DefaultTaxNumber)])
  }

  /** The client group of `data`. */
  function ClientValues(client: Client): seq<string> {
    EscAll([client.name, client.address1, client.address2])
  }

  /** The total and the currency, which follow the item rows. */
  function AmountValues(cfg: Config, total: Decimal): seq<string> {
    EscAll([Money(total), cfg.payment.currency.GetOr(DefaultCurrency)])
  }

  /** The bank group of `data`: the stripped IBAN, and the BIC and bank as configured. */
  function BankValues(cfg: Config): seq<string> {
    EscAll([Iban(cfg), cfg.payment.bic.GetOr(""), cfg.payment.bank.GetOr("")])
  }

  /** The values of the `data` dict, key by key, from the values `main` has computed. */
  function DatasetValues(cfg: Config, inv: InvoiceData, invoiceNo: string, date: int, total: Decimal,
                         itemRows: string, qrSvg: string, isoDate: int -> string): seq<string>
  {
    HeaderValues(cfg, inv, invoiceNo, date, isoDate) + SellerValues(cfg.seller) + ClientValues(inv.client)
    + [itemRows] + AmountValues(cfg, total) + BankValues(cfg) + [qrSvg, SmallBusinessNote]
  }

  /** The entries of a dict with the keys `DatasetKeys` and the given values. */
  function Entries(values: seq<string>): seq<(string, string)>
    requires |values| == |DatasetKeys|
  {
    seq(|DatasetKeys|, i requires 0 <= i < |DatasetKeys| => (DatasetKeys[i], values[i]))
  }

  /** The `data` dict, in its insertion order. */
  function DatasetOf(cfg: Config, inv: InvoiceData, invoiceNo: string, date: int, total: Decimal,
                     itemRows: string, qrSvg: string, isoDate: int -> string): seq<(string, string)>
  {
    Entries(DatasetValues(cfg, inv, invoiceNo, date, total, itemRows, qrSvg, isoDate))
  }

  /** `try_make_qr_svg(payload) or ""` for the payload of `items`' total. */
  function QrSvg(cfg: Config, inv: InvoiceData, invoiceNo: string, qrRender: string -> Option<string>): string {
    qrRender(Payload(cfg, invoiceNo, SumLines(inv.items))).GetOr("")
  }

  /**
   * The dataset of a valid invoice. `isoDate` prints a day number as
   * YYYY-MM-DD; `qrRender` is the optional QR renderer, `None` when it is
   * unavailable.
   */
  function Dataset(cfg: Config, inv: InvoiceData, invoiceNo: string, isoDate: int -> string,
                   showQty: Decimal -> string, qrRender: string -> Option<string>): seq<(string, string)>
    requires inv.date.Some?
  {
    DatasetOf(cfg, inv, invoiceNo, inv.date.value, SumLines(inv.items), Join(Rows(inv.items, showQty), NL),
              QrSvg(cfg, inv, invoiceNo, qrRender), isoDate)
  }

  /** What `main` has computed once the checks pass: the `data` dict and the QR markup, `""` when there is none. */
  datatype Computed = Computed(data: seq<(string, string)>, qrSvg: string)

  /** Extending the items seen by one adds its line total and appends its row. */
  lemma PrefixStep(items: seq<Item>, i: nat, showQty: Decimal -> string)
    requires i < |items|
    ensures SumLines(items[..i + 1]) == Add(SumLines(items[..i]), LineTotal(items[i]))
    ensures Rows(items[..i + 1], showQty) == Rows(items[..i], showQty) + [RowMarkup(Cells(items[i], showQty))]
  {
    assert items[..i + 1][..i] == items[..i];
  }

  /**
   * The item loop of `main`: each item's line total, rounded half-up to
   * cents, is added to the running total and its row markup is appended.
   */
  method PriceItems(items: seq<Item>, showQty: Decimal -> string) returns (total: Decimal, rows: seq<string>)
    ensures total == SumLines(items)
    ensures rows == Rows(items, showQty)
  {
    total := Zero;
    rows := [];
    var i := 0;
    while i < |items|
      invariant 0 <= i <= |items|
      invariant total == SumLines(items[..i])
      invariant rows == Rows(items[..i], showQty)
    {
      var it := items[i];
      var lineTotal := Quantize(Mul(Quantity(it), it.unitPrice));
      PrefixStep(items, i, showQty);
      total := Add(total, lineTotal);
      rows := rows + [RowMarkup(Cells(it, showQty))];
      i := i + 1;
    }
    assert items[..i] == items;
  }

  /**
   * The computation of `main` between loading the inputs and creating the
   * output directory: it fails with the first failing check, in order, and
   * otherwise yields the dataset and the QR markup.
   */
  method Compute(cfg: Config, inv: InvoiceData, invoiceNo: string, isoDate: int -> string,
                 showQty: Decimal -> string, qrRender: string -> Option<string>)
    returns (r: Result<Computed, Error>)
    ensures r.Failure? <==> FirstError(cfg, inv).Some?
    ensures r.Failure? ==> r.error == FirstError(cfg, inv).value
    ensures r.Success? ==>
      && inv.date.Some?
      && r.value == Computed(Dataset(cfg, inv, invoiceNo, isoDate, showQty, qrRender), QrSvg(cfg, inv, invoiceNo, qrRender))
  {
    if inv.date.None? {
      return Failure(MissingDate);
    }
    var date := inv.date.value;
    var items := inv.items;
    if items == [] {
      return Failure(NoItems);
    }
    var total, rows := PriceItems(items, showQty);
    var itemsHtml := Join(rows, NL);
    var iban := Strip(cfg.payment.iban.GetOr(""));
    if iban == [] {
      return Failure(MissingIban);
    }
    var payload := EpcQrPayload(cfg.seller.name, iban, total, "Invoice " + invoiceNo, Bic(cfg));
    var qrSvg := qrRender(payload).GetOr("");
    assert iban == Iban(cfg);
    assert qrSvg == QrSvg(cfg, inv, invoiceNo, qrRender);
    r := Success(Computed(DatasetOf(cfg, inv, invoiceNo, date, total, itemsHtml, qrSvg, isoDate), qrSvg));
  }

  /** What the program does to the outside world, in order. */
  datatype Effect =
    | ReportError(message: string)             // a line on standard error
    | MakeOutputDir                            // `out_dir.mkdir(parents=True, exist_ok=True)`
    | WriteHtml(fileName: string, html: string)
    | QrNote                                   // "Note: QR not embedded …" on standard output

  /** The first entry with key `k`. */
  function Lookup(data: seq<(string, string)>, k: string): Option<string>
    decreases |data|
  {
    if data == [] then None
    else if data[0].0 == k then Some(data[0].1)
    else Lookup(data[1..], k)
  }

  /** A lookup finds the first entry whose key matches. */
  lemma {:induction false} LookupAt(data: seq<(string, string)>, i: nat, k: string)
    requires i < |data| && data[i].0 == k
    requires forall j :: 0 <= j < i ==> data[j].0 != k
    ensures Lookup(data, k) == Some(data[i].1)
    decreases i
  {
    if i > 0 {
      LookupAt(data[1..], i - 1, k);
    }
  }

  /** No key of the dataset occurs twice. */
  lemma KeysDistinct()
    ensures forall i, j :: 0 <= i < j < |DatasetKeys| ==> DatasetKeys[i] != DatasetKeys[j]
  {
  }

  /** Looking up a key of the dataset finds the value stored under it. */
  lemma LookupEntries(values: seq<string>, i: nat)
    requires |values| == |DatasetKeys| && i < |DatasetKeys|
    ensures Lookup(Entries(values), DatasetKeys[i]) == Some(values[i])
  {
    KeysDistinct();
    LookupAt(Entries(values), i, DatasetKeys[i]);
  }

  /**
   * `main` from the checks on: exit status 2 with one error line and no
   * directory or file touched when a check fails; otherwise the output
   * directory is created, `<invoice number>.html` is written with the
   * rendered template, and a note follows when there is no QR image.
   */
  method Generate(cfg: Config, inv: InvoiceData, invoiceNo: string, template: string,
                  isoDate: int -> string, showQty: Decimal -> string, qrRender: string -> Option<string>)
    returns (exitCode: int, effects: seq<Effect>)
    ensures exitCode == ExitInvalid <==> FirstError(cfg, inv).Some?
    ensures exitCode != ExitInvalid ==> exitCode == 0
    ensures exitCode == ExitInvalid ==> effects == [ReportError(Message(FirstError(cfg, inv).value))]
    ensures exitCode == 0 ==>
      && inv.date.Some?
      && effects == [MakeOutputDir,
                     WriteHtml(invoiceNo + ".html", Render(template, Dataset(cfg, inv, invoiceNo, isoDate, showQty, qrRender)))]
                    + (if QrSvg(cfg, inv, invoiceNo, qrRender) == "" then [QrNote] else [])
  {
    var r := Compute(cfg, inv, invoiceNo, isoDate, showQty, qrRender);
    if r.Failure? {
      return ExitInvalid, [ReportError(Message(r.error))];
    }
    var html := RenderHtml(template, r.value.data);
    var noQr := r.value.qrSvg == "";
    effects := [MakeOutputDir, WriteHtml(invoiceNo + ".html", html)] + (if noQr then [QrNote] else []);
    exitCode := 0;
  }

  /**
   * Each line total is quantity times unit price rounded half-up to cents,
   * signed by the product's sign; with no quantity it is the unit price rounded.
   */
  lemma LineTotalRounds(it: Item)
    ensures var q, p, l := Quantity(it), it.unitPrice, LineTotal(it);
      && l.scale == 2
      && l.neg == (q.neg != p.neg)
      && RoundsHalfUp(q.coef * p.coef, q.scale + p.scale, l.coef)
      && (it.quantity.None? ==> l == Quantize(p))
  {
    var m := Mul(Quantity(it), it.unitPrice);
    QuantizeRoundsHalfUp(m);
    assert LineTotal(it) == Quantize(m);
    if it.quantity.None? {
      assert m == it.unitPrice;
    }
  }

  lemma {:induction false} CentsSumAppend(items: seq<Item>, it: Item)
    ensures CentsSum(items + [it]) == CentsSum(items) + Signed(LineTotal(it))
    decreases |items|
  {
    if items == [] {
      assert [] + [it] == [it];
    } else {
      assert (items + [it])[1..] == items[1..] + [it];
      CentsSumAppend(items[1..], it);
    }
  }

  /**
   * The invoice total is the exact sum of the individually rounded line
   * totals, in cents, at scale 2, and it is never a negative zero.
   */
  lemma {:induction false} TotalIsSumOfRoundedLines(items: seq<Item>)
    ensures SumLines(items).scale == 2
    ensures Signed(SumLines(items)) == CentsSum(items)
    ensures SumLines(items).coef == 0 ==> !SumLines(items).neg
    decreases |items|
  {
    if items != [] {
      var front, last := items[..|items| - 1], items[|items| - 1];
      TotalIsSumOfRoundedLines(front);
      AddCents(SumLines(front), LineTotal(last));
      CentsSumAppend(front, last);
      assert front + [last] == items;
    }
  }

  /**
   * Rounding per line differs from rounding the sum: three lines of 0.005
   * total 0.03, where the rounded sum of the products would be 0.02.
   */
  lemma PerLineRoundingExample()
    ensures var it := Item("x", None, None, Decimal(false, 5, 3));
      && SumLines([it, it, it]) == Decimal(false, 3, 2)
      && Quantize(Decimal(false, 15, 3)) == Decimal(false, 2, 2)
  {
    var it := Item("x", None, None, Decimal(false, 5, 3));
    assert LineTotal(it) == Decimal(false, 1, 2);
    assert [it][..0] == [];
    assert SumLines([it]) == Decimal(false, 1, 2);
    assert [it, it][..1] == [it];
    assert SumLines([it, it]) == Decimal(false, 2, 2);
    assert [it, it, it][..2] == [it, it];
  }

  /** Text made only of amount characters passes through `esc` unchanged. */
  lemma EscMoney(x: Decimal)
    ensures Esc(Money(x)) == Money(x)
    ensures MarkupFree(Money(x)) && AmpersandsOpenEntities(Money(x))
  {
    MoneySpec(x);
    EscIdentity(Money(x));
  }

  /**
   * Every cell of an item row is escaped or printed by `money`: none holds
   * raw markup, every `&` opens an entity, and the price and line-total
   * cells read back as the rounded unit price and the rounded line total.
   */
  lemma RowCellsEscaped(it: Item, showQty: Decimal -> string)
    ensures var c := Cells(it, showQty);
      && |c| == 5
      && (forall i :: 0 <= i < 5 ==> MarkupFree(c[i]) && AmpersandsOpenEntities(c[i]))
      && ParseAmount(c[3]) == Some(Quantize(it.unitPrice))
      && ParseAmount(c[4]) == Some(LineTotal(it))
  {
    var c := Cells(it, showQty);
    forall i | 0 <= i < 5 ensures MarkupFree(c[i]) && AmpersandsOpenEntities(c[i]) {
      if i == 0 {
        EscOutput(it.description);
      } else if i == 1 {
        EscOutput(showQty(Quantity(it)));
      } else if i == 2 {
        EscOutput(it.unit.GetOr(""));
      } else if i == 3 {
        EscMoney(it.unitPrice);
      } else {
        EscMoney(LineTotal(it));
      }
    }
    Format2Parses(Quantize(it.unitPrice));
    Format2Parses(LineTotal(it));
    QuantizeScale2(LineTotal(it));
  }

  /** What `esc` guarantees of its output (see `Html.EscOutput`). */
  predicate Safe(s: string) {
    MarkupFree(s) && AmpersandsOpenEntities(s)
  }

  /** Every text in `xs` is `Safe`. */
  predicate AllSafe(xs: seq<string>) {
    forall i :: 0 <= i < |xs| ==> Safe(xs[i])
  }

  /** Every text passed through `esc` is `Safe`. */
  lemma EscAllSafe(texts: seq<string>)
    ensures AllSafe(EscAll(texts))
  {
    forall i | 0 <= i < |texts| ensures Safe(EscAll(texts)[i]) {
      EscOutput(texts[i]);
    }
  }

  /** Where each group of `data` sits once the groups are laid end to end. */
  lemma GroupAt(h: seq<string>, s: seq<string>, c: seq<string>, a: seq<string>, b: seq<string>,
                rows: string, qr: string, note: string, i: nat)
    requires |h| == 4 && |s| == 6 && |c| == 3 && |a| == 2 && |b| == 3 && i < 21
    ensures var vs := h + s + c + [rows] + a + b + [qr, note];
      && |vs| == 21
      && (i < 4 ==> vs[i] == h[i])
      && (4 <= i < 10 ==> vs[i] == s[i - 4])
      && (10 <= i < 13 ==> vs[i] == c[i - 10])
      && (i == 13 ==> vs[i] == rows)
      && (14 <= i < 16 ==> vs[i] == a[i - 14])
      && (16 <= i < 19 ==> vs[i] == b[i - 16])
      && (i == 19 ==> vs[i] == qr)
      && (i == 20 ==> vs[i] == note)
  {
    var vs := h + s + c + [rows] + a + b + [qr, note];
    if i < 4 {
      assert vs[i] == h[i];
    } else if i < 10 {
      assert vs[i] == s[i - 4];
    } else if i < 13 {
      assert vs[i] == c[i - 10];
    } else if 14 <= i < 16 {
      assert vs[i] == a[i - 14];
    } else if 16 <= i < 19 {
      assert vs[i] == b[i - 16];
    }
  }

  /**
   * Every value of the dataset except the item rows and the QR markup (both
   * built from already-escaped parts) and the fixed tax note is escaped:
   * no raw `<`, `>`, `"` or `'`, and every `&` opens an entity.
   */
  lemma DatasetEscaped(cfg: Config, inv: InvoiceData, invoiceNo: string, date: int, total: Decimal,
                       itemRows: string, qrSvg: string, isoDate: int -> string)
    ensures var vs := DatasetValues(cfg, inv, invoiceNo, date, total, itemRows, qrSvg, isoDate);
      forall i :: 0 <= i < |vs| && DatasetKeys[i] !in {"ITEM_ROWS", "QR_SVG", "KLEINUNTERNEHMER_NOTE"} ==>
        MarkupFree(vs[i]) && AmpersandsOpenEntities(vs[i])
  {
    var h, s, c := HeaderValues(cfg, inv, invoiceNo, date, isoDate), SellerValues(cfg.seller), ClientValues(inv.client);
    var a, b := AmountValues(cfg, total), BankValues(cfg);
    EscAllSafe([invoiceNo, isoDate(date), isoDate(date + TermsDays(cfg)), inv.servicePeriod.GetOr("")]);
    EscAllSafe([cfg.seller.name, cfg.seller.address1, cfg.seller.address2, cfg.seller.email.GetOr(""),
                cfg.seller.website.GetOr(""), cfg.seller.taxNumber.GetOr(DefaultTaxNumber)]);
    EscAllSafe([inv.client.name, inv.client.address1, inv.client.address2]);
    EscAllSafe([Money(total), cfg.payment.currency.GetOr(DefaultCurrency)]);
    EscAllSafe([Iban(cfg), cfg.payment.bic.GetOr(""), cfg.payment.bank.GetOr("")]);
    var vs := DatasetValues(cfg, inv, invoiceNo, date, total, itemRows, qrSvg, isoDate);
    assert DatasetKeys[13] == "ITEM_ROWS" && DatasetKeys[19] == "QR_SVG" && DatasetKeys[20] == "KLEINUNTERNEHMER_NOTE";
    forall i | 0 <= i < |vs| && DatasetKeys[i] !in {"ITEM_ROWS", "QR_SVG", "KLEINUNTERNEHMER_NOTE"}
      ensures Safe(vs[i])
    {
      GroupAt(h, s, c, a, b, itemRows, qrSvg, SmallBusinessNote, i);
    }
  }

  /** The entry under the `i`-th key is the `i`-th value, read from its group. */
  lemma LookupValue(cfg: Config, inv: InvoiceData, invoiceNo: string, date: int, total: Decimal,
                    itemRows: string, qrSvg: string, isoDate: int -> string, i: nat, key: string)
    requires i < |DatasetKeys| && DatasetKeys[i] == key
    ensures var h, s, c := HeaderValues(cfg, inv, invoiceNo, date, isoDate), SellerValues(cfg.seller), ClientValues(inv.client);
      var a, b := AmountValues(cfg, total), BankValues(cfg);
      Lookup(DatasetOf(cfg, inv, invoiceNo, date, total, itemRows, qrSvg, isoDate), key) == Some(
        if i < 4 then h[i] else if i < 10 then s[i - 4] else if i < 13 then c[i - 10]
        else if i == 13 then itemRows else if i < 16 then a[i - 14] else if i < 19 then b[i - 16]
        else if i == 19 then qrSvg else SmallBusinessNote)
  {
    var h, s, c := HeaderValues(cfg, inv, invoiceNo, date, isoDate), SellerValues(cfg.seller), ClientValues(inv.client);
    var a, b := AmountValues(cfg, total), BankValues(cfg);
    LookupEntries(h + s + c + [itemRows] + a + b + [qrSvg, SmallBusinessNote], i);
    GroupAt(h, s, c, a, b, itemRows, qrSvg, SmallBusinessNote, i);
  }

  /** The `INVOICE_DATE` entry of the dataset. */
  lemma DatasetOfInvoiceDate(cfg: Config, inv: InvoiceData, invoiceNo: string, date: int, total: Decimal,
                             itemRows: string, qrSvg: string, isoDate: int -> string)
    ensures Lookup(DatasetOf(cfg, inv, invoiceNo, date, total, itemRows, qrSvg, isoDate), "INVOICE_DATE")
      == Some(Esc(isoDate(date)))
  {
    LookupValue(cfg, inv, invoiceNo, date, total, itemRows, qrSvg, isoDate, 1, "INVOICE_DATE");
  }

  /** The `DUE_DATE` entry of the dataset. */
  lemma DatasetOfDueDate(cfg: Config, inv: InvoiceData, invoiceNo: string, date: int, total: Decimal,
                         itemRows: string, qrSvg: string, isoDate: int -> string)
    ensures Lookup(DatasetOf(cfg, inv, invoiceNo, date, total, itemRows, qrSvg, isoDate), "DUE_DATE")
      == Some(Esc(isoDate(date + TermsDays(cfg))))
    ensures cfg.payment.termsDays.None? ==> TermsDays(cfg) == 14
  {
    var due := Esc(isoDate(date + TermsDays(cfg)));
    assert HeaderValues(cfg, inv, invoiceNo, date, isoDate)[2] == due;
    LookupValue(cfg, inv, invoiceNo, date, total, itemRows, qrSvg, isoDate, 2, "DUE_DATE");
  }

  /** The default tax number is shown as it is: `esc` leaves `PENDING` unchanged. */
  lemma DefaultTaxNumberUnescaped()
    ensures Esc(DefaultTaxNumber) == DefaultTaxNumber == "PENDING"
  {
    EscIdentity(DefaultTaxNumber);
  }

  /** The default currency is shown as it is: `esc` leaves `EUR` unchanged. */
  lemma DefaultCurrencyUnescaped()
    ensures Esc(DefaultCurrency) == DefaultCurrency == "EUR"
  {
    EscIdentity(DefaultCurrency);
  }

  /** The `SELLER_TAXNO` entry: the escaped tax number, `PENDING` when none is configured. */
  lemma DatasetOfTaxNumber(cfg: Config, inv: InvoiceData, invoiceNo: string, date: int, total: Decimal,
                           itemRows: string, qrSvg: string, isoDate: int -> string)
    ensures Lookup(DatasetOf(cfg, inv, invoiceNo, date, total, itemRows, qrSvg, isoDate), "SELLER_TAXNO")
      == Some(Esc(cfg.seller.taxNumber.GetOr(DefaultTaxNumber)))
  {
    LookupValue(cfg, inv, invoiceNo, date, total, itemRows, qrSvg, isoDate, 9, "SELLER_TAXNO");
  }

  /** The `CURRENCY` entry: the escaped currency, `EUR` when none is configured. */
  lemma DatasetOfCurrency(cfg: Config, inv: InvoiceData, invoiceNo: string, date: int, total: Decimal,
                          itemRows: string, qrSvg: string, isoDate: int -> string)
    ensures Lookup(DatasetOf(cfg, inv, invoiceNo, date, total, itemRows, qrSvg, isoDate), "CURRENCY")
      == Some(Esc(cfg.payment.currency.GetOr(DefaultCurrency)))
  {
    LookupValue(cfg, inv, invoiceNo, date, total, itemRows, qrSvg, isoDate, 15, "CURRENCY");
  }

  /** The `TOTAL` entry of the dataset. */
  lemma DatasetOfTotal(cfg: Config, inv: InvoiceData, invoiceNo: string, date: int, total: Decimal,
                       itemRows: string, qrSvg: string, isoDate: int -> string)
    ensures Lookup(DatasetOf(cfg, inv, invoiceNo, date, total, itemRows, qrSvg, isoDate), "TOTAL")
      == Some(Esc(Money(total)))
  {
    LookupValue(cfg, inv, invoiceNo, date, total, itemRows, qrSvg, isoDate, 14, "TOTAL");
  }

  /** The `QR_SVG` entry is the QR markup as given, unescaped. */
  lemma DatasetOfQrSvg(cfg: Config, inv: InvoiceData, invoiceNo: string, date: int, total: Decimal,
                       itemRows: string, qrSvg: string, isoDate: int -> string)
    ensures Lookup(DatasetOf(cfg, inv, invoiceNo, date, total, itemRows, qrSvg, isoDate), "QR_SVG") == Some(qrSvg)
  {
    LookupValue(cfg, inv, invoiceNo, date, total, itemRows, qrSvg, isoDate, 19, "QR_SVG");
  }

  /**
   * On success `TOTAL` reads back as an amount at scale 2 whose signed cent
   * count is the sum of the individually rounded line totals.
   */
  lemma DatasetTotal(cfg: Config, inv: InvoiceData, invoiceNo: string, isoDate: int -> string,
                     showQty: Decimal -> string, qrRender: string -> Option<string>)
    requires inv.date.Some?
    ensures var ds := Dataset(cfg, inv, invoiceNo, isoDate, showQty, qrRender);
      && Lookup(ds, "TOTAL").Some?
      && ParseAmount(Lookup(ds, "TOTAL").value) == Some(SumLines(inv.items))
      && SumLines(inv.items).scale == 2
      && Signed(SumLines(inv.items)) == CentsSum(inv.items)
  {
    var total := SumLines(inv.items);
    var rows, qr := Join(Rows(inv.items, showQty), NL), QrSvg(cfg, inv, invoiceNo, qrRender);
    assert Dataset(cfg, inv, invoiceNo, isoDate, showQty, qrRender)
      == DatasetOf(cfg, inv, invoiceNo, inv.date.value, total, rows, qr, isoDate);
    DatasetOfTotal(cfg, inv, invoiceNo, inv.date.value, total, rows, qr, isoDate);
    EscMoney(total);
    TotalIsSumOfRoundedLines(inv.items);
    Format2Parses(total);
  }

  /**
   * The checks pass exactly when the date is present, there is at least one
   * item, and the configured IBAN holds a non-whitespace character.
   */
  lemma ValidExactly(cfg: Config, inv: InvoiceData)
    ensures var raw := cfg.payment.iban.GetOr("");
      FirstError(cfg, inv).None? <==>
        inv.date.Some? && |inv.items| > 0 && exists k :: 0 <= k < |raw| && !IsSpace(raw[k])
  {
    StripEmpty(cfg.payment.iban.GetOr(""));
  }

  /**
   * A BIC that is missing or blank gives an empty BIC line in the QR
   * payload; any other BIC appears stripped.
   */
  lemma BicLine(cfg: Config, invoiceNo: string, total: Decimal)
    ensures var raw := cfg.payment.bic.GetOr("");
      var line := EpcFields(cfg.seller.name, Iban(cfg), total, "Invoice " + invoiceNo, Bic(cfg))[4];
      && ((forall k :: 0 <= k < |raw| ==> IsSpace(raw[k])) ==> line == "")
      && ((exists k :: 0 <= k < |raw| && !IsSpace(raw[k])) ==> line == Strip(raw) && line != [])
  {
    StripEmpty(cfg.payment.bic.GetOr(""));
  }
}

/** `extract_peru_data(ocr_result)` (app.py:32-84): four independent scans
    over the recognized line texts joined with single spaces, assembled
    into one record, returned together with the line texts. */
module Extraction {
  import opened Wrappers
  import opened Chars
  import opened Lines
  import opened Ruc
  import opened Dates
  import opened Money
  import opened Currency

  /** The result record. `total` is in cents: every amount the scan can
      match has exactly two decimals. */
  datatype Invoice = Invoice(
    rucEmisor: Option<string>,
    fechaEmision: Option<string>,
    moneda: Currency,
    total: nat)

  /** The record before any scan has filled it in (app.py:42-47). */
  const Defaults := Invoice(None, None, PEN, 0)

  /** The `ruc_emisor` promise: the leftmost taxpayer number of the text
      with its spaces removed, or `None` when there is none. */
  ghost predicate RucDescribes(ruc: Option<string>, full: string) {
    var st := RemoveSpaces(full);
    && (ruc.None? <==> forall i: nat :: !RucAt(st, i))
    && (ruc.Some? ==>
          IsRucNumber(ruc.value)
          && exists i: nat :: LeftmostRuc(st, i) && ruc.value == st[i..i + RucLength])
  }

  /** The `fecha_emision` promise: the leftmost date-shaped piece of the
      text, or `None`. */
  ghost predicate DateDescribes(date: Option<string>, full: string) {
    && (date.None? <==> forall i: nat :: !DateAt(full, i))
    && (date.Some? ==>
          IsDateText(date.value)
          && exists i: nat :: LeftmostDate(full, i) && date.value == full[i..i + DateLength])
  }

  /** The `total` promise: the largest amount matched, or 0 when none is. */
  ghost predicate TotalDescribes(total: nat, full: string) {
    var tokens := MoneyTokens(full);
    && (forall k :: 0 <= k < |tokens| ==> TokenCents(tokens[k]) <= total)
    && (tokens == [] ==> total == 0)
    && (tokens != [] ==> exists k :: 0 <= k < |tokens| && total == TokenCents(tokens[k]))
  }

  /** Everything the record promises about one joined text `full`. */
  ghost predicate DescribesText(data: Invoice, full: string) {
    && RucDescribes(data.rucEmisor, full)
    && DateDescribes(data.fechaEmision, full)
    && (data.moneda == USD <==> HasSubstring(full, "USD") || HasSubstring(full, "$"))
    && TotalDescribes(data.total, full)
  }

  function ExtractPeruData(ocr: seq<OcrLine>): (r: (Invoice, seq<string>))
    ensures |r.1| == |ocr|
    ensures forall k :: 0 <= k < |ocr| ==> r.1[k] == ocr[k].text
    ensures DescribesText(r.0, Join(r.1))
  {
    var lines := LineTexts(ocr);
    var full := Join(lines);
    var data := Invoice(SearchRuc(full), SearchDate(full), DetectCurrency(full), SearchTotal(full));
    FieldsDescribe(full);
    (data, lines)
  }

  /** The four scans over one joined text meet the record's promises. */
  lemma FieldsDescribe(full: string)
    ensures DescribesText(Invoice(SearchRuc(full), SearchDate(full), DetectCurrency(full), SearchTotal(full)), full)
  {
    assert RucDescribes(SearchRuc(full), full);
    assert DateDescribes(SearchDate(full), full);
    SearchTotalDescribes(full);
  }

  /** The computed total meets the `total` promise. */
  lemma SearchTotalDescribes(full: string)
    ensures TotalDescribes(SearchTotal(full), full)
  {
    var total := SearchTotal(full);
    var tokens := MoneyTokens(full);
    assert forall k :: 0 <= k < |tokens| ==> TokenCents(tokens[k]) <= total;
  }

  /** With nothing to find, every field keeps its default. */
  lemma NothingFoundGivesDefaults(ocr: seq<OcrLine>)
    requires var full := Join(LineTexts(ocr));
      && (forall i: nat :: !RucAt(RemoveSpaces(full), i))
      && (forall i: nat :: !DateAt(full, i))
      && !HasSubstring(full, "USD") && !HasSubstring(full, "$")
      && NoMoneyIn(full, 0, |full| + 1)
    ensures ExtractPeruData(ocr).0 == Defaults
  {
    var full := Join(LineTexts(ocr));
    FindAllUnique(full, 0, FindAllMoney(full, 0), []);
  }

  /** An empty recognition result gives the defaults and no lines. */
  lemma EmptyInputGivesDefaults()
    ensures ExtractPeruData([]) == (Defaults, [])
  {
    assert Join(LineTexts([])) == "";
    NothingFoundGivesDefaults([]);
  }

  /** Spaces and line breaks never change the taxpayer number found. */
  lemma RucIgnoresSpaces(a: seq<OcrLine>, b: seq<OcrLine>)
    requires StrippedConcat(LineTexts(a)) == StrippedConcat(LineTexts(b))
    ensures ExtractPeruData(a).0.rucEmisor == ExtractPeruData(b).0.rucEmisor
  {
    SearchRucIgnoresSpaces(LineTexts(a), LineTexts(b));
  }

  /** The result depends on the line texts alone, not on the boxes or the
      confidence scores. */
  lemma TextsDecide(a: seq<OcrLine>, b: seq<OcrLine>)
    requires |a| == |b|
    requires forall k :: 0 <= k < |a| ==> a[k].text == b[k].text
    ensures ExtractPeruData(a) == ExtractPeruData(b)
  {
    assert LineTexts(a) == LineTexts(b);
  }
}

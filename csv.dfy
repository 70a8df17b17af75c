/**
 * Step 5 of the callback: each collected transaction becomes one
 * `date,description,amount` row, and the rows follow the header line,
 * newline-joined.
 */
module CsvExport {
  import opened Wrappers
  import opened Text
  import opened Decimal
  import opened JsFormat
  import opened Transactions

  const Header: string := "Date,Description,Amount"

  predicate IsDebit(tx: Transaction)
  {
    tx.transactionType == Some("DEBIT")
  }

  /** The date column: the en-GB date, or empty when the record has no timestamp. */
  function DateField(timestamp: Option<CalendarDate>): (s: string)
    ensures s == "" <==> timestamp.None?
    ensures forall i :: 0 <= i < |s| ==> IsDigit(s[i]) || s[i] == '/'
  {
    match timestamp
    case None => ""
    case Some(d) => FormatDate(d)
  }

  /** `description || merchant_name || "Unknown"`: never empty. */
  function DescriptionSource(tx: Transaction): (s: string)
    ensures s != ""
    ensures NonEmpty(tx.description) ==> s == tx.description.value
    ensures !NonEmpty(tx.description) && NonEmpty(tx.merchantName) ==> s == tx.merchantName.value
    ensures !NonEmpty(tx.description) && !NonEmpty(tx.merchantName) ==> s == "Unknown"
  {
    if NonEmpty(tx.description) then tx.description.value
    else if NonEmpty(tx.merchantName) then tx.merchantName.value
    else "Unknown"
  }

  /**
   * The description column: the chosen text with every comma turned into a
   * space, so the column holds no comma, and nothing else about the text changes.
   */
  function CsvDescription(tx: Transaction): (s: string)
    ensures ',' !in s
    ensures |s| == |DescriptionSource(tx)|
    ensures forall i :: 0 <= i < |s| ==>
      if DescriptionSource(tx)[i] == ',' then s[i] == ' ' else s[i] == DescriptionSource(tx)[i]
  {
    ReplaceAll(DescriptionSource(tx), ',', ' ')
  }

  /** The amount column's value: the magnitude, negated exactly for a debit. */
  function SignedAmount(tx: Transaction): (a: int)
    ensures a == tx.amount || a == -tx.amount
    ensures IsDebit(tx) ==> a <= 0
    ensures !IsDebit(tx) ==> a >= 0
  {
    var magnitude := if tx.amount < 0 then -tx.amount else tx.amount;
    if IsDebit(tx) then -magnitude else magnitude
  }

  /** `date + ',' + desc + ',' + amount`. */
  function Row(tx: Transaction): string
  {
    DateField(tx.timestamp) + "," + CsvDescription(tx) + "," + RenderAmount(SignedAmount(tx))
  }

  /** One row per transaction, in order. */
  function Rows(txs: seq<Transaction>): (rows: seq<string>)
    ensures |rows| == |txs|
  {
    if txs == [] then [] else Rows(txs[..|txs| - 1]) + [Row(txs[|txs| - 1])]
  }

  /** Row `k` is the row of transaction `k`. */
  lemma {:induction false} RowsAt(txs: seq<Transaction>, k: nat)
    requires k < |txs|
    ensures |Rows(txs)| == |txs| && Rows(txs)[k] == Row(txs[k])
  {
    if k < |txs| - 1 {
      RowsAt(txs[..|txs| - 1], k);
    }
  }

  /** `csvLines.join('\n')` with `csvLines` the header and then one row per transaction. */
  function CsvText(txs: seq<Transaction>): string
  {
    Join([Header] + Rows(txs), '\n')
  }

  /** The rows of one more transaction are the rows so far and its row. */
  lemma RowsPrefix(txs: seq<Transaction>, i: nat)
    requires i < |txs|
    ensures Rows(txs[..i + 1]) == Rows(txs[..i]) + [Row(txs[i])]
  {
    assert txs[..i + 1][..i] == txs[..i] && txs[..i + 1][i] == txs[i];
  }

  /** Builds `csvLines` row by row, joins it, and reports the transaction count. */
  method BuildCsv(txs: seq<Transaction>) returns (csv: string, count: nat)
    ensures csv == CsvText(txs)
    ensures count == |txs|
  {
    var lines := [Header];
    var i := 0;
    while i < |txs|
      invariant 0 <= i <= |txs|
      invariant lines == [Header] + Rows(txs[..i])
    {
      RowsPrefix(txs, i);
      lines := lines + [Row(txs[i])];
      i := i + 1;
    }
    assert txs[..i] == txs;
    csv := Join(lines, '\n');
    count := |txs|;
  }

  /** A row read back into its three columns. */
  datatype CsvRow = CsvRow(date: Option<CalendarDate>, description: string, amount: int)

  function ParseRow(line: string): Option<CsvRow>
  {
    var fields := Split(line, ',');
    if |fields| != 3 then None
    else
      var date := if fields[0] == "" then Some(None)
                  else match ParseDate(fields[0])
                       case Some(d) => Some(Some(d))
                       case None => None;
      match (date, ParseAmount(fields[2]))
      case (Some(d), Some(a)) => Some(CsvRow(d, fields[1], a))
      case _ => None
  }

  lemma AmountFieldShape(tx: Transaction)
    ensures ',' !in RenderAmount(SignedAmount(tx)) && '\n' !in RenderAmount(SignedAmount(tx))
  {
    var s := RenderAmount(SignedAmount(tx));
    RenderAmountShape(SignedAmount(tx));
    assert forall i :: 0 <= i < |s| ==> s[i] != ',' && s[i] != '\n';
  }

  /** Every row has exactly three columns: the date, the description and the amount. */
  lemma RowColumns(tx: Transaction)
    ensures Split(Row(tx), ',') ==
      [DateField(tx.timestamp), CsvDescription(tx), RenderAmount(SignedAmount(tx))]
  {
    var parts := [DateField(tx.timestamp), CsvDescription(tx), RenderAmount(SignedAmount(tx))];
    AmountFieldShape(tx);
    assert ',' !in parts[0] by {
      assert forall i :: 0 <= i < |parts[0]| ==> parts[0][i] != ',';
    }
    Join3(parts[0], parts[1], parts[2], ',');
    assert Row(tx) == Join(parts, ',');
    SplitJoin(parts, ',');
  }

  /** A row reads back as the record's date, cleaned description and signed amount. */
  lemma ParseRowOfRow(tx: Transaction)
    ensures ParseRow(Row(tx)) == Some(CsvRow(tx.timestamp, CsvDescription(tx), SignedAmount(tx)))
  {
    RowColumns(tx);
    ParseRenderAmount(SignedAmount(tx));
    if tx.timestamp.Some? {
      ParseFormatDate(tx.timestamp.value);
    }
  }

  /**
   * The text always begins with exactly the header line: the header, then
   * either the end of the text (no transactions) or a line break.
   */
  lemma CsvStartsWithHeader(txs: seq<Transaction>)
    ensures Header <= CsvText(txs)
    ensures |CsvText(txs)| == |Header| <==> txs == []
    ensures txs != [] ==> CsvText(txs)[|Header|] == '\n'
  {
    JoinHead([Header] + Rows(txs), '\n');
  }

  /** No chosen description holds a line break. */
  predicate NoLineBreaks(txs: seq<Transaction>)
  {
    forall k :: 0 <= k < |txs| ==> '\n' !in DescriptionSource(txs[k])
  }

  /** The line breaks inside the chosen descriptions, which the comma replacement leaves in place. */
  function DescriptionLineBreaks(txs: seq<Transaction>): nat
  {
    if txs == [] then 0
    else DescriptionLineBreaks(txs[..|txs| - 1]) + Occurrences(DescriptionSource(txs[|txs| - 1]), '\n')
  }

  lemma {:induction false} NoDescriptionLineBreaks(txs: seq<Transaction>)
    ensures DescriptionLineBreaks(txs) == 0 <==> NoLineBreaks(txs)
  {
    if txs != [] {
      var init := txs[..|txs| - 1];
      OccurrencesNone(DescriptionSource(txs[|txs| - 1]), '\n');
      NoDescriptionLineBreaks(init);
      assert forall k :: 0 <= k < |init| ==> init[k] == txs[k];
    }
  }

  /** A row holds exactly the line breaks of its chosen description. */
  lemma RowLineBreaks(tx: Transaction)
    ensures Occurrences(Row(tx), '\n') == Occurrences(DescriptionSource(tx), '\n')
  {
    var date, desc, amount := DateField(tx.timestamp), CsvDescription(tx), RenderAmount(SignedAmount(tx));
    AmountFieldShape(tx);
    assert '\n' !in date by {
      assert forall i :: 0 <= i < |date| ==> date[i] != '\n';
    }
    OccurrencesNone(date, '\n');
    OccurrencesNone(amount, '\n');
    OccurrencesNone(",", '\n');
    OccurrencesAppend(date, ",", '\n');
    OccurrencesAppend(date + ",", desc, '\n');
    OccurrencesAppend(date + "," + desc, ",", '\n');
    OccurrencesAppend(date + "," + desc + ",", amount, '\n');
    OccurrencesReplaceAll(DescriptionSource(tx), ',', ' ', '\n');
  }

  lemma RowBreaksIffDescriptionBreaks(tx: Transaction)
    ensures '\n' in Row(tx) <==> '\n' in DescriptionSource(tx)
  {
    RowLineBreaks(tx);
    OccurrencesNone(DescriptionSource(tx), '\n');
    OccurrencesNone(Row(tx), '\n');
  }

  lemma {:induction false} RowsLineBreaks(txs: seq<Transaction>)
    ensures OccurrencesIn(Rows(txs), '\n') == DescriptionLineBreaks(txs)
  {
    if txs != [] {
      var init := txs[..|txs| - 1];
      OccurrencesInSnoc(Rows(init), Row(txs[|txs| - 1]), '\n');
      RowLineBreaks(txs[|txs| - 1]);
      RowsLineBreaks(init);
    }
  }

  lemma HeaderHasNoLineBreak()
    ensures Occurrences(Header, '\n') == 0
  {
    assert forall i :: 0 <= i < |Header| ==> Header[i] != '\n';
    OccurrencesNone(Header, '\n');
  }

  /**
   * The text has one line for the header, one per transaction, and one more
   * for every line break inside a chosen description: commas are replaced,
   * line breaks are not.
   */
  lemma CsvLineCount(txs: seq<Transaction>)
    ensures |Split(CsvText(txs), '\n')| == 1 + |txs| + DescriptionLineBreaks(txs)
  {
    var rows := Rows(txs);
    var lines := [Header] + rows;
    SplitCount(CsvText(txs), '\n');
    JoinCount(lines, '\n');
    HeaderHasNoLineBreak();
    OccurrencesInCons(Header, rows, '\n');
    RowsLineBreaks(txs);
  }

  /**
   * Line integrity: the text has exactly `1 + |txs|` lines if and only if no
   * chosen description holds a line break, and then the lines are the header
   * and the rows, in order.
   */
  lemma CsvLines(txs: seq<Transaction>)
    ensures |Split(CsvText(txs), '\n')| == 1 + |txs| <==> NoLineBreaks(txs)
    ensures NoLineBreaks(txs) ==> Split(CsvText(txs), '\n') == [Header] + Rows(txs)
  {
    CsvLineCount(txs);
    NoDescriptionLineBreaks(txs);
    if NoLineBreaks(txs) {
      CsvLinesAreHeaderAndRows(txs);
    }
  }

  lemma CsvLinesAreHeaderAndRows(txs: seq<Transaction>)
    requires NoLineBreaks(txs)
    ensures Split(CsvText(txs), '\n') == [Header] + Rows(txs)
  {
    var rows := Rows(txs);
    RowsHaveNoLineBreak(txs);
    HeaderHasNoLineBreak();
    OccurrencesNone(Header, '\n');
    LinesWithoutBreaks(Header, rows, '\n');
    SplitJoin([Header] + rows, '\n');
  }

  lemma RowsHaveNoLineBreak(txs: seq<Transaction>)
    requires NoLineBreaks(txs)
    ensures forall k :: 0 <= k < |Rows(txs)| ==> '\n' !in Rows(txs)[k]
  {
    forall k | 0 <= k < |Rows(txs)| ensures '\n' !in Rows(txs)[k] {
      RowsAt(txs, k);
      RowBreaksIffDescriptionBreaks(txs[k]);
    }
  }

  /** With nothing collected the text is the header alone, and only then. */
  lemma HeaderOnly(txs: seq<Transaction>)
    ensures CsvText(txs) == Header <==> txs == []
  {
    CsvStartsWithHeader(txs);
  }

  /**
   * A debit of 4.50 on 15 January 2024 whose description is "Coffee, Shop":
   * the comma becomes a space beside the existing one, so two spaces remain.
   */
  lemma CoffeeShopRow(tx: Transaction)
    requires tx == Transaction(Some(CalendarDate(2024, 1, 15)), Some("Coffee, Shop"), None, Some("DEBIT"), 450)
    ensures Row(tx) == "15/01/2024,Coffee  Shop,-4.5"
  {
    var before, after := "Coffee", " Shop";
    CoffeeShopDate(tx.timestamp.value);
    var date := DateField(tx.timestamp);
    assert date == "15/01/2024";
    var source := DescriptionSource(tx);
    assert source == before + [','] + after;
    CoffeeShopDescription(before, after);
    var desc := CsvDescription(tx);
    assert desc == "Coffee  Shop";
    var amount := SignedAmount(tx);
    assert amount == -450;
    CoffeeShopAmount(amount);
    assert Row(tx) == date + "," + desc + "," + RenderAmount(amount);
    CoffeeShopLine(date, desc, RenderAmount(amount));
  }

  lemma CoffeeShopLine(date: string, desc: string, amount: string)
    requires date == "15/01/2024" && desc == "Coffee  Shop" && amount == "-4.5"
    ensures date + "," + desc + "," + amount == "15/01/2024,Coffee  Shop,-4.5"
  {
  }

  lemma CoffeeShopDate(d: CalendarDate)
    requires d == CalendarDate(2024, 1, 15)
    ensures FormatDate(d) == "15/01/2024"
  {
    assert FromNat(20) == "20";
    assert FromNat(202) == "202";
    assert FromNat(2024) == "2024";
    assert Pad2(15) == "15";
    assert Pad2(1) == "01";
  }

  lemma CoffeeShopDescription(before: string, after: string)
    requires before == "Coffee" && after == " Shop"
    ensures ReplaceAll(before + [','] + after, ',', ' ') == "Coffee  Shop"
  {
    ReplaceAllUntouched(before, ',', ' ');
    ReplaceAllUntouched(after, ',', ' ');
    ReplaceAllAround(before, after, ',', ' ');
  }

  lemma CoffeeShopAmount(amount: int)
    requires amount == -450
    ensures RenderAmount(amount) == "-4.5"
  {
    assert FromNat(4) == "4";
    assert FractionDigits(50) == "5";
  }
}

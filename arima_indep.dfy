/** Forecasts of the regressors over the prediction window: every column of
    the training table gets its own order search and seasonal ARIMA fit, and
    the forecasts are laid out on the prediction dates with the dependent
    column left empty.  The order search and the fit are external: the model
    receives the selected model's text form (`autoArima`) and the forecast
    (`sarimaxForecast`) as functions of their inputs. */
module ExogForecast {
  import opened Frames

  datatype Result<T, E> = Ok(value: T) | Err(error: E)

  /** Non-seasonal (p, d, q) and seasonal (P, D, Q) orders. */
  datatype Orders = Orders(p: nat, d: nat, q: nat, P: nat, D: nat, Q: nat)

  /** Why `int(text[pos])` fails: the text is too short, or the character
      there is not a digit. */
  datatype ParseError = IndexError(pos: nat) | ValueError(pos: nat)

  /** The characters read, in the order they are read. */
  const OrderPositions: seq<nat> := [7, 9, 11, 14, 16, 18]

  predicate IsDigit(ch: char)
  {
    '0' <= ch <= '9'
  }

  function DigitValue(ch: char): (n: nat)
    requires IsDigit(ch)
    ensures n <= 9
  {
    (ch as int) - ('0' as int)
  }

  function DigitChar(n: nat): (ch: char)
    requires n <= 9
    ensures IsDigit(ch) && DigitValue(ch) == n
  {
    (('0' as int) + n) as char
  }

  /** The error `int(text[pos])` raises, if any. */
  predicate FailsWith(text: string, e: ParseError)
  {
    match e
    case IndexError(pos) => pos >= |text|
    case ValueError(pos) => pos < |text| && !IsDigit(text[pos])
  }

  predicate Readable(text: string, pos: nat)
  {
    pos < |text| && IsDigit(text[pos])
  }

  /** `int(text[pos])` for each position in turn; the first failure stops
      the reading. */
  function ReadDigits(text: string, ps: seq<nat>): Result<seq<nat>, ParseError>
  {
    if ps == [] then Ok([])
    else if ps[0] >= |text| then Err(IndexError(ps[0]))
    else if !IsDigit(text[ps[0]]) then Err(ValueError(ps[0]))
    else
      var rest := ReadDigits(text, ps[1..]);
      if rest.Err? then Err(rest.error) else Ok([DigitValue(text[ps[0]])] + rest.value)
  }

  /** The reading succeeds exactly when every position holds a digit, and
      then yields those digits; otherwise it fails at the first position
      that does not, with the error `int` raises there. */
  lemma {:induction false} ReadDigitsSpec(text: string, ps: seq<nat>)
    ensures var r := ReadDigits(text, ps);
            (r.Ok? <==> forall i :: 0 <= i < |ps| ==> Readable(text, ps[i])) &&
            (r.Ok? ==> (|r.value| == |ps| &&
               forall i :: 0 <= i < |ps| ==> Readable(text, ps[i]) && r.value[i] == DigitValue(text[ps[i]]))) &&
            (r.Err? ==> exists j :: 0 <= j < |ps| && r.error.pos == ps[j] && FailsWith(text, r.error) &&
                                    forall i :: 0 <= i < j ==> Readable(text, ps[i]))
  {
    if ps != [] && ps[0] < |text| && IsDigit(text[ps[0]]) {
      ReadDigitsSpec(text, ps[1..]);
      var rest := ReadDigits(text, ps[1..]);
      assert forall i :: 1 <= i < |ps| ==> ps[i] == ps[1..][i - 1];
      if rest.Err? {
        var j :| 0 <= j < |ps[1..]| && rest.error.pos == ps[1..][j] && FailsWith(text, rest.error) &&
                 forall i :: 0 <= i < j ==> Readable(text, ps[1..][i]);
        assert ps[j + 1] == rest.error.pos;
      }
    }
  }

  /** All six order characters are there and are digits. */
  predicate Parsable(text: string)
  {
    Readable(text, 7) && Readable(text, 9) && Readable(text, 11) &&
    Readable(text, 14) && Readable(text, 16) && Readable(text, 18)
  }

  /** The six positions read are exactly those `Parsable` asks for. */
  lemma ParsableReads(text: string)
    ensures Parsable(text) <==> forall i :: 0 <= i < |OrderPositions| ==> Readable(text, OrderPositions[i])
  {
    assert OrderPositions[0] == 7 && OrderPositions[1] == 9 && OrderPositions[2] == 11;
    assert OrderPositions[3] == 14 && OrderPositions[4] == 16 && OrderPositions[5] == 18;
  }

  /** The order read from position `pos`. */
  function DigitAt(text: string, pos: nat): nat
    requires Readable(text, pos)
  {
    DigitValue(text[pos])
  }

  /** The parse as the source writes it: positions 7, 9, 11, 14, 16, 18 go
      to p, q, d, P, D, Q. */
  function ParseOrdersAsWritten(text: string): (r: Result<Orders, ParseError>)
    ensures r.Ok? <==> Parsable(text)
    ensures r.Ok? ==> r.value == Orders(DigitAt(text, 7), DigitAt(text, 11), DigitAt(text, 9),
                                        DigitAt(text, 14), DigitAt(text, 16), DigitAt(text, 18))
    ensures r.Err? ==> exists j :: 0 <= j < |OrderPositions| && r.error.pos == OrderPositions[j] &&
                                   FailsWith(text, r.error) &&
                                   forall i :: 0 <= i < j ==> Readable(text, OrderPositions[i])
  {
    ParsableReads(text);
    ReadDigitsSpec(text, OrderPositions);
    var v := ReadDigits(text, OrderPositions);
    if v.Err? then Err(v.error)
    else Ok(Orders(v.value[0], v.value[2], v.value[1], v.value[3], v.value[4], v.value[5]))
  }

  /** The parse the text form calls for: positions 7, 9, 11, 14, 16, 18 hold
      p, d, q, P, D, Q.  The characters are read in the same order, so the
      errors are those of the parse as written. */
  function ParseOrders(text: string): (r: Result<Orders, ParseError>)
    ensures r.Ok? <==> Parsable(text)
    ensures r.Ok? ==> SingleDigits(r.value)
  {
    ParsableReads(text);
    ReadDigitsSpec(text, OrderPositions);
    var v := ReadDigits(text, OrderPositions);
    if v.Err? then Err(v.error)
    else Ok(Orders(v.value[0], v.value[1], v.value[2], v.value[3], v.value[4], v.value[5]))
  }

  /** A failed parse names the first of the six positions, in reading
      order, whose character is missing or is not a digit. */
  lemma ParseOrdersFailure(text: string)
    ensures var r := ParseOrders(text);
            r.Err? ==> exists j :: 0 <= j < |OrderPositions| && r.error.pos == OrderPositions[j] &&
                                   FailsWith(text, r.error) &&
                                   forall i :: 0 <= i < j ==> Readable(text, OrderPositions[i])
  {
    ReadDigitsSpec(text, OrderPositions);
  }

  predicate SingleDigits(o: Orders)
  {
    o.p <= 9 && o.d <= 9 && o.q <= 9 && o.P <= 9 && o.D <= 9 && o.Q <= 9
  }

  /** The selected model's text form, ` ARIMA(p,d,q)(P,D,Q)` followed by the
      seasonal period and the trend note (`tail`, such as `[12] intercept`). */
  function Render(o: Orders, tail: string): (text: string)
    requires SingleDigits(o)
    ensures |text| == 20 + |tail| && text[20..] == tail
  {
    " ARIMA(" + [DigitChar(o.p), ',', DigitChar(o.d), ',', DigitChar(o.q)] + ")(" +
    [DigitChar(o.P), ',', DigitChar(o.D), ',', DigitChar(o.Q)] + ")" + tail
  }

  /** Rendering the characters of the text form, position by position. */
  lemma RenderChars(o: Orders, tail: string)
    requires SingleDigits(o)
    ensures var text := Render(o, tail);
            text[7] == DigitChar(o.p) && text[9] == DigitChar(o.d) && text[11] == DigitChar(o.q) &&
            text[14] == DigitChar(o.P) && text[16] == DigitChar(o.D) && text[18] == DigitChar(o.Q)
  {
  }

  /** The corrected parse reads back every order of the text form. */
  lemma ParseRender(o: Orders, tail: string)
    requires SingleDigits(o)
    ensures ParseOrders(Render(o, tail)) == Ok(o)
  {
    var text := Render(o, tail);
    RenderChars(o, tail);
    assert Parsable(text);
    ParsableReads(text);
    ReadDigitsSpec(text, OrderPositions);
    var v := ReadDigits(text, OrderPositions);
    assert v.value[1] == DigitValue(text[9]) && v.value[2] == DigitValue(text[11]);
  }

  /** The two parses fail alike and otherwise differ only in that d and q
      trade places. */
  lemma AsWrittenSwapsDQ(text: string)
    ensures ParseOrders(text).Err? ==> ParseOrdersAsWritten(text) == ParseOrders(text)
    ensures ParseOrders(text).Ok? ==>
              var o := ParseOrders(text).value;
              ParseOrdersAsWritten(text) == Ok(o.(d := o.q, q := o.d))
  {
  }

  /** On a real text form the parse as written is right exactly when d and q
      happen to be equal. */
  lemma AsWrittenRightIffDEqualsQ(o: Orders, tail: string)
    requires SingleDigits(o)
    ensures ParseOrdersAsWritten(Render(o, tail)) == Ok(o) <==> o.d == o.q
  {
    ParseRender(o, tail);
    AsWrittenSwapsDQ(Render(o, tail));
  }

  /** A selected ARIMA(0,1,2)(0,1,1)[12] is refitted as ARIMA(0,2,1). */
  lemma AsWrittenMisreadsExample()
    ensures ParseOrdersAsWritten(" ARIMA(0,1,2)(0,1,1)[12] intercept") == Ok(Orders(0, 2, 1, 0, 1, 1))
  {
    var text := " ARIMA(0,1,2)(0,1,1)[12] intercept";
    assert text[7] == '0' && text[9] == '1' && text[11] == '2';
    assert text[14] == '0' && text[16] == '1' && text[18] == '1';
    assert Parsable(text);
  }

  /** A text form cut short fails on the first position past its end. */
  lemma ShortTextFails(text: string)
    requires |text| <= 18 && Readable(text, 7) && Readable(text, 9) && Readable(text, 11) &&
             Readable(text, 14) && Readable(text, 16)
    ensures ParseOrders(text) == Err(IndexError(18))
  {
    var r := ParseOrders(text);
    ParseOrdersFailure(text);
    var j :| 0 <= j < |OrderPositions| && r.error.pos == OrderPositions[j] &&
             FailsWith(text, r.error) && forall i :: 0 <= i < j ==> Readable(text, OrderPositions[i]);
    assert j == 5;
  }

  /** `folder_`: spaces become underscores and ASCII capitals lower case. */
  function Slug(s: string): (r: string)
    ensures |r| == |s|
    ensures forall i :: 0 <= i < |s| ==> r[i] != ' ' && !('A' <= r[i] <= 'Z')
    ensures forall i :: 0 <= i < |s| && s[i] != ' ' && !('A' <= s[i] <= 'Z') ==> r[i] == s[i]
    ensures forall i :: 0 <= i < |s| && s[i] == ' ' ==> r[i] == '_'
    ensures forall i :: 0 <= i < |s| && 'A' <= s[i] <= 'Z' ==> r[i] as int == s[i] as int + 32
  {
    seq(|s|, i requires 0 <= i < |s| =>
      if s[i] == ' ' then '_'
      else if 'A' <= s[i] <= 'Z' then (s[i] as int - 'A' as int + 'a' as int) as char
      else s[i])
  }

  /** Making a slug twice changes nothing more. */
  lemma SlugIdempotent(s: string)
    ensures Slug(Slug(s)) == Slug(s)
  {
  }

  /** The forecast frame before the date filter: row i is dated
      `dateRange[i]` and holds the i-th forecast step of every column; the
      dependent column is then blanked, in place when the table has it and
      as a new last column otherwise.  The dates come from `date_range` and
      are already ascending, so the sort by date leaves the rows as they are. */
  function Laid(dateRange: seq<Date>, names: seq<string>, forecasts: seq<seq<real>>, depVar: string): (t: Table)
    requires Increasing(dateRange) && |forecasts| == |names|
    requires forall c :: 0 <= c < |names| ==> |forecasts[c]| == |dateRange|
    ensures Valid(t) && Dates(t.rows) == dateRange
    ensures t.names == if depVar in names then names else names + [depVar]
    ensures Column(t, ColumnPos(names, depVar)) == Blank(|dateRange|)
    ensures forall i, c :: 0 <= i < |t.rows| && 0 <= c < |names| && names[c] != depVar ==>
              t.rows[i].cells[c] == Some(forecasts[c][i])
  {
    var cols := seq(|names|, c requires 0 <= c < |names| => Lift(forecasts[c]));
    var t := FromColumns(dateRange, names, cols);
    var r := AssignColumn(t, depVar, Blank(|dateRange|));
    assert forall i, c :: 0 <= i < |r.rows| && 0 <= c < |names| && names[c] != depVar ==>
             r.rows[i].cells[c] == Some(forecasts[c][i]) by {
      forall i, c | 0 <= i < |r.rows| && 0 <= c < |names| && names[c] != depVar
        ensures r.rows[i].cells[c] == Some(forecasts[c][i])
      {
        assert c != ColumnPos(names, depVar);
        assert Column(t, c)[i] == cols[c][i];
      }
    }
    r
  }

  /** The table written out: the laid-out forecasts restricted to rows dated
      on or before the end of the prediction window. */
  function Assembled(dateRange: seq<Date>, names: seq<string>, forecasts: seq<seq<real>>, depVar: string,
                     end: Date): (t: Table)
    requires Increasing(dateRange) && |forecasts| == |names|
    requires forall c :: 0 <= c < |names| ==> |forecasts[c]| == |dateRange|
    ensures Valid(t) && t.names == Laid(dateRange, names, forecasts, depVar).names
    ensures forall i :: 0 <= i < |t.rows| ==> t.rows[i].date <= end
  {
    UpTo(Laid(dateRange, names, forecasts, depVar), end)
  }

  /** The dates of `date_range(init, end)` never pass `end`, so the filter
      keeps every row. */
  lemma AssembledKeepsAll(dateRange: seq<Date>, names: seq<string>, forecasts: seq<seq<real>>, depVar: string,
                          init: Date, end: Date)
    requires IsDateRange(dateRange, init, end) && |forecasts| == |names|
    requires forall c :: 0 <= c < |names| ==> |forecasts[c]| == |dateRange|
    ensures Assembled(dateRange, names, forecasts, depVar, end) == Laid(dateRange, names, forecasts, depVar)
  {
    var t := Laid(dateRange, names, forecasts, depVar);
    FilterKeepsAll(t.rows, (x: Row) => x.date <= end);
  }

  /** What the written table holds when the window is a date range: one row
      per prediction date, in order; column c is the forecast of column c;
      the dependent column is empty on every row. */
  lemma AssembledContents(dateRange: seq<Date>, names: seq<string>, forecasts: seq<seq<real>>, depVar: string,
                          init: Date, end: Date)
    requires IsDateRange(dateRange, init, end) && |forecasts| == |names|
    requires forall c :: 0 <= c < |names| ==> |forecasts[c]| == |dateRange|
    ensures var t := Assembled(dateRange, names, forecasts, depVar, end);
            Dates(t.rows) == dateRange &&
            (forall i :: 0 <= i < |t.rows| ==> t.rows[i].cells[ColumnPos(names, depVar)] == None) &&
            forall i, c :: 0 <= i < |t.rows| && 0 <= c < |names| && names[c] != depVar ==>
              t.rows[i].cells[c] == Some(forecasts[c][i])
  {
    AssembledKeepsAll(dateRange, names, forecasts, depVar, init, end);
    var t := Laid(dateRange, names, forecasts, depVar);
    forall i | 0 <= i < |t.rows| ensures t.rows[i].cells[ColumnPos(names, depVar)] == None {
      assert Column(t, ColumnPos(names, depVar))[i] == Blank(|dateRange|)[i];
    }
  }

  /** The SARIMAX specification the last fit was made from: the column, its
      orders, the seasonal period and the constant trend. */
  datatype Fit = Fit(column: string, orders: Orders, period: nat, trend: string)

  datatype ArimaError =
    | NoColumns                                  // the forecast dates are never computed
    | OrderText(column: string, error: ParseError)

  /** `Arima_indep`: the training table (every column, the dependent one
      included) and the prediction window. */
  class ArimaIndep {
    const dataAll: Table
    const depVar: string
    const folder: string
    const period: string
    const pValueAccepted: real
    const datePredictInit: Date
    const datePredictEnd: Date
    const freq: string
    const folderSlug: string
    var modelFit: Option<Fit>

    constructor (data: Table, depVariable: string, indepVariables: string, period: string,
                 datePredictInit: Date, datePredictEnd: Date, freq: string, pValueAccepted: real)
      requires Valid(data)
      ensures dataAll == data && depVar == depVariable && folder == indepVariables && this.period == period
      ensures this.datePredictInit == datePredictInit && this.datePredictEnd == datePredictEnd
      ensures this.freq == freq && this.pValueAccepted == pValueAccepted
      ensures folderSlug == Slug(indepVariables) && modelFit == None
    {
      dataAll := data;
      depVar := depVariable;
      folder := indepVariables;
      this.period := period;
      this.pValueAccepted := pValueAccepted;
      this.datePredictInit := datePredictInit;
      this.datePredictEnd := datePredictEnd;
      this.freq := freq;
      folderSlug := Slug(indepVariables);
      modelFit := None;
    }

    /** The text form of the model selected for column c. */
    function Selected(autoArima: (seq<Cell>, nat) -> string, s: nat, c: nat): string
      requires Valid(dataAll) && c < |dataAll.names|
    {
      autoArima(Column(dataAll, c), s)
    }

    /** Every column's text form parses, up to (not including) column n. */
    predicate ParsesBefore(autoArima: (seq<Cell>, nat) -> string, s: nat, n: nat)
      requires Valid(dataAll) && n <= |dataAll.names|
    {
      forall j :: 0 <= j < n ==> ParseOrders(Selected(autoArima, s, j)).Ok?
    }

    /** The forecast of column c, `h` steps from its refitted model. */
    function ColumnForecast(autoArima: (seq<Cell>, nat) -> string, sarimaxForecast: (seq<Cell>, Orders, nat, nat) -> seq<real>,
                            s: nat, h: nat, c: nat): seq<real>
      requires Valid(dataAll) && c < |dataAll.names| && ParseOrders(Selected(autoArima, s, c)).Ok?
    {
      sarimaxForecast(Column(dataAll, c), ParseOrders(Selected(autoArima, s, c)).value, s, h)
    }

    /** The forecasts of every column, in column order. */
    function Forecasts(autoArima: (seq<Cell>, nat) -> string, sarimaxForecast: (seq<Cell>, Orders, nat, nat) -> seq<real>,
                       s: nat, h: nat): (fs: seq<seq<real>>)
      requires Valid(dataAll) && ParsesBefore(autoArima, s, |dataAll.names|)
      ensures |fs| == |dataAll.names|
      ensures forall c :: 0 <= c < |fs| ==> fs[c] == ColumnForecast(autoArima, sarimaxForecast, s, h, c)
    {
      seq(|dataAll.names|, c requires 0 <= c < |dataAll.names| => ColumnForecast(autoArima, sarimaxForecast, s, h, c))
    }

    /** The model fitted last after columns 0 .. n-1. */
    function FitAfter(autoArima: (seq<Cell>, nat) -> string, s: nat, n: nat, before: Option<Fit>): Option<Fit>
      requires Valid(dataAll) && n <= |dataAll.names| && ParsesBefore(autoArima, s, n)
    {
      if n == 0 then before
      else Some(Fit(dataAll.names[n - 1], ParseOrders(Selected(autoArima, s, n - 1)).value, s, "c"))
    }

    /** One pass of the column loop: select a model for column c, parse its
        orders, refit and forecast `h` steps.  A text form that does not
        parse raises before the fit, so the last fit stays as it was. */
    method FitColumn(s: nat, autoArima: (seq<Cell>, nat) -> string,
                     sarimaxForecast: (seq<Cell>, Orders, nat, nat) -> seq<real>, h: nat, c: nat)
      returns (parsed: Result<Orders, ParseError>, predict: seq<real>)
      requires Valid(dataAll) && c < |dataAll.names|
      modifies this`modelFit
      ensures parsed == ParseOrders(Selected(autoArima, s, c))
      ensures parsed.Err? ==> modelFit == old(modelFit)
      ensures parsed.Ok? ==> modelFit == Some(Fit(dataAll.names[c], parsed.value, s, "c")) &&
                             predict == ColumnForecast(autoArima, sarimaxForecast, s, h, c)
    {
      var text := autoArima(Column(dataAll, c), s);
      parsed := ParseOrders(text);
      predict := [];
      if parsed.Ok? {
        modelFit := Some(Fit(dataAll.names[c], parsed.value, s, "c"));
        predict := sarimaxForecast(Column(dataAll, c), parsed.value, s, h);
      }
    }

    /** `auto_arima_model(s)`: for each column, selects a model, refits it
        with the parsed orders and forecasts `|dateRange|` steps; then lays
        the forecasts out on the prediction dates.  A text form that does
        not parse stops the run at that column; with no column at all the
        forecast dates are never computed. */
    method AutoArimaModel(s: nat, autoArima: (seq<Cell>, nat) -> string,
                          sarimaxForecast: (seq<Cell>, Orders, nat, nat) -> seq<real>, dateRange: seq<Date>)
      returns (r: Result<Table, ArimaError>)
      requires Valid(dataAll) && IsDateRange(dateRange, datePredictInit, datePredictEnd)
      requires forall col, o, m, h :: |sarimaxForecast(col, o, m, h)| == h
      modifies this`modelFit
      ensures |dataAll.names| == 0 ==> r == Err(NoColumns) && modelFit == old(modelFit)
      ensures r.Ok? ==>
                ParsesBefore(autoArima, s, |dataAll.names|) &&
                r.value == Assembled(dateRange, dataAll.names, Forecasts(autoArima, sarimaxForecast, s, |dateRange|),
                                     depVar, datePredictEnd) &&
                modelFit == FitAfter(autoArima, s, |dataAll.names|, old(modelFit))
      ensures r.Err? && |dataAll.names| > 0 ==>
                exists c :: 0 <= c < |dataAll.names| && ParsesBefore(autoArima, s, c) &&
                  ParseOrders(Selected(autoArima, s, c)).Err? &&
                  r.error == OrderText(dataAll.names[c], ParseOrders(Selected(autoArima, s, c)).error) &&
                  modelFit == FitAfter(autoArima, s, c, old(modelFit))
    {
      var names := dataAll.names;
      if |names| == 0 {
        return Err(NoColumns);
      }
      var forecasts: seq<seq<real>> := [];
      var c := 0;
      while c < |names|
        invariant 0 <= c <= |names| && |forecasts| == c && ParsesBefore(autoArima, s, c)
        invariant forall j :: 0 <= j < c ==> forecasts[j] == ColumnForecast(autoArima, sarimaxForecast, s, |dateRange|, j)
        invariant modelFit == FitAfter(autoArima, s, c, old(modelFit))
      {
        var parsed, predict := FitColumn(s, autoArima, sarimaxForecast, |dateRange|, c);
        if parsed.Err? {
          r := Err(OrderText(names[c], parsed.error));
          return;
        }
        forecasts := forecasts + [predict];
        c := c + 1;
      }
      assert forecasts == Forecasts(autoArima, sarimaxForecast, s, |dateRange|);
      r := Ok(Assembled(dateRange, names, forecasts, depVar, datePredictEnd));
    }
  }
}

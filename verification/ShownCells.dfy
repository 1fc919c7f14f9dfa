/** What a driver value looks like in the result table: `render_markdown_table` of app/chat/answerer.py on rows that were converted
    for the cache. */
module ShownCells {
  import opened Wrappers
  import opened ResultCaching
  import opened Totals
  import opened ReportedTotals
  import opened Answerer

  // ---- Escaping ----

  /** A pipe with a backslash in front is read as a pipe. */
  function Unescape(s: string): string
    decreases |s|
  {
    if s == "" then ""
    else if |s| > 1 && s[0] == '\\' && s[1] == '|' then "|" + Unescape(s[2..])
    else [s[0]] + Unescape(s[1..])
  }

  /** Newlines as spaces. */
  function OneLine(s: string): string {
    seq(|s|, k requires 0 <= k < |s| => if s[k] == '\n' then ' ' else s[k])
  }

  /** Escaping loses nothing but newlines. */
  lemma {:induction false} EscapeReadsBack(s: string)
    ensures Unescape(Escape(s)) == OneLine(s)
  {
    if s != "" {
      EscapeReadsBack(s[1..]);
      var e, rest := Escape(s), Escape(s[1..]);
      assert OneLine(s) == [OneLine(s)[0]] + OneLine(s[1..]);
      EscapeStart(s[1..]);
      if s[0] == '|' {
        assert e[2..] == rest;
      } else {
        assert e[1..] == rest;
      }
    }
  }

  lemma EscapeStart(s: string)
    ensures Escape(s) == "" || Escape(s)[0] != '|'
  {
  }

  /** Every pipe in an escaped text has a backslash in front, so no cell ends early. */
  lemma {:induction false} EscapedPipes(s: string)
    ensures forall k :: 0 <= k < |Escape(s)| && Escape(s)[k] == '|' ==> k > 0 && Escape(s)[k - 1] == '\\'
  {
    if s != "" {
      EscapedPipes(s[1..]);
      var e, rest := Escape(s), Escape(s[1..]);
      var n := |e| - |rest|;
      assert forall k :: n <= k < |e| ==> e[k] == rest[k - n];
    }
  }

  // ---- Money ----

  /** A word for an amount of money. */
  predicate IsMoneyWord(word: string) {
    || word == "revenue" || word == "sales" || word == "value" || word == "amount" || word == "amt" || word == "gross" || word == "net"
    || word == "mrp" || word == "price" || word == "spend" || word == "purchase" || word == "outstanding" || word == "turnover"
  }

  /** A word for something counted or measured otherwise. */
  predicate IsOtherWord(word: string) {
    || word == "qty" || word == "quantity" || word == "count" || word == "outlets" || word == "perc" || word == "percent"
    || word == "pct" || word == "days" || word == "number" || word == "distance"
  }

  ghost predicate NamesMoney(column: string) {
    && (exists word, p :: IsMoneyWord(word) && StandsAt(column, word, p))
    && !(exists word, p :: IsOtherWord(word) && StandsAt(column, word, p))
  }

  lemma MoneyHints(k: nat)
    requires k < |MONEY_HINTS|
    ensures IsMoneyWord(MONEY_HINTS[k]) && NoUpperCase(MONEY_HINTS[k])
  {
  }

  lemma OtherHints(k: nat)
    requires k < |NON_MONEY_HINTS|
    ensures IsOtherWord(NON_MONEY_HINTS[k]) && NoUpperCase(NON_MONEY_HINTS[k])
  {
  }

  lemma MoneyHinted(word: string) returns (k: nat)
    requires IsMoneyWord(word)
    ensures k < |MONEY_HINTS| && MONEY_HINTS[k] == word
  {
    k := if word == "revenue" then 0 else if word == "sales" then 1 else if word == "value" then 2 else if word == "amount" then 3
         else if word == "amt" then 4 else if word == "gross" then 5 else if word == "net" then 6 else if word == "mrp" then 7
         else if word == "price" then 8 else if word == "spend" then 9 else if word == "purchase" then 10
         else if word == "outstanding" then 11 else 12;
  }

  lemma OtherHinted(word: string) returns (k: nat)
    requires IsOtherWord(word)
    ensures k < |NON_MONEY_HINTS| && NON_MONEY_HINTS[k] == word
  {
    k := if word == "qty" then 0 else if word == "quantity" then 1 else if word == "count" then 2 else if word == "outlets" then 3
         else if word == "perc" then 4 else if word == "percent" then 5 else if word == "pct" then 6 else if word == "days" then 7
         else if word == "number" then 8 else 9;
  }

  lemma HintIs(name: string, hints: seq<string>)
    requires forall k :: 0 <= k < |hints| ==> NoUpperCase(hints[k])
    ensures HasAnyHint(name, hints) <==> exists k, p :: 0 <= k < |hints| && StandsAt(name, hints[k], p)
  {
    forall k | 0 <= k < |hints| ensures Contains(Lower(name), hints[k]) <==> exists p :: StandsAt(name, hints[k], p) {
      ContainsIs(name, hints[k]);
    }
  }

  /** A column of money: its name has a word for money, in any case, and none for anything else. */
  lemma MoneyIs(column: string)
    ensures IsMoneyColumn(column) <==> NamesMoney(column)
  {
    HasMoneyWord(column);
    HasOtherWord(column);
  }

  lemma HasMoneyWord(column: string)
    ensures HasAnyHint(column, MONEY_HINTS) <==> exists word, p :: IsMoneyWord(word) && StandsAt(column, word, p)
  {
    forall k | 0 <= k < |MONEY_HINTS| ensures IsMoneyWord(MONEY_HINTS[k]) && NoUpperCase(MONEY_HINTS[k]) {
      MoneyHints(k);
    }
    HintIs(column, MONEY_HINTS);
    if word, p :| IsMoneyWord(word) && StandsAt(column, word, p) {
      var k := MoneyHinted(word);
      assert StandsAt(column, MONEY_HINTS[k], p);
    }
  }

  lemma HasOtherWord(column: string)
    ensures HasAnyHint(column, NON_MONEY_HINTS) <==> exists word, p :: IsOtherWord(word) && StandsAt(column, word, p)
  {
    forall k | 0 <= k < |NON_MONEY_HINTS| ensures IsOtherWord(NON_MONEY_HINTS[k]) && NoUpperCase(NON_MONEY_HINTS[k]) {
      OtherHints(k);
    }
    HintIs(column, NON_MONEY_HINTS);
    if word, p :| IsOtherWord(word) && StandsAt(column, word, p) {
      var k := OtherHinted(word);
      assert StandsAt(column, NON_MONEY_HINTS[k], p);
    }
  }

  // ---- Cells ----

  /** The text that a value stands for: a text itself, a date its ISO form, bytes their decoding or else their `repr`. */
  function TextOfValue(v: CellValue): Option<string> {
    if v.StrCell? then Some(v.s)
    else if v.DateCell? then Some(v.iso)
    else if v.BytesCell? then Some(if v.decoded.Some? then v.decoded.value else v.repr)
    else None
  }

  /** The number that a value stands for, as the cell that is printed: a Decimal is shown as a float. */
  function NumberOfValue(v: CellValue): Option<CellValue> {
    if v.IntCell? || v.FloatCell? then Some(v) else if v.DecimalCell? then Some(FloatCell(v.d)) else None
  }

  /** What the table shows of a row that came from the database: nothing for a missing value, texts escaped, numbers as rupees under
      a money column and printed plainly elsewhere. */
  lemma ShownIs(p: Printer, column: string, row: RowDict)
    ensures var shown := Cell(p, column, JsonableRow(row));
      if column !in row || row[column].NoneCell? then shown == ""
      else
        var v := row[column];
        && (TextOfValue(v).Some? ==> Unescape(shown) == OneLine(TextOfValue(v).value))
        && (NumberOfValue(v).Some? ==>
              if NamesMoney(column) then shown == p.rupees(NumberOfValue(v).value)
              else Unescape(shown) == OneLine(p.str(NumberOfValue(v).value)))
        && (v.BoolCell? ==> Unescape(shown) == OneLine(p.str(v)))
  {
    MoneyIs(column);
    if column in row {
      var v := JsonableValue(row[column]);
      EscapeReadsBack(if v.StrCell? then v.s else p.str(v));
    }
  }
}

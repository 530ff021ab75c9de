/** The plain-text layout of a stored bill, as `download_bill` builds it.
    How an amount is printed with two decimals is left to a formatting
    function `fmt` supplied by the caller. */
module BillExport {
  import opened BillTypes

  const HEADER := "===== Bill Summary ====="
  const FOOTER := "========================="
  const TOTAL_LABEL := "Total Bill: THB "
  const NOT_FOUND_STATUS := 404
  const NOT_FOUND_BODY := "Bill not found"
  const OK_STATUS := 200

  function CreatedLine(timestamp: string): string {
    "Created: " + timestamp + "\n\n"
  }

  function ResultLine(r: PersonTotal, fmt: real -> string): string {
    r.name + ": THB " + fmt(r.amount) + "\n"
  }

  function TotalLine(total: real, fmt: real -> string): string {
    "\n" + TOTAL_LABEL + fmt(total) + "\n"
  }

  /** The result lines, one per entry, in stored order. */
  function ResultLines(rs: seq<PersonTotal>, fmt: real -> string): string {
    if rs == [] then ""
    else ResultLines(rs[..|rs| - 1], fmt) + ResultLine(rs[|rs| - 1], fmt)
  }

  /** The whole text: header, creation line, result lines, total line, footer. */
  function ExportText(bill: BillRecord, fmt: real -> string): string {
    HEADER + "\n" + CreatedLine(bill.timestamp) + ResultLines(bill.results, fmt) + TotalLine(bill.total, fmt) + FOOTER + "\n"
  }

  // ---------------------------------------------------------------------
  // Properties of the layout
  // ---------------------------------------------------------------------

  /** The text opens with the header and the creation line and closes with
      the total line and the footer. */
  lemma ExportFrame(bill: BillRecord, fmt: real -> string)
    ensures var text := ExportText(bill, fmt);
      var head := HEADER + "\n" + "Created: " + bill.timestamp + "\n\n";
      var tail := "\n" + TOTAL_LABEL + fmt(bill.total) + "\n" + FOOTER + "\n";
      |head| + |tail| <= |text| && text[..|head|] == head && text[|text| - |tail|..] == tail &&
      text[|head|..|text| - |tail|] == ResultLines(bill.results, fmt)
  {
    var head := HEADER + "\n" + "Created: " + bill.timestamp + "\n\n";
    var tail := "\n" + TOTAL_LABEL + fmt(bill.total) + "\n" + FOOTER + "\n";
    var lines := ResultLines(bill.results, fmt);
    assert ExportText(bill, fmt) == head + lines + tail;
  }

  /** The line of entry `i` follows the lines of the entries before it: the
      lines appear in stored order. */
  lemma {:induction false} LineInOrder(rs: seq<PersonTotal>, fmt: real -> string, i: nat)
    requires i < |rs|
    ensures var before := ResultLines(rs[..i], fmt) + ResultLine(rs[i], fmt);
      |before| <= |ResultLines(rs, fmt)| && ResultLines(rs, fmt)[..|before|] == before
  {
    var n := |rs|;
    var init := rs[..n - 1];
    if i == n - 1 {
      assert rs[..i] == init;
    } else {
      LineInOrder(init, fmt, i);
      assert init[..i] == rs[..i] && init[i] == rs[i];
      var before := ResultLines(rs[..i], fmt) + ResultLine(rs[i], fmt);
      var whole := ResultLines(init, fmt);
      assert ResultLines(rs, fmt) == whole + ResultLine(rs[n - 1], fmt);
      assert (whole + ResultLine(rs[n - 1], fmt))[..|before|] == whole[..|before|];
    }
  }

  /** How many newline characters `s` holds. */
  function Newlines(s: string): nat {
    if s == "" then 0
    else Newlines(s[..|s| - 1]) + (if s[|s| - 1] == '\n' then 1 else 0)
  }

  lemma {:induction false} NewlinesAppend(a: string, b: string)
    ensures Newlines(a + b) == Newlines(a) + Newlines(b)
  {
    if b != "" {
      assert (a + b)[..|a + b| - 1] == a + b[..|b| - 1];
      NewlinesAppend(a, b[..|b| - 1]);
    } else {
      assert a + b == a;
    }
  }

  lemma {:induction false} NoNewlines(s: string)
    requires '\n' !in s
    ensures Newlines(s) == 0
  {
    if s != "" {
      NoNewlines(s[..|s| - 1]);
    }
  }

  /** No name or printed amount of the bill holds a line break. */
  predicate SingleLineFields(bill: BillRecord, fmt: real -> string) {
    '\n' !in bill.timestamp && '\n' !in fmt(bill.total) &&
    forall i :: 0 <= i < |bill.results| ==> '\n' !in bill.results[i].name && '\n' !in fmt(bill.results[i].amount)
  }

  lemma {:induction false} ResultLinesCount(rs: seq<PersonTotal>, fmt: real -> string)
    requires forall i :: 0 <= i < |rs| ==> '\n' !in rs[i].name && '\n' !in fmt(rs[i].amount)
    ensures Newlines(ResultLines(rs, fmt)) == |rs|
  {
    if rs != [] {
      var init := rs[..|rs| - 1];
      var r := rs[|rs| - 1];
      ResultLinesCount(init, fmt);
      NewlinesAppend(ResultLines(init, fmt), ResultLine(r, fmt));
      NewlinesAppend(r.name + ": THB " + fmt(r.amount), "\n");
      NewlinesAppend(r.name + ": THB ", fmt(r.amount));
      NewlinesAppend(r.name, ": THB ");
      NoNewlines(r.name);
      NoNewlines(fmt(r.amount));
      NoNewlines(": THB ");
      LineBreaks();
    }
  }

  lemma LineBreaks()
    ensures Newlines("\n") == 1 && Newlines("\n\n") == 2
  {
    assert "\n"[..0] == "";
    assert "\n\n"[..1] == "\n";
  }

  lemma HeadCount(timestamp: string)
    requires '\n' !in timestamp
    ensures Newlines(HEADER + "\n" + "Created: " + timestamp + "\n\n") == 3
  {
    LineBreaks();
    NoNewlines(HEADER);
    NoNewlines("Created: ");
    NoNewlines(timestamp);
    NewlinesAppend(HEADER, "\n");
    NewlinesAppend(HEADER + "\n", "Created: ");
    NewlinesAppend(HEADER + "\n" + "Created: ", timestamp);
    NewlinesAppend(HEADER + "\n" + "Created: " + timestamp, "\n\n");
  }

  lemma TailCount(total: string)
    requires '\n' !in total
    ensures Newlines("\n" + TOTAL_LABEL + total + "\n" + FOOTER + "\n") == 3
  {
    LineBreaks();
    NoNewlines(TOTAL_LABEL);
    NoNewlines(FOOTER);
    NoNewlines(total);
    NewlinesAppend("\n", TOTAL_LABEL);
    NewlinesAppend("\n" + TOTAL_LABEL, total);
    NewlinesAppend("\n" + TOTAL_LABEL + total, "\n");
    NewlinesAppend("\n" + TOTAL_LABEL + total + "\n", FOOTER);
    NewlinesAppend("\n" + TOTAL_LABEL + total + "\n" + FOOTER, "\n");
  }

  /** When no field holds a line break, the text has exactly one line per
      entry besides its six fixed line breaks (header, creation line, the
      blank line after it, the blank line before the total, the total line,
      the footer). */
  lemma ExportLineCount(bill: BillRecord, fmt: real -> string)
    requires SingleLineFields(bill, fmt)
    ensures Newlines(ExportText(bill, fmt)) == |bill.results| + 6
  {
    var head := HEADER + "\n" + "Created: " + bill.timestamp + "\n\n";
    var tail := "\n" + TOTAL_LABEL + fmt(bill.total) + "\n" + FOOTER + "\n";
    var lines := ResultLines(bill.results, fmt);
    assert ExportText(bill, fmt) == head + lines + tail;
    HeadCount(bill.timestamp);
    TailCount(fmt(bill.total));
    ResultLinesCount(bill.results, fmt);
    NewlinesAppend(head, lines);
    NewlinesAppend(head + lines, tail);
  }
}

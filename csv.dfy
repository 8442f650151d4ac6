/** The lead log `users.csv`: the row `appendToCsv` writes for a lead, and a
  reader for such rows, so that every row can be shown to give back the
  fields it was written from.

  Every cell is quoted as section 2 of RFC 4180 describes: the text is
  wrapped in double quotes and each double quote inside it is doubled.
  Unlike that section, which ends records with CRLF, each row here ends
  with a bare line feed `\n`. */
module Csv {
  import opened Js
  import opened Records

  const Quote: char := '"'

  /** The header line a fresh `users.csv` starts with. */
  const Header: string := "fullName,email,mobile,college,city,state,createdAt\n"

  /** One character as the quoting writes it: a double quote doubled. */
  function EscapeChar(c: char): string
  {
    if c == Quote then [Quote, Quote] else [c]
  }

  /** `s.replace(/"/g, '""')`: every double quote doubled. */
  function Escape(s: string): (r: string)
    ensures |r| >= |s|
    ensures Quote !in s ==> r == s
  {
    if s == [] then [] else EscapeChar(s[0]) + Escape(s[1..])
  }

  /** One cell: `'"' + String(v ?? '').replace(/"/g, '""') + '"'`. */
  function Cell(v: Option<string>): (r: string)
    ensures |r| >= 2 && r[0] == Quote && r[|r| - 1] == Quote
    ensures v == None ==> r == [Quote, Quote]
  {
    [Quote] + Escape(v.GetOr("")) + [Quote]
  }

  /** The cells of a row, one per value, in order (the `.map` step). */
  function Cells(values: seq<Option<string>>): (r: seq<string>)
    ensures |r| == |values|
    ensures forall i :: 0 <= i < |r| ==> r[i] == Cell(values[i])
  {
    if values == [] then [] else [Cell(values[0])] + Cells(values[1..])
  }

  /** `.join(',')`. */
  function JoinCommas(cells: seq<string>): (r: string)
    ensures cells != [] ==> cells[0] <= r
  {
    if cells == [] then ""
    else if |cells| == 1 then cells[0]
    else cells[0] + "," + JoinCommas(cells[1..])
  }

  /** A whole row: the quoted cells joined with commas, then a newline. */
  function FormatRow(values: seq<Option<string>>): (r: string)
    ensures |r| > 0 && r[|r| - 1] == '\n'
    ensures values != [] ==> r[0] == Quote
  {
    JoinCommas(Cells(values)) + "\n"
  }

  /** The seven columns of the log, in header order. */
  function LeadColumns(l: Lead): (r: seq<Option<string>>)
    ensures |r| == 7
  {
    [Some(l.fullName), Some(l.email), Some(l.mobile), Some(l.college),
     Some(l.city), Some(l.state), Some(l.createdAt)]
  }

  /** The row `appendToCsv` appends for a lead. */
  function LeadRow(l: Lead): (r: string)
    ensures |r| > 0 && r[0] == Quote && r[|r| - 1] == '\n'
  {
    FormatRow(LeadColumns(l))
  }

  /** What a reader takes from each value: its text, or `''` for none. */
  function Texts(values: seq<Option<string>>): (r: seq<string>)
    ensures |r| == |values|
  {
    if values == [] then [] else [values[0].GetOr("")] + Texts(values[1..])
  }

  /** Puts `c` in front of the text of a successful read. */
  function Prepend(c: char, r: Option<(string, string)>): Option<(string, string)>
  {
    if r.None? then None else Some(([c] + r.value.0, r.value.1))
  }

  /** Reads the rest of a quoted cell after its opening quote: a doubled
    quote stands for one quote, a single quote closes the cell. Gives the
    cell's text and what follows the closing quote, or `None` when the
    input ends inside the cell. */
  function ReadQuoted(s: string): (r: Option<(string, string)>)
    ensures r.Some? ==> |r.value.1| < |s|
  {
    if s == [] then None
    else if s[0] != Quote then Prepend(s[0], ReadQuoted(s[1..]))
    else if |s| >= 2 && s[1] == Quote then Prepend(Quote, ReadQuoted(s[2..]))
    else Some(("", s[1..]))
  }

  /** Reads a row of quoted cells separated by commas and ended by a
    newline; `None` when the row is not of that form. */
  function DecodeRow(row: string): (r: Option<seq<string>>)
    ensures r.Some? ==> |r.value| > 0
    decreases |row|
  {
    if row == [] || row[0] != Quote then None
    else
      match ReadQuoted(row[1..])
      case None => None
      case Some((text, rest)) =>
        if rest == "\n" then Some([text])
        else if rest != [] && rest[0] == ',' then
          match DecodeRow(rest[1..])
          case None => None
          case Some(more) => Some([text] + more)
        else None
  }

  /** A lone quote closes the cell. */
  lemma ReadQuotedClose(rest: string)
    requires rest == [] || rest[0] != Quote
    ensures ReadQuoted([Quote] + rest) == Some(("", rest))
  {
    assert ([Quote] + rest)[1..] == rest;
  }

  /** Inside a cell, an escaped character reads back as that character. */
  lemma ReadQuotedChar(c: char, tail: string, text: string, rest: string)
    requires ReadQuoted(tail) == Some((text, rest))
    ensures ReadQuoted(EscapeChar(c) + tail) == Some(([c] + text, rest))
  {
    if c == Quote {
      assert ([Quote, Quote] + tail)[2..] == tail;
    } else {
      assert ([c] + tail)[1..] == tail;
    }
  }

  /** An escaped text followed by the closing quote reads back as the
    text, whatever follows the quote (provided it is not another quote). */
  lemma {:induction false} ReadQuotedEscape(v: string, rest: string)
    requires rest == [] || rest[0] != Quote
    ensures ReadQuoted(Escape(v) + [Quote] + rest) == Some((v, rest))
  {
    if v == [] {
      assert Escape(v) + [Quote] + rest == [Quote] + rest;
      ReadQuotedClose(rest);
    } else {
      var tail := Escape(v[1..]) + [Quote] + rest;
      assert Escape(v) + [Quote] + rest == EscapeChar(v[0]) + tail by {
        assert Escape(v) == EscapeChar(v[0]) + Escape(v[1..]);
      }
      ReadQuotedEscape(v[1..], rest);
      ReadQuotedChar(v[0], tail, v[1..], rest);
      assert [v[0]] + v[1..] == v;
    }
  }

  /** A row is its first cell followed by the newline, or by a comma and
    the row of the remaining values. */
  lemma FormatRowCons(values: seq<Option<string>>)
    requires |values| > 0
    ensures |values| == 1 ==> FormatRow(values) == Cell(values[0]) + "\n"
    ensures |values| > 1 ==> FormatRow(values) == Cell(values[0]) + ("," + FormatRow(values[1..]))
  {
    var rest := Cells(values[1..]);
    var cells := Cells(values);
    assert cells == [Cell(values[0])] + rest;
    assert cells[0] == Cell(values[0]);
    if |values| > 1 {
      assert cells[1..] == rest;
      var joined := JoinCommas(rest);
      assert JoinCommas(cells) == Cell(values[0]) + "," + joined;
      assert FormatRow(values[1..]) == joined + "\n";
      assert Cell(values[0]) + "," + joined + "\n" == Cell(values[0]) + ("," + (joined + "\n"));
    }
  }

  /** A last cell reads back as its text. */
  lemma DecodeLastCell(v: Option<string>)
    ensures DecodeRow(Cell(v) + "\n") == Some([v.GetOr("")])
  {
    var text := v.GetOr("");
    ReadQuotedEscape(text, "\n");
    assert Cell(v) + "\n" == [Quote] + (Escape(text) + [Quote] + "\n");
  }

  /** A cell followed by a comma reads back as its text, followed by what
    the rest of the row reads as. */
  lemma DecodeCellThenMore(v: Option<string>, more: string, texts: seq<string>)
    requires DecodeRow(more) == Some(texts)
    ensures DecodeRow(Cell(v) + ("," + more)) == Some([v.GetOr("")] + texts)
  {
    var text := v.GetOr("");
    var rest := "," + more;
    var row := Cell(v) + rest;
    assert row[0] == Quote;
    assert row[1..] == Escape(text) + [Quote] + rest;
    ReadQuotedEscape(text, rest);
    assert rest[0] == ',' && rest[1..] == more;
  }

  /** Decoding a formatted row gives back one text per value, in order:
    commas, quotes and newlines inside a value survive the round trip. */
  lemma {:induction false} DecodeFormatRow(values: seq<Option<string>>)
    requires |values| > 0
    ensures DecodeRow(FormatRow(values)) == Some(Texts(values))
  {
    FormatRowCons(values);
    if |values| == 1 {
      DecodeLastCell(values[0]);
      assert values[1..] == [];
      assert Texts(values) == [values[0].GetOr("")];
    } else {
      DecodeFormatRow(values[1..]);
      DecodeCellThenMore(values[0], FormatRow(values[1..]), Texts(values[1..]));
    }
  }

  /** The row appended for a lead has exactly the seven columns of the
    header, in header order, and each decodes to the lead's own field. */
  lemma LeadRowRoundTrip(l: Lead)
    ensures DecodeRow(LeadRow(l)) ==
      Some([l.fullName, l.email, l.mobile, l.college, l.city, l.state, l.createdAt])
  {
    DecodeFormatRow(LeadColumns(l));
    LeadColumnTexts(l);
  }

  /** A lead's columns all carry text, so reading them gives the fields
    themselves, in header order. */
  lemma LeadColumnTexts(l: Lead)
    ensures Texts(LeadColumns(l)) == [l.fullName, l.email, l.mobile, l.college, l.city, l.state, l.createdAt]
  {
    var cols := LeadColumns(l);
    assert Texts(cols[6..]) == [l.createdAt];
    assert Texts(cols[5..]) == [l.state] + Texts(cols[6..]);
    assert Texts(cols[4..]) == [l.city] + Texts(cols[5..]);
    assert Texts(cols[3..]) == [l.college] + Texts(cols[4..]);
    assert Texts(cols[2..]) == [l.mobile] + Texts(cols[3..]);
    assert Texts(cols[1..]) == [l.email] + Texts(cols[2..]);
  }

  /** Two leads with the same row are the same lead: the log loses nothing. */
  lemma LeadRowInjective(a: Lead, b: Lead)
    requires LeadRow(a) == LeadRow(b)
    ensures a == b
  {
    LeadRowRoundTrip(a);
    LeadRowRoundTrip(b);
  }
}

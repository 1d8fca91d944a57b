/** The CSV branch of the story editor's `handleExport`: each quoted field
    has every `"` doubled, as RFC 4180 section 2 rule 7 asks; the thumbnail
    URL is quoted but not escaped. A reader for quoted fields is the
    escaping's partner. */
module CsvExport {
  import opened Wrappers

  const Quote: char := '"'

  /** `field.replace(/"/g, '""')` */
  function EscapeQuotes(field: string): (r: string)
    ensures |r| >= |field|
    ensures Quote !in field ==> r == field
  {
    if field == [] then []
    else (if field[0] == Quote then [Quote, Quote] else [field[0]]) + EscapeQuotes(field[1..])
  }

  /** Collapses each `""` back to `"`. */
  function UnescapeQuotes(s: string): (r: string)
  {
    if s == [] then []
    else if |s| >= 2 && s[0] == Quote && s[1] == Quote then [Quote] + UnescapeQuotes(s[2..])
    else [s[0]] + UnescapeQuotes(s[1..])
  }

  /** Collapsing `""` to `"` recovers the original field. */
  lemma {:induction false} EscapeRoundTrip(field: string)
    ensures UnescapeQuotes(EscapeQuotes(field)) == field
  {
    if field != [] {
      EscapeRoundTrip(field[1..]);
      var rest := EscapeQuotes(field[1..]);
      if field[0] == Quote {
        assert EscapeQuotes(field) == [Quote, Quote] + rest;
        assert (([Quote, Quote] + rest)[2..]) == rest;
      } else {
        assert EscapeQuotes(field) == [field[0]] + rest;
        assert ([field[0]] + rest)[1..] == rest;
      }
    }
  }

  /** RFC 4180 reading of a quoted field's body: characters up to the lone
      `"` that closes it, with `""` standing for one `"`; the text after the
      closing quote is returned too. */
  function ReadQuotedBody(s: string): (r: Option<(string, string)>)
    ensures r.Some? ==> |r.value.1| < |s|
    decreases |s|
  {
    if s == [] then None
    else if s[0] == Quote then
      if |s| >= 2 && s[1] == Quote then
        match ReadQuotedBody(s[2..])
        case None => None
        case Some((f, rest)) => Some(([Quote] + f, rest))
      else Some(([], s[1..]))
    else
      match ReadQuotedBody(s[1..])
      case None => None
      case Some((f, rest)) => Some(([s[0]] + f, rest))
  }

  lemma ReadBodyClose(rest: string)
    requires rest == [] || rest[0] != Quote
    ensures ReadQuotedBody([Quote] + rest) == Some(([], rest))
  {
    assert ([Quote] + rest)[1..] == rest;
  }

  lemma ReadBodyQuotePair(tail: string, f: string, rest: string)
    requires ReadQuotedBody(tail) == Some((f, rest))
    ensures ReadQuotedBody([Quote, Quote] + tail) == Some(([Quote] + f, rest))
  {
    assert ([Quote, Quote] + tail)[2..] == tail;
  }

  lemma ReadBodyPlain(c: char, tail: string, f: string, rest: string)
    requires c != Quote
    requires ReadQuotedBody(tail) == Some((f, rest))
    ensures ReadQuotedBody([c] + tail) == Some(([c] + f, rest))
  {
    assert ([c] + tail)[1..] == tail;
  }

  /** An escaped field closed by a quote reads back as the field, whatever
      follows that does not start with another quote. */
  lemma {:induction false} ReadEscaped(field: string, rest: string)
    requires rest == [] || rest[0] != Quote
    ensures ReadQuotedBody(EscapeQuotes(field) + [Quote] + rest) == Some((field, rest))
  {
    if field == [] {
      assert EscapeQuotes(field) + [Quote] + rest == [Quote] + rest;
      ReadBodyClose(rest);
    } else {
      ReadEscaped(field[1..], rest);
      var tail := EscapeQuotes(field[1..]) + [Quote] + rest;
      var head := if field[0] == Quote then [Quote, Quote] else [field[0]];
      assert EscapeQuotes(field) == head + EscapeQuotes(field[1..]);
      assert EscapeQuotes(field) + [Quote] + rest == head + tail;
      assert [field[0]] + field[1..] == field;
      if field[0] == Quote {
        ReadBodyQuotePair(tail, field[1..], rest);
      } else {
        ReadBodyPlain(field[0], tail, field[1..], rest);
      }
    }
  }

  const Headers: string := "title,thumbnailUrl,story,transcript"

  /** The data row: four quoted fields; the thumbnail URL is not escaped. */
  function CsvRow(title: string, thumbnailUrl: string, story: string, transcript: string): (row: string)
  {
    [Quote] + EscapeQuotes(title) + "\",\"" + thumbnailUrl + "\",\""
    + EscapeQuotes(story) + "\",\"" + EscapeQuotes(transcript) + [Quote]
  }

  /** The exported file: header line, newline, data row. */
  function CsvContent(title: string, thumbnailUrl: string, story: string, transcript: string): (content: string)
  {
    Headers + "\n" + CsvRow(title, thumbnailUrl, story, transcript)
  }

  /** Reads a record of quoted fields separated by commas. */
  function ReadRecord(s: string): (r: Option<seq<string>>)
    decreases |s|
  {
    if s == [] || s[0] != Quote then None
    else
      match ReadQuotedBody(s[1..])
      case None => None
      case Some((field, rest)) =>
        if rest == [] then Some([field])
        else if rest[0] == ',' then
          match ReadRecord(rest[1..])
          case None => None
          case Some(fields) => Some([field] + fields)
        else None
  }

  /** A quoted field at the end of the text is a one-field record. */
  lemma ReadLastField(field: string)
    ensures ReadRecord([Quote] + EscapeQuotes(field) + [Quote] + []) == Some([field])
  {
    var s := [Quote] + EscapeQuotes(field) + [Quote] + [];
    ReadEscaped(field, []);
    assert s[1..] == EscapeQuotes(field) + [Quote] + [];
  }

  /** A quoted field followed by a comma and a record adds that field in front. */
  lemma ReadFieldThen(field: string, more: string, fields: seq<string>)
    requires ReadRecord(more) == Some(fields)
    ensures ReadRecord([Quote] + EscapeQuotes(field) + [Quote] + ("," + more)) == Some([field] + fields)
  {
    var s := [Quote] + EscapeQuotes(field) + [Quote] + ("," + more);
    ReadEscaped(field, "," + more);
    assert s[1..] == EscapeQuotes(field) + [Quote] + ("," + more);
    assert ("," + more)[1..] == more;
  }

  /** The row, cut into its four quoted fields and the commas between them. */
  lemma RowPieces(q: string, e1: string, u: string, e3: string, e4: string)
    requires q == [Quote]
    ensures q + e1 + "\",\"" + u + "\",\"" + e3 + "\",\"" + e4 + q
         == q + e1 + q + ("," + (q + u + q + ("," + (q + e3 + q + ("," + (q + e4 + q + []))))))
  {
    assert "\",\"" == q + "," + q;
  }

  /** A row whose thumbnail URL has no `"` reads back as exactly the four
      fields: title, thumbnail URL, story and transcript. */
  lemma RowRoundTrip(title: string, thumbnailUrl: string, story: string, transcript: string)
    requires Quote !in thumbnailUrl
    ensures ReadRecord(CsvRow(title, thumbnailUrl, story, transcript)) == Some([title, thumbnailUrl, story, transcript])
  {
    var q := [Quote];
    var r4 := q + EscapeQuotes(transcript) + q + [];
    var r3 := q + EscapeQuotes(story) + q + ("," + r4);
    var r2 := q + EscapeQuotes(thumbnailUrl) + q + ("," + r3);
    var r1 := q + EscapeQuotes(title) + q + ("," + r2);
    RowPieces(q, EscapeQuotes(title), thumbnailUrl, EscapeQuotes(story), EscapeQuotes(transcript));
    assert EscapeQuotes(thumbnailUrl) == thumbnailUrl;
    assert CsvRow(title, thumbnailUrl, story, transcript) == r1;
    ReadLastField(transcript);
    ReadFieldThen(story, r4, [transcript]);
    assert [story] + [transcript] == [story, transcript];
    ReadFieldThen(thumbnailUrl, r3, [story, transcript]);
    assert [thumbnailUrl] + [story, transcript] == [thumbnailUrl, story, transcript];
    ReadFieldThen(title, r2, [thumbnailUrl, story, transcript]);
    assert [title] + [thumbnailUrl, story, transcript] == [title, thumbnailUrl, story, transcript];
    assert ReadRecord(r1) == Some([title, thumbnailUrl, story, transcript]);
  }

  /** The exported file is the header line, a newline, and a line that
      reads back as the four fields (when the URL has no `"`). */
  lemma ExportRoundTrip(title: string, thumbnailUrl: string, story: string, transcript: string)
    requires Quote !in thumbnailUrl
    ensures var content, n := CsvContent(title, thumbnailUrl, story, transcript), |Headers|;
      && '\n' !in Headers
      && |content| > n
      && content[..n] == Headers
      && content[n] == '\n'
      && ReadRecord(content[n + 1..]) == Some([title, thumbnailUrl, story, transcript])
  {
    var content, n := CsvContent(title, thumbnailUrl, story, transcript), |Headers|;
    var row := CsvRow(title, thumbnailUrl, story, transcript);
    assert content == Headers + "\n" + row;
    assert content[n + 1..] == row;
    RowRoundTrip(title, thumbnailUrl, story, transcript);
  }
}

/** Whatever the text, valid or not, the parser records only what lies within it. */
module CsvBounds {
  import opened CsvFlags
  import opened CsvParser

  predicate FieldInside(text: string, rowStart: nat, f: RawField) {
    rowStart + f.start + f.length <= |text|
  }

  /** The fields of the row are recorded and within the text. */
  ghost predicate RowInside(text: string, fields: seq<RawField>, row: Row) {
    && row.fieldsStart + row.rowLength <= |fields|
    && forall i {:trigger fields[i]} :: row.fieldsStart <= i < row.fieldsStart + row.rowLength ==> FieldInside(text, row.dataStart, fields[i])
  }

  ghost predicate RowsInside(text: string, fields: seq<RawField>, rows: seq<Row>) {
    forall i {:trigger RowInside(text, fields, rows[i])} :: 0 <= i < |rows| ==> RowInside(text, fields, rows[i])
  }

  /** The current field has not been read beyond the current position. */
  ghost predicate Sane(text: string, s: State) {
    s.rowStart <= s.pos <= |text| && s.fieldsStart <= |s.fields| && s.rowStart + Less(s.fieldStart, 0) + s.fieldLength <= s.pos
  }

  ghost predicate Bounded(text: string, s: State) {
    && Sane(text, s) && RowsInside(text, s.fields, s.rows)
    && forall i {:trigger s.fields[i]} :: s.fieldsStart <= i < |s.fields| ==> FieldInside(text, s.rowStart, s.fields[i])
  }

  lemma MoreFields(text: string, fields: seq<RawField>, fields': seq<RawField>, rows: seq<Row>)
    requires fields <= fields' && RowsInside(text, fields, rows)
    ensures RowsInside(text, fields', rows)
  {
    forall i | 0 <= i < |rows|
      ensures RowInside(text, fields', rows[i])
    {
      assert RowInside(text, fields, rows[i]);
    }
  }

  lemma PushFieldBounded(text: string, s: State)
    requires Bounded(text, s)
    ensures Bounded(text, PushField(s))
  {
    var f := RawField(Less(s.fieldStart, 0), s.fieldLength, s.hasDoubleQuote);
    MoreFields(text, s.fields, s.fields + [f], s.rows);
  }

  lemma PushRowBounded(text: string, s: State)
    requires Bounded(text, s)
    ensures Bounded(text, PushRow(s))
  {
    var row := Row(s.rowStart, s.fieldsStart, Less(|s.fields|, s.fieldsStart));
    assert RowInside(text, s.fields, row);
    forall i | 0 <= i < |s.rows + [row]|
      ensures RowInside(text, s.fields, (s.rows + [row])[i])
    {
      assert i < |s.rows| ==> RowInside(text, s.fields, s.rows[i]);
    }
  }

  lemma EndRowBounded(text: string, s: State, p: nat)
    requires Bounded(text, s) && s.pos <= p <= |text| && s.fieldStart >= Uninitialized
    ensures Bounded(text, EndRow(s, p))
  {
    PushFieldBounded(text, s.(pos := p));
    PushRowBounded(text, PushField(s.(pos := p)));
  }

  /** A change of the field that is being read. */
  lemma ReadingBounded(text: string, s: State, s': State)
    requires Bounded(text, s) && Sane(text, s') && s'.fields == s.fields && s'.rows == s.rows
    requires s'.rowStart == s.rowStart && s'.fieldsStart == s.fieldsStart
    ensures Bounded(text, s')
  {
  }

  lemma InnerSane(fmt: Format, text: string, s: State)
    requires Sane(text, s) && s.pos < |text| && !GivesUp(fmt, text, s) && KindOf(fmt, text[s.pos], s.quoteEscape).Inner?
    ensures Sane(text, Next(fmt, text, s))
  {
  }

  lemma OrdinarySane(fmt: Format, text: string, s: State)
    requires Sane(text, s) && s.pos < |text| && s.fieldStart >= Uninitialized && KindOf(fmt, text[s.pos], s.quoteEscape).Ordinary?
    ensures Sane(text, Next(fmt, text, s))
  {
  }

  lemma OpeningSane(fmt: Format, text: string, s: State)
    requires Sane(text, s) && s.pos < |text| && KindOf(fmt, text[s.pos], s.quoteEscape).Opening?
    ensures Sane(text, Next(fmt, text, s))
  {
  }

  lemma NextBounded(fmt: Format, text: string, s: State)
    requires Bounded(text, s) && s.fieldStart >= Uninitialized && s.pos < |text| && !GivesUp(fmt, text, s)
    ensures Bounded(text, Next(fmt, text, s)) && Next(fmt, text, s).fieldStart >= Uninitialized
  {
    match KindOf(fmt, text[s.pos], s.quoteEscape)
    case Separator => PushFieldBounded(text, s);
    case Newline => EndRowBounded(text, s, PastNewline(fmt, text, s.pos));
    case Ordinary =>
      OrdinarySane(fmt, text, s);
      ReadingBounded(text, s, Next(fmt, text, s));
    case Inner =>
      InnerSane(fmt, text, s);
      ReadingBounded(text, s, Next(fmt, text, s));
    case Opening =>
      OpeningSane(fmt, text, s);
      ReadingBounded(text, s, Next(fmt, text, s));
  }

  lemma {:induction false} RunBounded(fmt: Format, text: string, s: State)
    requires Bounded(text, s) && s.fieldStart >= Uninitialized
    ensures Bounded(text, Run(fmt, text, s))
    decreases |text| - s.pos
  {
    if s.pos < |text| && !GivesUp(fmt, text, s) {
      NextBounded(fmt, text, s);
      RunBounded(fmt, text, Next(fmt, text, s));
    }
  }

  lemma EndFeedBounded(fmt: Format, text: string, s: State)
    requires Bounded(text, s)
    ensures Bounded(text, EndFeed(fmt, text, s))
  {
    PushFieldBounded(text, s);
    PushRowBounded(text, s);
    PushRowBounded(text, PushField(s));
  }

  /** However a text is parsed from its start, with or without the end of the file behind it, all recorded
      fields lie within it. */
  lemma RecordsInside(fmt: Format, text: string, s: State)
    requires s.rowStart <= s.pos <= |text| && s.fieldStart == Uninitialized && s.fieldLength == 0
    requires s.fields == [] && s.fieldsStart == 0 && s.rows == []
    ensures var e := Run(fmt, text, s);
            RowsInside(text, e.fields, e.rows) && RowsInside(text, EndFeed(fmt, text, e).fields, EndFeed(fmt, text, e).rows)
  {
    RunBounded(fmt, text, s);
    EndFeedBounded(fmt, text, Run(fmt, text, s));
  }

  /** `end_feed` adds at most one row. */
  lemma EndFeedAdds(fmt: Format, text: string, s: State)
    ensures var e := EndFeed(fmt, text, s);
            s.fields <= e.fields && s.rows <= e.rows && |e.rows| <= |s.rows| + 1
  {
  }
}

/** The byte-order mark, which is taken for part of the first field if that is not quoted. */
module CsvBom {
  import opened CsvFlags
  import opened CsvParser
  import opened CsvText

  lemma Join3(a: string, b: string, c: string)
    ensures (a + b) + c == a + (b + c)
  {
  }

  /** Separator and quote are ASCII, so neither is part of a byte-order mark. */
  predicate Ascii(fmt: Format) {
    fmt.Proper() && fmt.delim as int < 128 && fmt.quote as int < 128
  }

  const Bom: string := "\U{00EF}\U{00BB}\U{00BF}"

  predicate BomFirst(rows: seq<seq<Field>>) {
    && rows != [] && rows[0] != [] && rows[0][0].Plain?
    && |rows[0][0].value| >= 3 && rows[0][0].value[..3] == Bom
  }

  /** The rows without the byte-order mark. */
  function Trimmed(rows: seq<seq<Field>>): seq<seq<Field>> {
    if BomFirst(rows) then [[Plain(rows[0][0].value[3..])] + rows[0][1..]] + rows[1..] else rows
  }

  lemma TrimmedValid(fmt: Format, rows: seq<seq<Field>>)
    requires ValidRows(fmt, rows)
    ensures ValidRows(fmt, Trimmed(rows))
  {
    if BomFirst(rows) {
      var f := Plain(rows[0][0].value[3..]);
      assert ValidField(fmt, rows[0][0]);
      assert ValidField(fmt, f);
      assert ValidRow(fmt, rows[0]);
      assert ValidRow(fmt, [f] + rows[0][1..]);
    }
  }

  lemma TrimmedText(fmt: Format, rows: seq<seq<Field>>)
    requires BomFirst(rows)
    ensures RowsText(fmt, rows) == Bom + RowsText(fmt, Trimmed(rows))
  {
    var row := Trimmed(rows)[0];
    TrimmedRow(fmt, rows[0], row);
    assert Trimmed(rows)[1..] == rows[1..];
    Join3(Bom, RowText(fmt, row), RowsText(fmt, rows[1..]));
  }

  lemma TrimmedRow(fmt: Format, row: seq<Field>, trimmed: seq<Field>)
    requires row != [] && row[0].Plain? && |row[0].value| >= 3 && row[0].value[..3] == Bom
    requires trimmed == [Plain(row[0].value[3..])] + row[1..]
    ensures RowText(fmt, row) == Bom + RowText(fmt, trimmed)
  {
    var v := row[0].value;
    var rest := if |row| == 1 then "\n" else [fmt.delim] + RowText(fmt, row[1..]);
    assert v == Bom + v[3..];
    assert trimmed[1..] == row[1..];
    Join3(Bom, v[3..], rest);
  }

  lemma BomFirstHas(fmt: Format, rows: seq<seq<Field>>)
    requires BomFirst(rows)
    ensures HasBom(RowsText(fmt, rows))
  {
    TrimmedText(fmt, rows);
    assert RowsText(fmt, rows)[..3] == Bom;
  }

  /** A byte-order mark in the text is one in the first field. */
  lemma BomIsFirst(fmt: Format, rows: seq<seq<Field>>)
    requires Ascii(fmt) && ValidRows(fmt, rows)
    ensures HasBom(RowsText(fmt, rows)) <==> BomFirst(rows)
  {
    if BomFirst(rows) {
      BomFirstHas(fmt, rows);
    } else if rows != [] {
      var text, f := RowsText(fmt, rows), rows[0][0];
      FirstCharacters(fmt, rows);
      BomCharacters(text);
      if f.Plain? && |f.value| >= 3 {
        assert f.value[..3] == text[..|f.value|][..3] == text[..3];
      }
    }
  }

  lemma BomCharacters(text: string)
    ensures HasBom(text) ==> forall i :: 0 <= i < 3 ==> text[i] as int >= 128
  {
    if HasBom(text) {
      assert forall i :: 0 <= i < 3 ==> text[i] == text[..3][i];
    }
  }

  /** The text begins with the first field and an ASCII character. */
  lemma FirstCharacters(fmt: Format, rows: seq<seq<Field>>)
    requires Ascii(fmt) && ValidRows(fmt, rows) && rows != []
    ensures var text, f := RowsText(fmt, rows), rows[0][0];
            && (f.Quoted? ==> |text| > 0 && text[0] as int < 128)
            && (f.Plain? ==> |text| > |f.value| && text[..|f.value|] == f.value && text[|f.value|] as int < 128)
  {
    assert ValidRow(fmt, rows[0]);
    var f, row := rows[0][0], RowText(fmt, rows[0]);
    assert RowsText(fmt, rows)[..|row|] == row;
    if f.Plain? {
      assert row[..|f.value|] == f.value;
      assert row[|f.value|] == if |rows[0]| == 1 then '\n' else fmt.delim;
    }
  }
}

/** Where the cells of a table lie in a buffer: row by row (format 1) or column by column (format 2).
    The server writes a cell where it computes it to be, the client reads it where it does. */
module Layout {
  import opened Powers

  datatype Kind = Int | Double | Char | Str

  /** An attribute with the size the schema declares for it. */
  datatype Attribute = Attribute(kind: Kind, size: nat)

  /** The size of the type, which both sides work out for themselves. */
  function Width(a: Attribute): nat {
    match a.kind
    case Int => 4
    case Double => 8
    case Char => 1
    case Str => a.size
  }

  type Schema = seq<Attribute>

  ghost predicate Matching(schema: Schema) {
    forall j :: 0 <= j < |schema| ==> schema[j].size == Width(schema[j])
  }

  datatype Format = RowFormat | ColumnFormat

  // ---- The server's addresses ----

  /** The declared sizes of the attributes before `j`. */
  function Before(schema: Schema, j: nat): nat
    requires j <= |schema|
  {
    if j == 0 then 0 else Before(schema, j - 1) + schema[j - 1].size
  }

  function TupleSize(schema: Schema): nat {
    Before(schema, |schema|)
  }

  /** The address of a cell of tuple `i` with `bytesInTuple` bytes of the tuple before it. */
  function CellAddress(f: Format, tupleSize: nat, perBuffer: nat, width: nat, i: nat, bytesInTuple: nat): nat {
    match f
    case RowFormat => i * tupleSize + bytesInTuple
    case ColumnFormat => bytesInTuple * perBuffer + i * width
  }

  function ServerAddress(f: Format, schema: Schema, perBuffer: nat, i: nat, j: nat): nat
    requires j < |schema|
  {
    CellAddress(f, TupleSize(schema), perBuffer, Width(schema[j]), i, Before(schema, j))
  }

  /** The payload size in the header of a buffer with `n` tuples. */
  function TotalSize(f: Format, schema: Schema, perBuffer: nat, n: nat): nat {
    if n < perBuffer && f.ColumnFormat? then perBuffer * TupleSize(schema) else n * TupleSize(schema)
  }

  // ---- The client's addresses ----

  function ColumnOffset(schema: Schema, j: nat): nat
    requires j <= |schema|
  {
    if j == 0 then 0 else ColumnOffset(schema, j - 1) + Width(schema[j - 1])
  }

  function ColumnStart(schema: Schema, perBuffer: nat, j: nat): nat
    requires j <= |schema|
  {
    if j == 0 then 0 else ColumnStart(schema, perBuffer, j - 1) + perBuffer * Width(schema[j - 1])
  }

  function ClientAddress(f: Format, schema: Schema, perBuffer: nat, i: nat, j: nat): nat
    requires j < |schema|
  {
    match f
    case RowFormat => i * ColumnOffset(schema, |schema|) + ColumnOffset(schema, j)
    case ColumnFormat => ColumnStart(schema, perBuffer, j) + i * Width(schema[j])
  }

  // ---- They agree ----

  lemma {:induction false} OffsetsAgree(schema: Schema, perBuffer: nat, j: nat)
    requires Matching(schema) && j <= |schema|
    ensures ColumnOffset(schema, j) == Before(schema, j)
    ensures ColumnStart(schema, perBuffer, j) == Before(schema, j) * perBuffer
  {
    if j > 0 {
      OffsetsAgree(schema, perBuffer, j - 1);
      assert (Before(schema, j - 1) + schema[j - 1].size) * perBuffer
             == Before(schema, j - 1) * perBuffer + perBuffer * schema[j - 1].size;
    }
  }

  /** Client and server agree on where every cell is, whatever the format. */
  lemma AddressesAgree(f: Format, schema: Schema, perBuffer: nat, i: nat, j: nat)
    requires Matching(schema) && j < |schema|
    ensures ClientAddress(f, schema, perBuffer, i, j) == ServerAddress(f, schema, perBuffer, i, j)
  {
    OffsetsAgree(schema, perBuffer, j);
    OffsetsAgree(schema, perBuffer, |schema|);
  }

  // ---- Cells do not overlap and lie within the payload ----

  lemma {:induction false} BeforeGrows(schema: Schema, j: nat, k: nat)
    requires Matching(schema) && j < k <= |schema|
    ensures Before(schema, j) + Width(schema[j]) <= Before(schema, k)
  {
    if j + 1 < k {
      BeforeGrows(schema, j, k - 1);
    }
  }

  lemma NextMultiple(i: nat, k: nat, p: nat)
    requires i < k
    ensures i * p + p <= k * p
  {
    MulLeft(i + 1, k, p);
    assert (i + 1) * p == i * p + p;
  }

  /** A cell of a row-format buffer lies in its row. */
  lemma InRow(schema: Schema, i: nat, j: nat)
    requires Matching(schema) && j < |schema|
    ensures var a := i * TupleSize(schema) + Before(schema, j);
            i * TupleSize(schema) <= a && a + Width(schema[j]) <= i * TupleSize(schema) + TupleSize(schema)
  {
    BeforeGrows(schema, j, |schema|);
  }

  /** A cell of a column-format buffer lies in its column. */
  lemma InColumn(schema: Schema, perBuffer: nat, i: nat, j: nat)
    requires Matching(schema) && j < |schema| && i < perBuffer
    ensures Before(schema, j) * perBuffer + i * Width(schema[j]) + Width(schema[j])
            <= (Before(schema, j) + Width(schema[j])) * perBuffer
  {
    NextMultiple(i, perBuffer, Width(schema[j]));
    assert (Before(schema, j) + Width(schema[j])) * perBuffer
           == Before(schema, j) * perBuffer + perBuffer * Width(schema[j]);
  }

  /** Every cell lies within the size the header announces, also in a buffer that is not full. */
  lemma CellInside(f: Format, schema: Schema, perBuffer: nat, n: nat, i: nat, j: nat)
    requires Matching(schema) && j < |schema| && i < n <= perBuffer
    ensures ServerAddress(f, schema, perBuffer, i, j) + Width(schema[j]) <= TotalSize(f, schema, perBuffer, n)
    ensures TotalSize(f, schema, perBuffer, n) <= perBuffer * TupleSize(schema)
  {
    MulLeft(n, perBuffer, TupleSize(schema));
    if f.RowFormat? {
      InRow(schema, i, j);
      NextMultiple(i, n, TupleSize(schema));
    } else {
      InColumn(schema, perBuffer, i, j);
      BeforeGrows(schema, j, |schema|);
      MulLeft(Before(schema, j) + Width(schema[j]), TupleSize(schema), perBuffer);
    }
  }

  /** One of two cells ends before the other begins. */
  ghost predicate Apart(f: Format, schema: Schema, perBuffer: nat, i: nat, j: nat, i': nat, j': nat)
    requires j < |schema| && j' < |schema|
  {
    || ServerAddress(f, schema, perBuffer, i, j) + Width(schema[j]) <= ServerAddress(f, schema, perBuffer, i', j')
    || ServerAddress(f, schema, perBuffer, i', j') + Width(schema[j']) <= ServerAddress(f, schema, perBuffer, i, j)
  }

  lemma CellsApartInRows(schema: Schema, perBuffer: nat, i: nat, j: nat, i': nat, j': nat)
    requires Matching(schema) && j < |schema| && j' < |schema| && (i < i' || (i == i' && j < j'))
    ensures Apart(RowFormat, schema, perBuffer, i, j, i', j')
  {
    if i < i' {
      InRow(schema, i, j);
      NextMultiple(i, i', TupleSize(schema));
      InRow(schema, i', j');
    } else {
      BeforeGrows(schema, j, j');
    }
  }

  lemma CellsApartInColumns(schema: Schema, perBuffer: nat, i: nat, j: nat, i': nat, j': nat)
    requires Matching(schema) && j < |schema| && j' < |schema| && i < perBuffer && i' < perBuffer
    requires j < j' || (j == j' && i < i')
    ensures Apart(ColumnFormat, schema, perBuffer, i, j, i', j')
  {
    if j < j' {
      InColumn(schema, perBuffer, i, j);
      BeforeGrows(schema, j, j');
      MulLeft(Before(schema, j) + Width(schema[j]), Before(schema, j'), perBuffer);
    } else {
      NextMultiple(i, i', Width(schema[j]));
    }
  }

  /** Different cells do not overlap. */
  lemma CellsApart(f: Format, schema: Schema, perBuffer: nat, i: nat, j: nat, i': nat, j': nat)
    requires Matching(schema) && j < |schema| && j' < |schema| && i < perBuffer && i' < perBuffer && (i != i' || j != j')
    ensures Apart(f, schema, perBuffer, i, j, i', j')
  {
    if f.RowFormat? {
      if i < i' || (i == i' && j < j') {
        CellsApartInRows(schema, perBuffer, i, j, i', j');
      } else {
        CellsApartInRows(schema, perBuffer, i', j', i, j);
      }
    } else if j < j' || (j == j' && i < i') {
      CellsApartInColumns(schema, perBuffer, i, j, i', j');
    } else {
      CellsApartInColumns(schema, perBuffer, i', j', i, j);
    }
  }
}

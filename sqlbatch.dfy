/**
 * The SQL writer of the geo database migration: a batch of rows becomes one positional
 * multi-row statement `INSERT INTO <table> VALUES (?,?),(?,?)` with the rows' values as its
 * arguments, and a batcher cuts the stream of rows it receives into such statements of at most
 * 100 rows each.
 */
module SqlBatch {
  import opened Base
  import opened Strings
  import opened GeoNames
  import opened Batches

  /** A row the batchers receive: a gn_object or a gn_object_alternatenames row. */
  datatype SqlRecord = ObjectRecord(obj: GNObject) | AlternatesRecord(alt: GNObjectAlternateNames)
  {
    function TableName(): string
    {
      match this
      case ObjectRecord(o) => o.TableName()
      case AlternatesRecord(a) => a.TableName()
    }

    /** The row's column values in table order: eight for gn_object, two for the alternate names. */
    function GetValues(): (values: seq<Json>)
      ensures |values| == (if ObjectRecord? then 8 else 2)
    {
      match this
      case ObjectRecord(o) => o.GetValues()
      case AlternatesRecord(a) => a.GetValues()
    }
  }

  /** A prepared statement and the arguments it is executed with. */
  datatype Statement = Statement(sql: string, args: seq<Json>)

  /** strings.Repeat. */
  function Repeat(s: string, n: nat): string
  {
    if n == 0 then "" else Repeat(s, n - 1) + s
  }

  /** n question marks separated by commas. */
  function Marks(n: nat): string
    requires n > 0
  {
    if n == 1 then "?" else Marks(n - 1) + ",?"
  }

  /** Repeating "?," n times and dropping the last character leaves the n placeholders of a row. */
  lemma {:induction false} RepeatIsMarks(n: nat)
    requires n > 0
    ensures Repeat("?,", n) == Marks(n) + ","
  {
    if n > 1 {
      RepeatIsMarks(n - 1);
      assert Repeat("?,", n) == Marks(n - 1) + "," + "?,";
      assert Marks(n - 1) + "," + "?," == Marks(n - 1) + ",?" + ",";
    }
  }

  /** A row with no values repeats "?," zero times: there is no last character to drop. */
  lemma RepeatZero()
    ensures Repeat("?,", 0) == ""
  {
  }

  /** "(?,...,?)" for a row of n values. */
  function Group(n: nat): string
    requires n > 0
  {
    "(" + Marks(n) + ")"
  }

  predicate NoEmptyRow(buffer: seq<seq<Json>>)
  {
    forall i :: 0 <= i < |buffer| ==> buffer[i] != []
  }

  /** The groups of the rows, each followed by a comma, as the loop of processBulkInsert builds them. */
  function Groups(buffer: seq<seq<Json>>): string
    requires NoEmptyRow(buffer)
  {
    if buffer == [] then "" else Groups(Init(buffer)) + Group(|Last(buffer)|) + ","
  }

  function Prefix(table: string): string
  {
    "INSERT INTO " + table + " VALUES "
  }

  /**
   * processBulkInsert's statement: the prefix and the groups, less the last character. A row
   * with no values makes the slice `q[0:len(q)-1]` panic.
   */
  function InsertStatement(buffer: seq<seq<Json>>, table: string): (r: Result<Statement, string>)
  {
    if !NoEmptyRow(buffer) then Err("slice bounds out of range")
    else
      var sql := Prefix(table) + Groups(buffer);
      Ok(Statement(sql[..|sql| - 1], Flatten(buffer)))
  }

  // ------------------------------------------------------------------ what the statement means

  /** The group of each row, in order. */
  function RowGroups(buffer: seq<seq<Json>>): (groups: seq<string>)
    requires NoEmptyRow(buffer)
    ensures |groups| == |buffer|
  {
    if buffer == [] then [] else RowGroups(Init(buffer)) + [Group(|Last(buffer)|)]
  }

  lemma {:induction false} JoinSnoc(parts: seq<string>, p: string, sep: char)
    requires parts != []
    ensures Join(parts + [p], sep) == Join(parts, sep) + [sep] + p
    decreases |parts|
  {
    if |parts| == 1 {
      assert (parts + [p])[1..] == [p];
    } else {
      assert (parts + [p])[1..] == parts[1..] + [p];
      JoinSnoc(parts[1..], p, sep);
    }
  }

  lemma {:induction false} GroupsAreJoined(buffer: seq<seq<Json>>)
    requires NoEmptyRow(buffer) && buffer != []
    ensures Groups(buffer) == Join(RowGroups(buffer), ',') + ","
    decreases |buffer|
  {
    var init := Init(buffer);
    if init != [] {
      GroupsAreJoined(init);
      JoinSnoc(RowGroups(init), Group(|Last(buffer)|), ',');
    }
  }

  /** A row with no values panics; otherwise the statement carries every value of every row, in order. */
  lemma InsertStatementErr(buffer: seq<seq<Json>>, table: string)
    ensures InsertStatement(buffer, table).Err? <==> exists i :: 0 <= i < |buffer| && buffer[i] == []
    ensures InsertStatement(buffer, table).Ok? ==> InsertStatement(buffer, table).value.args == Flatten(buffer)
  {
  }

  /** The statement lists the rows' groups, separated by commas, after the prefix. */
  lemma InsertStatementJoined(buffer: seq<seq<Json>>, table: string)
    requires NoEmptyRow(buffer) && buffer != []
    ensures InsertStatement(buffer, table).value.sql == Prefix(table) + Join(RowGroups(buffer), ',')
  {
    GroupsAreJoined(buffer);
    var sql := Prefix(table) + Groups(buffer);
    assert sql == Prefix(table) + Join(RowGroups(buffer), ',') + ",";
  }

  /** With no rows the statement loses the space after VALUES and has no arguments. */
  lemma EmptyBufferStatement(table: string)
    ensures InsertStatement([], table) == Ok(Statement("INSERT INTO " + table + " VALUES", []))
  {
    var sql := Prefix(table) + Groups([]);
    var kept := "INSERT INTO " + table + " VALUES";
    assert sql == kept + " ";
    assert sql[..|sql| - 1] == kept;
    assert NoEmptyRow([]);
    assert Flatten<Json>([]) == [];
    assert InsertStatement([], table).value.sql == kept;
  }

  function CountChar(c: char, s: string): nat
  {
    if s == [] then 0 else (if s[0] == c then 1 else 0) + CountChar(c, s[1..])
  }

  lemma {:induction false} CountAppend(c: char, a: string, b: string)
    ensures CountChar(c, a + b) == CountChar(c, a) + CountChar(c, b)
  {
    if a != [] {
      assert (a + b)[0] == a[0];
      assert (a + b)[1..] == a[1..] + b;
      assert CountChar(c, a + b) == (if a[0] == c then 1 else 0) + CountChar(c, a[1..] + b);
      CountAppend(c, a[1..], b);
    } else {
      assert a + b == b;
    }
  }

  lemma {:induction false} CountAbsent(c: char, s: string)
    requires c !in s
    ensures CountChar(c, s) == 0
  {
    if s != [] {
      CountAbsent(c, s[1..]);
    }
  }

  lemma {:induction false} CountMarks(n: nat)
    requires n > 0
    ensures CountChar('?', Marks(n)) == n
  {
    if n > 1 {
      CountMarks(n - 1);
      CountAppend('?', Marks(n - 1), ",?");
    }
  }

  lemma {:induction false} CountGroups(buffer: seq<seq<Json>>)
    requires NoEmptyRow(buffer)
    ensures CountChar('?', Groups(buffer)) == |Flatten(buffer)|
    decreases |buffer|
  {
    if buffer != [] {
      var init, row := Init(buffer), Last(buffer);
      CountGroups(init);
      CountMarks(|row|);
      CountAppend('?', "(", Marks(|row|));
      CountAppend('?', "(" + Marks(|row|), ")");
      CountAppend('?', Groups(init), Group(|row|));
      CountAppend('?', Groups(init) + Group(|row|), ",");
      assert buffer == init + [row];
      FlattenSnoc(init, row);
    }
  }

  /**
   * When the table name holds no '?', the statement has exactly one placeholder per argument, so
   * the database binds every value to its own column.
   */
  lemma PlaceholdersMatchArgs(buffer: seq<seq<Json>>, table: string)
    requires '?' !in table && NoEmptyRow(buffer)
    ensures CountChar('?', InsertStatement(buffer, table).value.sql) == |InsertStatement(buffer, table).value.args|
  {
    var full := Prefix(table) + Groups(buffer);
    var sql := full[..|full| - 1];
    assert full == sql + [Last(full)];
    LastIsNotMark(buffer, table);
    CountAppend('?', sql, [Last(full)]);
    CountAppend('?', Prefix(table), Groups(buffer));
    PrefixHasNoMark(table);
    CountAbsent('?', Prefix(table));
    CountGroups(buffer);
  }

  lemma PrefixHasNoMark(table: string)
    requires '?' !in table
    ensures '?' !in Prefix(table)
  {
    assert '?' !in "INSERT INTO ";
    assert '?' !in " VALUES ";
  }

  lemma LastIsNotMark(buffer: seq<seq<Json>>, table: string)
    requires NoEmptyRow(buffer)
    ensures Last(Prefix(table) + Groups(buffer)) in {' ', ','}
  {
  }

  /** One row of processBulkInsert's loop: its group and its values are appended. */
  lemma BulkStep(buffer: seq<seq<Json>>, i: nat, table: string, sql: string, vals: seq<Json>)
    requires i < |buffer| && buffer[i] != [] && NoEmptyRow(buffer[..i])
    requires sql == Prefix(table) + Groups(buffer[..i]) && vals == Flatten(buffer[..i])
    ensures NoEmptyRow(buffer[..i + 1])
    ensures sql + "(" + Marks(|buffer[i]|) + ")," == Prefix(table) + Groups(buffer[..i + 1])
    ensures vals + buffer[i] == Flatten(buffer[..i + 1])
  {
    assert buffer[..i + 1] == buffer[..i] + [buffer[i]];
    assert Init(buffer[..i + 1]) == buffer[..i];
    FlattenSnoc(buffer[..i], buffer[i]);
    AppendAssoc(Prefix(table), Groups(buffer[..i]), Group(|buffer[i]|) + ",");
  }

  /** processBulkInsert: build the statement row by row, then drop the trailing character. */
  method ProcessBulkInsert(buffer: seq<seq<Json>>, table: string) returns (r: Result<Statement, string>)
    ensures r == InsertStatement(buffer, table)
  {
    var sql := "INSERT INTO " + table + " VALUES ";
    var vals: seq<Json> := [];
    for i := 0 to |buffer|
      invariant NoEmptyRow(buffer[..i])
      invariant sql == Prefix(table) + Groups(buffer[..i])
      invariant vals == Flatten(buffer[..i])
    {
      var row := buffer[i];
      var q := Repeat("?,", |row|);
      if |q| == 0 {
        assert buffer[i] == [];
        return Err("slice bounds out of range");
      }
      if row == [] {
        RepeatZero();
      }
      RepeatIsMarks(|row|);
      q := q[..|q| - 1];
      assert q == Marks(|row|);
      BulkStep(buffer, i, table, sql, vals);
      sql := sql + "(" + q + "),";
      vals := vals + row;
    }
    assert buffer[..|buffer|] == buffer;
    r := Ok(Statement(sql[..|sql| - 1], vals));
  }

  // ------------------------------------------------------------------ the batcher

  /** processChannelBuffer flushes once 100 rows are buffered. */
  const BatchLimit: nat := 100

  function ValuesOf(records: seq<SqlRecord>): (rows: seq<seq<Json>>)
    ensures |rows| == |records| && NoEmptyRow(rows)
  {
    seq(|records|, i requires 0 <= i < |records| => records[i].GetValues())
  }

  /** Buffering one more row appends its values. */
  lemma ValuesSnoc(pending: seq<SqlRecord>, record: SqlRecord)
    ensures ValuesOf(pending + [record]) == ValuesOf(pending) + [record.GetValues()]
  {
  }

  /** The statement of one flush: the rows' values, into the table of the last row received. */
  function BatchStatement(chunk: seq<SqlRecord>): (st: Statement)
    requires chunk != []
  {
    InsertStatement(ValuesOf(chunk), Last(chunk).TableName()).value
  }

  /** One statement per non-empty flush, in order. */
  function BatchStatements(chunks: seq<seq<SqlRecord>>): (stmts: seq<Statement>)
  {
    if chunks == [] then []
    else BatchStatements(Init(chunks)) + (if Last(chunks) == [] then [] else [BatchStatement(Last(chunks))])
  }

  lemma BatchStatementsSnoc(chunks: seq<seq<SqlRecord>>, chunk: seq<SqlRecord>)
    requires chunk != []
    ensures BatchStatements(chunks + [chunk]) == BatchStatements(chunks) + [BatchStatement(chunk)]
  {
    assert Init(chunks + [chunk]) == chunks;
  }

  /** A flush: processBulkInsert on the buffered values, into the table of the last row received. */
  method FlushBatch(buffer: seq<seq<Json>>, table: string, ghost chunk: seq<SqlRecord>) returns (st: Statement)
    requires chunk != [] && buffer == ValuesOf(chunk) && table == Last(chunk).TableName()
    ensures st == BatchStatement(chunk)
  {
    var r := ProcessBulkInsert(buffer, table);
    st := r.value;
  }

  /**
   * processChannelBuffer: buffer each row's values; at 100 rows insert them into the table of the
   * row just received and clear the buffer; when the channel is closed, insert what is left, if
   * anything, into the table of the last row received.
   */
  method ProcessChannelBuffer(records: seq<SqlRecord>) returns (stmts: seq<Statement>)
    ensures stmts == BatchStatements(Chunks(records, BatchLimit))
  {
    var batchCount: nat := 0;
    var bulkBuffer: seq<seq<Json>> := [];
    stmts := [];
    ghost var pending: seq<SqlRecord> := [];
    ghost var bulks: seq<seq<SqlRecord>> := [];
    ghost var flushed: nat, c: nat := 0, 0;
    for i := 0 to |records|
      invariant Buffered(records[..i], bulks, pending, flushed, c, BatchLimit)
      invariant batchCount == |pending| && bulkBuffer == ValuesOf(pending)
      invariant stmts == BatchStatements(bulks)
    {
      bulkBuffer, batchCount, stmts, pending, bulks, flushed, c :=
        BufferRow(records, i, bulkBuffer, batchCount, stmts, pending, bulks, flushed, c);
    }
    assert records[..|records|] == records;
    LastFlush(records, bulks, pending, flushed, c, BatchLimit);
    if batchCount > 0 {
      assert Last(pending) == Last(records);
      var st := FlushBatch(bulkBuffer, Last(records).TableName(), pending);
      BatchStatementsSnoc(bulks, pending);
      stmts := stmts + [st];
    }
  }

  /** The flush of a full buffer, ending with `record`: one more statement. */
  method FlushFull(buffer: seq<seq<Json>>, record: SqlRecord, stmts: seq<Statement>,
                   ghost pending: seq<SqlRecord>, ghost bulks: seq<seq<SqlRecord>>)
    returns (stmts': seq<Statement>)
    requires buffer == ValuesOf(pending + [record]) && stmts == BatchStatements(bulks)
    ensures stmts' == BatchStatements(bulks + [pending + [record]])
  {
    assert Last(pending + [record]) == record;
    var st := FlushBatch(buffer, record.TableName(), pending + [record]);
    BatchStatementsSnoc(bulks, pending + [record]);
    stmts' := stmts + [st];
  }

  /** One row received by processChannelBuffer: buffer it, and flush when the buffer is full. */
  method BufferRow(records: seq<SqlRecord>, i: nat, bulkBuffer: seq<seq<Json>>, batchCount: nat, stmts: seq<Statement>,
                   ghost pending: seq<SqlRecord>, ghost bulks: seq<seq<SqlRecord>>, ghost flushed: nat, ghost c: nat)
    returns (bulkBuffer': seq<seq<Json>>, batchCount': nat, stmts': seq<Statement>,
             ghost pending': seq<SqlRecord>, ghost bulks': seq<seq<SqlRecord>>, ghost flushed': nat, ghost c': nat)
    requires i < |records| && Buffered(records[..i], bulks, pending, flushed, c, BatchLimit)
    requires batchCount == |pending| && bulkBuffer == ValuesOf(pending) && stmts == BatchStatements(bulks)
    ensures Buffered(records[..i + 1], bulks', pending', flushed', c', BatchLimit)
    ensures batchCount' == |pending'| && bulkBuffer' == ValuesOf(pending') && stmts' == BatchStatements(bulks')
  {
    var record := records[i];
    assert records[..i + 1] == records[..i] + [record];
    bulkBuffer' := bulkBuffer + [record.GetValues()];
    batchCount' := batchCount + 1;
    ValuesSnoc(pending, record);
    if batchCount' >= BatchLimit {
      FlushStep(records[..i], bulks, pending, flushed, c, BatchLimit, record, records[..i + 1]);
      stmts' := FlushFull(bulkBuffer', record, stmts, pending, bulks);
      bulks', pending', flushed', c' := bulks + [pending + [record]], [], flushed + BatchLimit, c + 1;
      bulkBuffer' := [];
      batchCount' := 0;
    } else {
      KeepStep(records[..i], bulks, pending, flushed, c, BatchLimit, record, records[..i + 1]);
      stmts', bulks', pending', flushed', c' := stmts, bulks, pending + [record], flushed, c;
    }
  }
}

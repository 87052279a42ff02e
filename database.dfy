/** The database helpers of the web tier: the SQL text and positional
    parameters that `insert` and `update` build from a PHP array, and the
    connection that `getDbConnection` keeps for the rest of the request.
    Preparing and executing a statement is PDO's work and not part of this
    model: a statement is its SQL text and its parameters. */
module Database {
  import opened Wrappers
  import opened Text
  import opened Php

  /** A PHP array with string keys, in insertion order. */
  type Data = seq<(string, PhpVal)>

  /** `array_keys($data)`. */
  function Keys(data: Data): seq<string>
  {
    seq(|data|, i requires 0 <= i < |data| => data[i].0)
  }

  /** `array_values($data)`. */
  function Values(data: Data): seq<PhpVal>
  {
    seq(|data|, i requires 0 <= i < |data| => data[i].1)
  }

  /** `array_fill(0, n, $v)`. */
  function Fill(n: nat, v: string): seq<string>
  {
    seq(n, _ => v)
  }

  // The fixed pieces of the SQL text.
  const Tick := "`"
  const InsertHead := "INSERT INTO `"
  const ColumnsOpen := "` (`"
  const ColumnSep := "`, `"
  const ValuesOpen := "`) VALUES ("
  const Close := ")"
  const ListSep := ", "
  const Placeholder := "?"
  const UpdateHead := "UPDATE `"
  const SetWord := "` SET "
  const WhereWord := " WHERE `"
  const EqualsWord := "` = "
  const EqualsPlaceholder := "` = ?"

  /** Each name between backticks. */
  function Quoted(names: seq<string>): seq<string>
  {
    seq(|names|, i requires 0 <= i < |names| => Tick + names[i] + Tick)
  }

  /** One `` `k` = ? `` per name. */
  function Assignments(names: seq<string>): seq<string>
  {
    seq(|names|, i requires 0 <= i < |names| => Tick + names[i] + EqualsPlaceholder)
  }

  /** Text to prepare and the values bound to its `?` placeholders. */
  datatype Statement = Statement(sql: string, params: seq<PhpVal>)

  /** No name holds a question mark, so the only ones in the SQL are the
      placeholders. */
  predicate PlainNames(names: seq<string>)
  {
    forall i :: 0 <= i < |names| ==> Plain(names[i])
  }

  /** The text holds no question mark. */
  predicate Plain(s: string)
  {
    forall i :: 0 <= i < |s| ==> s[i] != '?'
  }

  /** `insert($table, $data)` up to `execute`: one backticked column per
      key in key order, `", "` between them, one placeholder per key, and
      the values in the same order. */
  function InsertStatement(table: string, data: Data): (st: Statement)
    ensures data != [] ==>
      st.sql == InsertHead + table + "` (" + Join(Quoted(Keys(data)), ListSep) + ") VALUES ("
                + Join(Fill(|data|, Placeholder), ListSep) + Close
    ensures |st.params| == |data| && forall i :: 0 <= i < |data| ==> st.params[i] == data[i].1
  {
    var keys := Keys(data);
    var placeholders := Fill(|keys|, Placeholder);
    var columns := Join(keys, ColumnSep);
    JoinQuoted(keys);
    assert ColumnsOpen == "` (" + Tick && ValuesOpen == Tick + ") VALUES (";
    Statement(InsertHead + table + ColumnsOpen + columns + ValuesOpen + Join(placeholders, ListSep) + Close,
              Values(data))
  }

  /** Joining names with `` "`, `" `` between outer backticks is joining the
      backticked names with `", "`. */
  lemma {:induction false} JoinQuoted(names: seq<string>)
    ensures names != [] ==> Tick + Join(names, ColumnSep) + Tick == Join(Quoted(names), ListSep)
  {
    if |names| > 1 {
      JoinQuoted(names[1..]);
      assert Quoted(names)[1..] == Quoted(names[1..]);
      var rest := Join(names[1..], ColumnSep);
      assert ColumnSep == Tick + ListSep + Tick;
      calc {
        Tick + Join(names, ColumnSep) + Tick;
        Tick + (names[0] + ColumnSep + rest) + Tick;
        (Tick + names[0] + Tick) + ListSep + (Tick + rest + Tick);
        Join(Quoted(names), ListSep);
      }
    } else if |names| == 1 {
      assert Quoted(names) == [Tick + names[0] + Tick];
    }
  }

  /** When every part holds `k` copies of `c` and the separator none,
      the joined text holds `k` per part. */
  lemma {:induction false} CountCharJoin(parts: seq<string>, sep: string, c: char, k: nat)
    requires CountChar(sep, c) == 0 && forall i :: 0 <= i < |parts| ==> CountChar(parts[i], c) == k
    ensures CountChar(Join(parts, sep), c) == k * |parts|
  {
    if |parts| > 1 {
      CountCharJoin(parts[1..], sep, c, k);
      CountCharAppend(parts[0], sep, c);
      CountCharAppend(parts[0] + sep, Join(parts[1..], sep), c);
    }
  }

  lemma CountCharSeven(a: string, b: string, c: string, d: string, e: string, f: string, g: string, x: char)
    ensures CountChar(a + b + c + d + e + f + g, x) ==
      CountChar(a, x) + CountChar(b, x) + CountChar(c, x) + CountChar(d, x)
      + CountChar(e, x) + CountChar(f, x) + CountChar(g, x)
  {
    CountCharAppend(a, b, x);
    CountCharAppend(a + b, c, x);
    CountCharAppend(a + b + c, d, x);
    CountCharAppend(a + b + c + d, e, x);
    CountCharAppend(a + b + c + d + e, f, x);
    CountCharAppend(a + b + c + d + e + f, g, x);
  }

  /** The fixed pieces hold no question mark; `` "` = ?" `` ends in the
      one placeholder of an assignment. */
  lemma FragmentsPlain()
    ensures Plain(Tick) && Plain(InsertHead) && Plain(ColumnsOpen) && Plain(ColumnSep)
    ensures Plain(ValuesOpen) && Plain(Close) && Plain(ListSep)
    ensures Plain(UpdateHead) && Plain(SetWord) && Plain(WhereWord)
    ensures EqualsPlaceholder == EqualsWord + Placeholder && Plain(EqualsWord)
  {
  }

  lemma PlainCount(s: string)
    requires Plain(s)
    ensures CountChar(s, '?') == 0
  {
    CountCharAbsent(s, '?');
  }

  lemma PlaceholderCount()
    ensures CountChar(Placeholder, '?') == 1 && CountChar(EqualsPlaceholder, '?') == 1
  {
    FragmentsPlain();
    PlainCount(EqualsWord);
    CountCharAppend(EqualsWord, Placeholder, '?');
    assert Placeholder[1..] == [];
  }

  /** The insert's SQL has exactly one placeholder per key. */
  lemma InsertPlaceholderCount(table: string, data: Data)
    requires Plain(table) && PlainNames(Keys(data))
    ensures CountChar(InsertStatement(table, data).sql, '?') == |data|
  {
    var keys := Keys(data);
    var columns := Join(keys, ColumnSep);
    var values := Join(Fill(|keys|, Placeholder), ListSep);
    assert InsertStatement(table, data).sql ==
      InsertHead + table + ColumnsOpen + columns + ValuesOpen + values + Close;
    CountCharSeven(InsertHead, table, ColumnsOpen, columns, ValuesOpen, values, Close, '?');
    FragmentsPlain();
    PlainCount(InsertHead);
    PlainCount(ColumnsOpen);
    PlainCount(ValuesOpen);
    PlainCount(Close);
    PlainCount(table);
    InsertListsCount(keys);
  }

  /** The column list holds no question mark and the value list one per
      column. */
  lemma InsertListsCount(keys: seq<string>)
    requires PlainNames(keys)
    ensures CountChar(Join(keys, ColumnSep), '?') == 0
    ensures CountChar(Join(Fill(|keys|, Placeholder), ListSep), '?') == |keys|
  {
    FragmentsPlain();
    PlainCount(ColumnSep);
    forall i | 0 <= i < |keys| ensures CountChar(keys[i], '?') == 0 {
      PlainCount(keys[i]);
    }
    CountCharJoin(keys, ColumnSep, '?', 0);
    PlaceholdersCount(|keys|);
  }

  lemma PlaceholdersCount(n: nat)
    ensures CountChar(Join(Fill(n, Placeholder), ListSep), '?') == n
  {
    FragmentsPlain();
    PlaceholderCount();
    PlainCount(ListSep);
    var marks := Fill(n, Placeholder);
    assert forall i :: 0 <= i < |marks| ==> CountChar(marks[i], '?') == 1;
    CountCharJoin(marks, ListSep, '?', 1);
  }

  /** The SQL `update` prepares. */
  function UpdateSql(table: string, keys: seq<string>, whereCol: string): string
  {
    UpdateHead + table + SetWord + Join(Assignments(keys), ListSep) + WhereWord + whereCol + EqualsPlaceholder
  }

  /** `update($table, $data, $whereCol, $whereVal)` up to `execute`: the
      assignments are built one key at a time, and the parameters are the
      values followed by the condition's value. */
  method UpdateStatement(table: string, data: Data, whereCol: string, whereVal: PhpVal) returns (st: Statement)
    ensures st.sql == UpdateSql(table, Keys(data), whereCol)
    ensures |st.params| == |data| + 1 && st.params[|data|] == whereVal
    ensures forall i :: 0 <= i < |data| ==> st.params[i] == data[i].1
    ensures st.params == Values(data) + [whereVal]
  {
    var keys := Keys(data);
    var assignments: seq<string> := [];
    for k := 0 to |keys|
      invariant |assignments| == k && forall i :: 0 <= i < k ==> assignments[i] == Tick + keys[i] + EqualsPlaceholder
    {
      assignments := assignments + [Tick + keys[k] + EqualsPlaceholder];
    }
    assert assignments == Assignments(keys);
    var sql := UpdateHead + table + SetWord + Join(assignments, ListSep) + WhereWord + whereCol + EqualsPlaceholder;
    var params := Values(data);
    params := params + [whereVal];
    st := Statement(sql, params);
  }

  /** The update's SQL has one placeholder per key and one for the
      condition, as many as its parameters. */
  lemma UpdatePlaceholderCount(table: string, keys: seq<string>, whereCol: string)
    requires Plain(table) && Plain(whereCol) && PlainNames(keys)
    ensures CountChar(UpdateSql(table, keys, whereCol), '?') == |keys| + 1
  {
    var assignments := Assignments(keys);
    FragmentsPlain();
    PlaceholderCount();
    PlainCount(Tick);
    forall i | 0 <= i < |keys| ensures CountChar(assignments[i], '?') == 1 {
      var k := keys[i];
      CountCharAppend(Tick, k, '?');
      CountCharAppend(Tick + k, EqualsPlaceholder, '?');
      PlainCount(k);
    }
    PlainCount(ListSep);
    CountCharJoin(assignments, ListSep, '?', 1);
    var body := Join(assignments, ListSep);
    CountCharSeven(UpdateHead, table, SetWord, body, WhereWord, whereCol, EqualsPlaceholder, '?');
    PlainCount(UpdateHead);
    PlainCount(SetWord);
    PlainCount(WhereWord);
    PlainCount(table);
    PlainCount(whereCol);
  }

  /** What one `insert` gave: an exception, or the text of
      `lastInsertId()`, which the pages test for PHP truthiness. */
  datatype InsertAnswer = InsertRaised | InsertReturned(id: string)

  predicate Inserted(a: InsertAnswer)
  {
    a.InsertReturned? && !EmptyString(a.id)
  }

  /** What one `update` gave: an exception, or `rowCount()`, the number of
      rows MySQL reports as changed (a row rewritten with its own values
      does not count). */
  datatype UpdateAnswer = UpdateRaised | RowCount(n: nat)

  /** A PDO connection, told apart by the order in which it was opened. */
  datatype Connection = Connection(serial: nat)

  /** The `static $connection` of `getDbConnection`, and how many PDO
      objects were created during the request. */
  class ConnectionCache {
    var connection: Option<Connection>
    var created: nat

    ghost predicate Valid()
      reads this
    {
      && created <= 1
      && (connection.None? <==> created == 0)
      && (connection.Some? ==> connection.value == Connection(1))
    }

    constructor ()
      ensures Valid() && connection.None? && created == 0
    {
      connection := None;
      created := 0;
    }

    /** `getDbConnection()`, given whether `new PDO` succeeds. On failure
        the script dies, shown here as `None`. */
    method GetDbConnection(connects: bool) returns (c: Option<Connection>)
      requires Valid()
      modifies this
      ensures Valid()
      ensures old(connection).Some? ==> c == old(connection) && connection == old(connection) && created == old(created)
      ensures old(connection).None? && connects ==> c.Some? && connection == c && created == 1
      ensures old(connection).None? && !connects ==> c.None? && connection.None? && created == 0
    {
      if connection.None? {
        if !connects {
          return None;
        }
        created := created + 1;
        connection := Some(Connection(created));
      }
      c := connection;
    }
  }

  /** Two calls in one request give the same connection, and at most one
      PDO object is ever created. */
  method TwoConnections(cache: ConnectionCache, first: bool, second: bool)
    returns (a: Option<Connection>, b: Option<Connection>)
    requires cache.Valid()
    modifies cache
    ensures cache.Valid() && cache.created <= 1
    ensures a.Some? ==> b == a
  {
    a := cache.GetDbConnection(first);
    b := cache.GetDbConnection(second);
  }
}

/** The storage side of src/db.ts: the batch INSERT the service builds, and the `heart_rate`
    table as an abstract store whose primary key (user_id, time) makes conflicting rows be
    skipped (`ON CONFLICT (user_id, time) DO NOTHING`). */
module Db {
  import opened Wrappers
  import opened JsNumbers
  import opened Text
  import opened Api

  /** A bound query parameter: `new Date(time)`, or a JavaScript number. */
  datatype Param = Timestamp(ms: int) | Number(n: JsNum)

  datatype Row = Row(time: int, bpm: int, userId: JsNum)

  /** The primary key `(user_id, time)`. */
  datatype RowKey = RowKey(userId: JsNum, time: int)

  datatype Statement = Statement(sql: string, params: seq<Param>)

  /** The fixed text around the VALUES list (written in pieces only to keep proofs about
      its characters short). */
  const InsertHead: string := "INSERT INTO heart_rate " + "(time, bpm, user_id)\n" + "     VALUES "
  const ConflictClause: string := "\n     ON CONFLICT " + "(user_id, time) " + "DO NOTHING"

  function KeyOf(r: Row): RowKey { RowKey(r.userId, r.time) }

  function Keys(rows: seq<Row>): set<RowKey> {
    set i | 0 <= i < |rows| :: KeyOf(rows[i])
  }

  /** The table's primary key: no two rows share `(user_id, time)`. */
  ghost predicate UniqueKeys(rows: seq<Row>) {
    forall i, j :: 0 <= i < j < |rows| ==> KeyOf(rows[i]) != KeyOf(rows[j])
  }

  /** The placeholder tuple of the `i`-th point: `($3i+1, $3i+2, $3i+3)`. */
  function Placeholder(i: nat): string {
    "($" + FormatInt(3 * i + 1) + ", $" + FormatInt(3 * i + 2) + ", $" + FormatInt(3 * i + 3) + ")"
  }

  /** The parameter numbers a statement text names, in order of appearance: each `$` directly
      followed by decimal digits names the parameter with that number. */
  function ParamNumbers(s: string): seq<nat>
    decreases |s|
  {
    if s == [] then []
    else
      var tail := ParamNumbers(s[1..]);
      var k := DigitRun(s[1..]);
      if s[0] == '$' && k > 0 then [DecimalValue(s[1..][..k])] + tail else tail
  }

  /** Text without a `$` names no parameter, whatever follows it. */
  lemma {:induction false} ParamNumbersSkip(a: string, x: string)
    requires '$' !in a
    ensures ParamNumbers(a + x) == ParamNumbers(x)
    decreases |a|
  {
    if a != [] {
      assert (a + x)[0] == a[0];
      assert (a + x)[1..] == a[1..] + x;
      ParamNumbersSkip(a[1..], x);
    } else {
      assert a + x == x;
    }
  }

  /** `$` followed by the digits of `n` names parameter `n`, when no digit follows. */
  lemma ParamNumbersOfParam(n: nat, x: string)
    requires x == [] || !IsDigit(x[0])
    ensures ParamNumbers("$" + Digits(n) + x) == [n] + ParamNumbers(x)
  {
    var ds := Digits(n);
    var s := "$" + ds + x;
    assert s[1..] == ds + x;
    DigitRunStopsAt(ds, x);
    assert (ds + x)[..|ds|] == ds;
    DecimalValueOfDigits(n);
    assert forall i :: 0 <= i < |ds| ==> ds[i] != '$' by {
      forall i | 0 <= i < |ds| ensures ds[i] != '$' { assert IsDigit(ds[i]); }
    }
    ParamNumbersSkip(ds, x);
  }

  /** Tuple `i` names the parameters `3i+1`, `3i+2` and `3i+3`, in that order. */
  lemma PlaceholderParams(i: nat, x: string)
    ensures ParamNumbers(Placeholder(i) + x) == [3 * i + 1, 3 * i + 2, 3 * i + 3] + ParamNumbers(x)
  {
    PlaceholderText(i, x, Digits(3 * i + 1), Digits(3 * i + 2), Digits(3 * i + 3));
    TupleParams(3 * i + 1, 3 * i + 2, 3 * i + 3, "(", ", ", ")", x);
  }

  /** Three parameters separated by texts that name none name exactly those three. */
  lemma TupleParams(a: nat, b: nat, c: nat, open: string, sep: string, close: string, x: string)
    requires '$' !in open && '$' !in sep && '$' !in close
    requires |sep| > 0 && !IsDigit(sep[0]) && |close| > 0 && !IsDigit(close[0])
    ensures ParamNumbers(open + ("$" + Digits(a) + (sep + ("$" + Digits(b) + (sep + ("$" + Digits(c) + (close + x)))))))
            == [a, b, c] + ParamNumbers(x)
  {
    var y2 := sep + ("$" + Digits(c) + (close + x));
    var y1 := sep + ("$" + Digits(b) + y2);
    ParamNumbersSkip(close, x);
    SkipThenParam(sep, c, close + x);
    SkipThenParam(sep, b, y2);
    SkipThenParam(open, a, y1);
    PrependThree(a, b, c, ParamNumbers(x));
  }

  lemma PrependThree(a: nat, b: nat, c: nat, t: seq<nat>)
    ensures [a] + ([b] + ([c] + t)) == [a, b, c] + t
  {
  }

  lemma SkipThenParam(w: string, n: nat, y: string)
    requires '$' !in w && (y == [] || !IsDigit(y[0]))
    ensures ParamNumbers(w + ("$" + Digits(n) + y)) == [n] + ParamNumbers(y)
  {
    ParamNumbersSkip(w, "$" + Digits(n) + y);
    ParamNumbersOfParam(n, y);
  }

  lemma PlaceholderText(i: nat, x: string, d1: string, d2: string, d3: string)
    requires d1 == Digits(3 * i + 1) && d2 == Digits(3 * i + 2) && d3 == Digits(3 * i + 3)
    ensures Placeholder(i) + x == "(" + ("$" + d1 + (", " + ("$" + d2 + (", " + ("$" + d3 + (")" + x))))))
  {
    assert FormatInt(3 * i + 1) == d1 && FormatInt(3 * i + 2) == d2 && FormatInt(3 * i + 3) == d3;
  }

  /** The statement's opening text names no parameter. */
  lemma InsertHeadNamesNone()
    ensures '$' !in InsertHead
  {
  }

  /** The conflict clause names no parameter and does not start with a digit. */
  lemma ConflictClauseNamesNone()
    ensures ParamNumbers(ConflictClause) == [] && !IsDigit(ConflictClause[0])
  {
    ParamNumbersSkip(ConflictClause, "");
    assert ConflictClause + "" == ConflictClause;
  }

  /** The tuples `j` to `n - 1`, joined and followed by a text `z` that names no parameter,
      name the parameters `3j+1` to `3n` in increasing order. */
  lemma {:induction false} JoinedPlaceholderParams(n: nat, j: nat, z: string)
    requires j <= n
    requires ParamNumbers(z) == [] && (z == [] || !IsDigit(z[0]))
    ensures ParamNumbers(Join(Placeholders(n)[j..], ", ") + z)
            == seq(3 * (n - j), k requires 0 <= k => 3 * j + k + 1)
    decreases n - j
  {
    var ps := Placeholders(n)[j..];
    if j == n {
      assert Join(ps, ", ") + z == z;
    } else if n - j == 1 {
      assert Join(ps, ", ") == Placeholder(j);
      PlaceholderParams(j, z);
      ShiftedRange(j, 0);
    } else {
      assert ps[0] == Placeholder(j) && ps[1..] == Placeholders(n)[j + 1..];
      JoinedPlaceholderParams(n, j + 1, z);
      JoinedStep(ps, j, n - j - 1, z);
    }
  }

  /** One more tuple in front of the joined rest adds its three parameters in front. */
  lemma JoinedStep(ps: seq<string>, j: nat, m: nat, z: string)
    requires |ps| >= 2 && ps[0] == Placeholder(j)
    requires ParamNumbers(Join(ps[1..], ", ") + z) == seq(3 * m, k requires 0 <= k => 3 * (j + 1) + k + 1)
    ensures ParamNumbers(Join(ps, ", ") + z) == seq(3 * (m + 1), k requires 0 <= k => 3 * j + k + 1)
  {
    JoinCons(ps, ", ", z);
    TupleThenRest(j, Join(ps[1..], ", ") + z);
    ShiftedRange(j, m);
  }

  lemma TupleThenRest(j: nat, rest: string)
    ensures ParamNumbers(Placeholder(j) + (", " + rest)) == [3 * j + 1, 3 * j + 2, 3 * j + 3] + ParamNumbers(rest)
  {
    PlaceholderParams(j, ", " + rest);
    ParamNumbersSkip(", ", rest);
  }

  lemma JoinCons(ps: seq<string>, sep: string, z: string)
    requires |ps| >= 2
    ensures Join(ps, sep) + z == ps[0] + (sep + (Join(ps[1..], sep) + z))
  {
  }

  lemma ShiftedRange(j: nat, m: nat)
    ensures [3 * j + 1, 3 * j + 2, 3 * j + 3] + seq(3 * m, k requires 0 <= k => 3 * (j + 1) + k + 1)
            == seq(3 * (m + 1), k requires 0 <= k => 3 * j + k + 1)
  {
  }

  /** The statement for `n` points names the parameters `$1` to `$3n`, each once and in
      increasing order, so the 3n bound values line up with the tuples. */
  lemma InsertSqlParams(n: nat)
    ensures ParamNumbers(InsertSql(Placeholders(n))) == seq(3 * n, k requires 0 <= k => k + 1)
  {
    InsertHeadNamesNone();
    ConflictClauseNamesNone();
    WrappedPlaceholderParams(InsertHead, n, ConflictClause);
  }

  /** The joined tuples between a text naming no parameter and one that names none and does
      not start with a digit name the parameters `1` to `3n` in order. */
  lemma WrappedPlaceholderParams(head: string, n: nat, z: string)
    requires '$' !in head
    requires ParamNumbers(z) == [] && (z == [] || !IsDigit(z[0]))
    ensures ParamNumbers(head + Join(Placeholders(n), ", ") + z) == seq(3 * n, k requires 0 <= k => k + 1)
  {
    var ps := Placeholders(n);
    assert head + Join(ps, ", ") + z == head + (Join(ps, ", ") + z);
    assert ps[0..] == ps;
    ParamNumbersSkip(head, Join(ps, ", ") + z);
    JoinedPlaceholderParams(n, 0, z);
  }

  /** The row that the parameters `$3i+1, $3i+2, $3i+3` describe, when their types fit
      the columns `(time, bpm, user_id)`. */
  function BoundRow(values: seq<Param>, i: nat): Option<Row>
    requires 3 * i + 3 <= |values|
  {
    match (values[3 * i], values[3 * i + 1], values[3 * i + 2])
    case (Timestamp(t), Number(Num(b)), Number(u)) => Some(Row(t, b, u))
    case _ => None
  }

  /** The rows a batch of points becomes for one user. */
  function RowsFor(points: seq<HeartRatePoint>, userId: JsNum): (rows: seq<Row>)
    ensures |rows| == |points|
  {
    seq(|points|, i requires 0 <= i < |points| => Row(points[i].time, points[i].bpm, userId))
  }

  /** The placeholder tuples of a batch of `n` points, in order. */
  function Placeholders(n: nat): seq<string> {
    seq(n, i requires 0 <= i => Placeholder(i))
  }

  /** The statement text: one VALUES clause of tuples joined with ", ". */
  function InsertSql(placeholders: seq<string>): string {
    InsertHead + Join(placeholders, ", ") + ConflictClause
  }

  /** The first `n` points have their placeholder tuple and their bound parameters. */
  ghost predicate BuiltUpTo(placeholders: seq<string>, values: seq<Param>, points: seq<HeartRatePoint>, userId: JsNum, n: nat) {
    n <= |points| && |placeholders| == n && |values| == 3 * n
    && (forall k :: 0 <= k < n ==> placeholders[k] == Placeholder(k))
    && (forall k :: 0 <= k < n ==> BoundRow(values, k) == Some(Row(points[k].time, points[k].bpm, userId)))
  }

  /** The loop of `insertHeartRatePoints`: a placeholder tuple per point and a flat list of
      three parameters per point, whose tuple `i` binds point `i`'s time, bpm and the user. */
  method BuildInsert(points: seq<HeartRatePoint>, userId: JsNum) returns (placeholders: seq<string>, values: seq<Param>)
    ensures |placeholders| == |points| && |values| == 3 * |points|
    ensures forall i :: 0 <= i < |points| ==> placeholders[i] == Placeholder(i)
    ensures forall i :: 0 <= i < |points| ==> BoundRow(values, i) == Some(Row(points[i].time, points[i].bpm, userId))
  {
    placeholders, values := [], [];
    for i := 0 to |points|
      invariant BuiltUpTo(placeholders, values, points, userId, i)
    {
      var offset := i * 3;
      var tuple := "($" + FormatInt(offset + 1) + ", $" + FormatInt(offset + 2) + ", $" + FormatInt(offset + 3) + ")";
      var triple := [Timestamp(points[i].time), Number(Num(points[i].bpm)), Number(userId)];
      BuildStep(placeholders, values, points, userId, i, tuple, triple);
      placeholders := placeholders + [tuple];
      values := values + triple;
    }
  }

  lemma BuildStep(placeholders: seq<string>, values: seq<Param>, points: seq<HeartRatePoint>, userId: JsNum, i: nat,
                  tuple: string, triple: seq<Param>)
    requires BuiltUpTo(placeholders, values, points, userId, i) && i < |points|
    requires tuple == "($" + FormatInt(i * 3 + 1) + ", $" + FormatInt(i * 3 + 2) + ", $" + FormatInt(i * 3 + 3) + ")"
    requires triple == [Timestamp(points[i].time), Number(Num(points[i].bpm)), Number(userId)]
    ensures BuiltUpTo(placeholders + [tuple], values + triple, points, userId, i + 1)
  {
    var vs := values + triple;
    forall k | 0 <= k < i ensures BoundRow(vs, k) == BoundRow(values, k) {
      BoundRowAppend(values, triple, k);
    }
    assert vs[3 * i] == triple[0] && vs[3 * i + 1] == triple[1] && vs[3 * i + 2] == triple[2];
    assert BoundRow(vs, i) == Some(Row(points[i].time, points[i].bpm, userId));
    assert tuple == Placeholder(i);
  }

  lemma BoundRowAppend(values: seq<Param>, extra: seq<Param>, k: nat)
    requires 3 * k + 3 <= |values|
    ensures BoundRow(values + extra, k) == BoundRow(values, k)
  {
    var w := values + extra;
    assert w[3 * k] == values[3 * k] && w[3 * k + 1] == values[3 * k + 1] && w[3 * k + 2] == values[3 * k + 2];
  }

  /** The table after the INSERT: each row of the batch, in order, is added unless a row
      with its key is already there (earlier in the same batch included). */
  function ConflictSkip(rows: seq<Row>, batch: seq<Row>): (r: seq<Row>)
    ensures |rows| <= |r| <= |rows| + |batch| && r[..|rows|] == rows
    decreases |batch|
  {
    if batch == [] then rows
    else
      var next := if KeyOf(batch[0]) in Keys(rows) then rows else rows + [batch[0]];
      ConflictSkip(next, batch[1..])
  }

  /** The keys after the insert are the old keys and the batch's keys. */
  lemma {:induction false} ConflictSkipKeys(rows: seq<Row>, batch: seq<Row>)
    ensures Keys(ConflictSkip(rows, batch)) == Keys(rows) + Keys(batch)
    decreases |batch|
  {
    if batch != [] {
      var next := if KeyOf(batch[0]) in Keys(rows) then rows else rows + [batch[0]];
      KeysAppend(rows, batch[0]);
      KeysCons(batch);
      ConflictSkipKeys(next, batch[1..]);
    }
  }

  lemma KeysAppend(rows: seq<Row>, row: Row)
    ensures Keys(rows + [row]) == Keys(rows) + {KeyOf(row)}
  {
    var r := rows + [row];
    assert KeyOf(r[|rows|]) in Keys(r);
    forall k | k in Keys(r) ensures k in Keys(rows) + {KeyOf(row)} {
      var i :| 0 <= i < |r| && KeyOf(r[i]) == k;
      if i < |rows| { assert r[i] == rows[i]; }
    }
    forall k | k in Keys(rows) ensures k in Keys(r) {
      var i :| 0 <= i < |rows| && KeyOf(rows[i]) == k;
      assert r[i] == rows[i];
    }
  }

  lemma KeysCons(batch: seq<Row>)
    requires batch != []
    ensures Keys(batch) == {KeyOf(batch[0])} + Keys(batch[1..])
  {
    assert batch == [batch[0]] + batch[1..];
    forall k | k in Keys(batch) ensures k in {KeyOf(batch[0])} + Keys(batch[1..]) {
      var i :| 0 <= i < |batch| && KeyOf(batch[i]) == k;
      if i > 0 { assert batch[1..][i - 1] == batch[i]; }
    }
    forall k | k in Keys(batch[1..]) ensures k in Keys(batch) {
      var i :| 0 <= i < |batch[1..]| && KeyOf(batch[1..][i]) == k;
      assert batch[i + 1] == batch[1..][i];
    }
  }

  /** The primary key is kept: inserting into a table with unique keys leaves them unique. */
  lemma {:induction false} ConflictSkipKeepsKeysUnique(rows: seq<Row>, batch: seq<Row>)
    requires UniqueKeys(rows)
    ensures UniqueKeys(ConflictSkip(rows, batch))
    decreases |batch|
  {
    if batch != [] {
      var next := if KeyOf(batch[0]) in Keys(rows) then rows else rows + [batch[0]];
      if KeyOf(batch[0]) !in Keys(rows) {
        forall i, j | 0 <= i < j < |next| ensures KeyOf(next[i]) != KeyOf(next[j]) {
          if j == |rows| {
            assert next[i] == rows[i];
            assert KeyOf(rows[i]) in Keys(rows);
          } else {
            assert next[i] == rows[i] && next[j] == rows[j];
          }
        }
      }
      ConflictSkipKeepsKeysUnique(next, batch[1..]);
    }
  }

  /** A batch whose keys are all present already adds nothing. */
  lemma {:induction false} ConflictSkipAllPresent(rows: seq<Row>, batch: seq<Row>)
    requires Keys(batch) <= Keys(rows)
    ensures ConflictSkip(rows, batch) == rows
    decreases |batch|
  {
    if batch != [] {
      KeysCons(batch);
      ConflictSkipAllPresent(rows, batch[1..]);
    }
  }

  /** Idempotence: inserting the same batch a second time adds no row. */
  lemma ConflictSkipIdempotent(rows: seq<Row>, batch: seq<Row>)
    ensures ConflictSkip(ConflictSkip(rows, batch), batch) == ConflictSkip(rows, batch)
  {
    ConflictSkipKeys(rows, batch);
    ConflictSkipAllPresent(ConflictSkip(rows, batch), batch);
  }

  /** Scenario: one of three samples is already stored for the user; only the other two are
      inserted. */
  lemma OneDuplicateScenario(u: JsNum)
    ensures var points := [HeartRatePoint(60, 100), HeartRatePoint(61, 200), HeartRatePoint(62, 300)];
      var rows := [Row(100, 60, u)];
      |ConflictSkip(rows, RowsFor(points, u))| - |rows| == 2
  {
    var points := [HeartRatePoint(60, 100), HeartRatePoint(61, 200), HeartRatePoint(62, 300)];
    var rows := [Row(100, 60, u)];
    var batch := RowsFor(points, u);
    assert batch == [Row(100, 60, u), Row(200, 61, u), Row(300, 62, u)];
    assert KeyOf(rows[0]) in Keys(rows);
    assert ConflictSkip(rows, batch) == ConflictSkip(rows, batch[1..]);
    assert Keys(rows) == {RowKey(u, 100)};
    var r2 := rows + [batch[1]];
    assert ConflictSkip(rows, batch[1..]) == ConflictSkip(r2, batch[2..]);
    KeysAppend(rows, batch[1]);
    var r3 := r2 + [batch[2]];
    assert ConflictSkip(r2, batch[2..]) == ConflictSkip(r3, []);
  }

  /** `MAX(time)` over every row of the table, whatever its user; None for an empty table. */
  function MaxTime(rows: seq<Row>): (m: Option<int>)
    ensures m.None? <==> rows == []
    ensures m.Some? ==> (exists i :: 0 <= i < |rows| && rows[i].time == m.value)
                        && forall i :: 0 <= i < |rows| ==> rows[i].time <= m.value
  {
    if rows == [] then None
    else
      match MaxTime(rows[1..])
      case None => Some(rows[0].time)
      case Some(t) =>
        assert forall i :: 1 <= i < |rows| ==> rows[i] == rows[1..][i - 1];
        Some(if rows[0].time >= t then rows[0].time else t)
  }

  /** The `heart_rate` table. */
  class HeartRateTable {
    var rows: seq<Row>

    ghost predicate Valid()
      reads this
    {
      UniqueKeys(rows)
    }

    constructor ()
      ensures Valid() && rows == []
    {
      rows := [];
    }

    /** `getHighWaterMark()`: the latest stored time, or None when the table is empty. */
    method GetHighWaterMark() returns (mark: Option<int>)
      ensures mark == MaxTime(rows)
      ensures mark.None? <==> rows == []
      ensures mark.Some? ==> forall i :: 0 <= i < |rows| ==> rows[i].time <= mark.value
    {
      mark := MaxTime(rows);
    }

    /** `insertHeartRatePoints(points, userId)`: an empty batch issues no statement and
        returns 0; otherwise one INSERT binds every point, and the count returned is the
        number of rows that were not already present. */
    method InsertHeartRatePoints(points: seq<HeartRatePoint>, userId: JsNum) returns (inserted: nat, issued: Option<Statement>)
      requires Valid()
      modifies this
      ensures Valid()
      ensures points == [] ==> inserted == 0 && issued.None? && rows == old(rows)
      ensures points != [] ==> issued.Some? && |issued.value.params| == 3 * |points|
      ensures points != [] ==> issued.value.sql == InsertSql(Placeholders(|points|))
      ensures points != [] ==> forall i :: 0 <= i < |points| ==>
                BoundRow(issued.value.params, i) == Some(RowsFor(points, userId)[i])
      ensures rows == ConflictSkip(old(rows), RowsFor(points, userId))
      ensures inserted == |rows| - |old(rows)| && inserted <= |points|
    {
      if |points| == 0 {
        return 0, None;
      }
      var placeholders, values := BuildInsert(points, userId);
      assert placeholders == Placeholders(|points|);
      var statement := Statement(InsertSql(placeholders), values);
      ConflictSkipKeepsKeysUnique(rows, RowsFor(points, userId));
      var before := |rows|;
      rows := ConflictSkip(rows, RowsFor(points, userId));
      inserted := |rows| - before;
      issued := Some(statement);
    }
  }
}

/** The result loops of `query` and `batch`: limit, truncation, decoding and the transaction. */
module Streaming {
  import opened Prelude

  datatype Error = InvalidRequest | Unavailable | Database

  // ---- rows ----

  /** A column value as the driver gives it: its type name, and what each conversion makes of it. */
  datatype Raw = Raw(
    isNull: bool, kind: string,
    integer: Option<int>, float: Option<real>, blob: Option<seq<int>>, text: Option<string>)

  datatype Value = Null | Int(i: int) | Float(r: real) | BlobObject(bytes: seq<int>) | Str(s: string)

  datatype Row = Row(columns: seq<string>, raw: seq<Raw>)

  /** The JSON value of a column, if the conversion for its type succeeds; a type name other than the
      three is read as text. */
  function Decode(x: Raw): Option<Value> {
    if x.isNull then Some(Null)
    else if x.kind == "INTEGER" then (if x.integer.Some? then Some(Int(x.integer.value)) else None)
    else if x.kind == "REAL" then (if x.float.Some? then Some(Float(x.float.value)) else None)
    else if x.kind == "BLOB" then (if x.blob.Some? then Some(BlobObject(x.blob.value)) else None)
    else if x.text.Some? then Some(Str(x.text.value))
    else None
  }

  predicate Decodes(row: Row) {
    forall i :: 0 <= i < |row.raw| ==> Decode(row.raw[i]).Some?
  }

  function Values(row: Row): (values: seq<Value>)
    requires Decodes(row)
    ensures |values| == |row.raw|
  {
    seq(|row.raw|, i requires 0 <= i < |row.raw| => Decode(row.raw[i]).value)
  }

  /** A null column is null whatever its type name; any other goes through the conversion of its type. */
  predicate Reads(x: Raw, v: Value) {
    && (x.isNull ==> v == Null)
    && (!x.isNull && x.kind == "INTEGER" ==> v.Int? && x.integer == Some(v.i))
    && (!x.isNull && x.kind == "REAL" ==> v.Float? && x.float == Some(v.r))
    && (!x.isNull && x.kind == "BLOB" ==> v.BlobObject? && x.blob == Some(v.bytes))
    && (!x.isNull && x.kind !in ["INTEGER", "REAL", "BLOB"] ==> v.Str? && x.text == Some(v.s))
  }

  predicate Unreadable(x: Raw) {
    && !x.isNull
    && (|| (x.kind == "INTEGER" && x.integer.None?)
        || (x.kind == "REAL" && x.float.None?)
        || (x.kind == "BLOB" && x.blob.None?)
        || (x.kind !in ["INTEGER", "REAL", "BLOB"] && x.text.None?))
  }

  /** A row of nulls reads as nulls. */
  lemma NullsRead(row: Row)
    requires forall i :: 0 <= i < |row.raw| ==> row.raw[i].isNull
    ensures Decodes(row) && Values(row) == seq(|row.raw|, _ => Null)
  {
  }

  /** `row_values`: each column is read by its type name, and the first that cannot be read fails the row. */
  method RowValues(row: Row) returns (result: Result<seq<Value>, Error>)
    ensures result.Ok? <==> Decodes(row)
    ensures result.Ok? ==> result.value == Values(row)
    ensures result.Err? ==> result.error == Database
    ensures result.Ok? ==> |result.value| == |row.raw| && forall i :: 0 <= i < |row.raw| ==> Reads(row.raw[i], result.value[i])
    ensures result.Err? <==> exists i :: 0 <= i < |row.raw| && Unreadable(row.raw[i])
  {
    var values := [];
    RowReads(row);
    for i := 0 to |row.raw|
      invariant |values| == i
      invariant forall k :: 0 <= k < i ==> Decode(row.raw[k]) == Some(values[k])
    {
      var raw := row.raw[i];
      var value: Option<Value>;
      if raw.isNull {
        value := Some(Null);
      } else if raw.kind == "INTEGER" {
        value := if raw.integer.Some? then Some(Int(raw.integer.value)) else None;
      } else if raw.kind == "REAL" {
        value := if raw.float.Some? then Some(Float(raw.float.value)) else None;
      } else if raw.kind == "BLOB" {
        value := if raw.blob.Some? then Some(BlobObject(raw.blob.value)) else None;
      } else {
        value := if raw.text.Some? then Some(Str(raw.text.value)) else None;
      }
      if value.None? {
        return Err(Database);
      }
      values := values + [value.value];
    }
    return Ok(values);
  }

  /** A row reads column by column. */
  lemma RowReads(row: Row)
    ensures Decodes(row) <==> forall i :: 0 <= i < |row.raw| ==> !Unreadable(row.raw[i])
    ensures Decodes(row) ==> forall i :: 0 <= i < |row.raw| ==> Reads(row.raw[i], Values(row)[i])
  {
    forall i | 0 <= i < |row.raw|
      ensures Decode(row.raw[i]).None? <==> Unreadable(row.raw[i])
    {
    }
  }

  /** Column names are read from the first row that has any. */
  function ColumnsOf(rows: seq<Row>): seq<string> {
    if rows == [] then []
    else if ColumnsOf(rows[..|rows| - 1]) != [] then ColumnsOf(rows[..|rows| - 1])
    else rows[|rows| - 1].columns
  }

  // ---- one statement's event stream ----

  datatype Event =
    | EffectOf(rowsAffected: nat, lastInsertRowid: int)
    | RowOf(row: Row)
    | Failure

  datatype StatementResult = StatementResult(
    rowsAffected: nat, lastInsertRowid: int,
    columns: seq<string>, rows: seq<seq<Value>>, truncated: bool)

  /** The rows among the events. */
  function RowsOf(events: seq<Event>): seq<Row> {
    if events == [] then []
    else
      var before, last := RowsOf(events[..|events| - 1]), events[|events| - 1];
      if last.RowOf? then before + [last.row] else before
  }

  /** The effect reported last, or zero. */
  function LastEffect(events: seq<Event>): (nat, int) {
    if events == [] then (0, 0)
    else
      var last := events[|events| - 1];
      if last.EffectOf? then (last.rowsAffected, last.lastInsertRowid) else LastEffect(events[..|events| - 1])
  }

  /** Where the loop stops from event `i` on: at the row after `limit` rows, or at the end. */
  ghost function CutFrom(events: seq<Event>, limit: nat, i: nat): (cut: nat)
    requires i <= |events|
    ensures i <= cut <= |events|
    decreases |events| - i
  {
    if i == |events| || (events[i].RowOf? && |RowsOf(events[..i])| == limit) then i
    else CutFrom(events, limit, i + 1)
  }

  ghost function Cut(events: seq<Event>, limit: nat): (cut: nat)
    ensures cut <= |events|
  {
    CutFrom(events, limit, 0)
  }

  /** How many events the loop pulls: up to and with the row after `limit` rows. */
  ghost function Pulled(events: seq<Event>, limit: nat): nat {
    var cut := Cut(events, limit);
    if cut < |events| then cut + 1 else cut
  }

  /** Nothing pulled before `cut` failed, and every row before it decodes. */
  ghost predicate Sound(events: seq<Event>, cut: nat)
    requires cut <= |events|
  {
    forall i :: 0 <= i < cut ==> !events[i].Failure? && (events[i].RowOf? ==> Decodes(events[i].row))
  }

  /** What a statement returns when its stream is cut at `cut`. */
  ghost predicate Produces(events: seq<Event>, cut: nat, result: StatementResult)
    requires cut <= |events|
  {
    && |result.rows| == |RowsOf(events[..cut])|
    && (forall i :: 0 <= i < |result.rows| ==>
          Decodes(RowsOf(events[..cut])[i]) && result.rows[i] == Values(RowsOf(events[..cut])[i]))
    && result.truncated == (cut < |events|)
    && (result.rowsAffected, result.lastInsertRowid) == LastEffect(events[..cut])
    && result.columns == ColumnsOf(RowsOf(events[..if cut < |events| then cut + 1 else cut]))
  }

  // ---- one event ----

  /** What one more event adds to a result that is not yet truncated. */
  function Absorb(result: StatementResult, item: Event): StatementResult
    requires item.RowOf? ==> Decodes(item.row)
  {
    match item
    case EffectOf(affected, rowid) => result.(rowsAffected := affected, lastInsertRowid := rowid)
    case RowOf(row) =>
      result.(columns := if result.columns == [] then row.columns else result.columns,
              rows := result.rows + [Values(row)])
    case Failure => result
  }

  /** A partial result that matches the first `i` events. */
  ghost predicate Matches(events: seq<Event>, i: nat, result: StatementResult)
    requires i <= |events|
  {
    && Sound(events, i)
    && |result.rows| == |RowsOf(events[..i])|
    && (forall k :: 0 <= k < |result.rows| ==>
          Decodes(RowsOf(events[..i])[k]) && result.rows[k] == Values(RowsOf(events[..i])[k]))
    && !result.truncated
    && (result.rowsAffected, result.lastInsertRowid) == LastEffect(events[..i])
    && result.columns == ColumnsOf(RowsOf(events[..i]))
  }

  lemma AbsorbMatches(events: seq<Event>, i: nat, result: StatementResult)
    requires i < |events| && Matches(events, i, result)
    requires !events[i].Failure? && (events[i].RowOf? ==> Decodes(events[i].row))
    ensures Matches(events, i + 1, Absorb(result, events[i]))
  {
    assert events[..i + 1][..i] == events[..i];
    var before := RowsOf(events[..i]);
    if events[i].RowOf? {
      assert (before + [events[i].row])[..|before|] == before;
    }
  }

  lemma NothingMatches(events: seq<Event>)
    ensures Matches(events, 0, StatementResult(0, 0, [], [], false))
  {
  }

  /** A result that stops at the end, or at the row after `limit` rows, is the statement's result. */
  lemma MatchProduces(events: seq<Event>, cut: nat, result: StatementResult)
    requires cut <= |events| && Matches(events, cut, result)
    ensures cut == |events| ==> Produces(events, cut, result)
    ensures cut < |events| && events[cut].RowOf? ==>
              Produces(events, cut, result.(truncated := true,
                columns := if result.columns == [] then events[cut].row.columns else result.columns))
  {
    if cut < |events| && events[cut].RowOf? {
      assert events[..cut + 1][..cut] == events[..cut];
      var before := RowsOf(events[..cut]);
      assert (before + [events[cut].row])[..|before|] == before;
    }
  }

  /** The stream loop of one batch statement. */
  method RunStatement(events: seq<Event>, limit: nat)
    returns (outcome: Result<StatementResult, Error>, pulled: nat)
    ensures outcome.Ok? <==> Sound(events, Cut(events, limit))
    ensures outcome.Ok? ==> Produces(events, Cut(events, limit), outcome.value) && pulled == Pulled(events, limit)
    ensures outcome.Err? ==> outcome.error == Database
    ensures outcome.Ok? ==> Delivered(events, limit, outcome.value, pulled)
    ensures outcome.Err? <==> exists j: nat, at :: FailsAt(events, limit, j, at)
  {
    hide RowsOf, LastEffect, ColumnsOf, Produces, Matches, Delivered, FailsAt;
    StatementFailsIff(events, limit);
    var result := StatementResult(0, 0, [], [], false);
    NothingMatches(events);
    for i := 0 to |events|
      invariant Matches(events, i, result)
      invariant CutFrom(events, limit, i) == Cut(events, limit)
    {
      MatchFacts(events, i, result);
      pulled := i + 1;
      ghost var before := result;
      match events[i] {
        case Failure => return Err(Database), pulled;
        case EffectOf(affected, rowid) =>
          result := result.(rowsAffected := affected, lastInsertRowid := rowid);
        case RowOf(row) =>
          if result.columns == [] {
            result := result.(columns := row.columns);
          }
          if |result.rows| == limit {
            MatchProduces(events, i, before);
            result := result.(truncated := true);
            ProducesDelivers(events, limit, result);
            return Ok(result), pulled;
          }
          var values := RowValues(row);
          if values.Err? {
            return Err(Database), pulled;
          }
          result := result.(rows := result.rows + [values.value]);
      }
      AbsorbMatches(events, i, before);
      assert result == Absorb(before, events[i]);
    }
    MatchFacts(events, |events|, result);
    MatchProduces(events, |events|, result);
    ProducesDelivers(events, limit, result);
    return Ok(result), |events|;
  }

  lemma MatchFacts(events: seq<Event>, i: nat, result: StatementResult)
    requires i <= |events| && Matches(events, i, result)
    ensures Sound(events, i) && |result.rows| == |RowsOf(events[..i])| && !result.truncated
  {
  }

  // ---- what a cut means ----

  lemma {:induction false} RowsOfGrows(events: seq<Event>, i: nat, j: nat)
    requires i <= j <= |events|
    ensures RowsOf(events[..i]) <= RowsOf(events[..j])
    decreases j
  {
    if i < j {
      RowsOfGrows(events, i, j - 1);
      assert events[..j][..j - 1] == events[..j - 1];
    }
  }

  lemma {:induction false} CutBoundsRows(events: seq<Event>, limit: nat, i: nat)
    requires i <= |events| && |RowsOf(events[..i])| <= limit
    ensures var cut := CutFrom(events, limit, i);
            && |RowsOf(events[..cut])| <= limit
            && (cut < |events| ==> events[cut].RowOf? && |RowsOf(events[..cut])| == limit)
    decreases |events| - i
  {
    if i < |events| && !(events[i].RowOf? && |RowsOf(events[..i])| == limit) {
      assert events[..i + 1][..i] == events[..i];
      CutBoundsRows(events, limit, i + 1);
    }
  }

  /** The rows returned are the first `limit` rows of the whole stream, and the stream is cut short
      if and only if it has more than `limit` rows. */
  lemma CutKeepsPrefix(events: seq<Event>, limit: nat)
    ensures var all, cut := RowsOf(events), Cut(events, limit);
            && RowsOf(events[..cut]) == all[..if |all| < limit then |all| else limit]
            && (cut < |events| <==> |all| > limit)
  {
    assert RowsOf(events[..0]) == [];
    hide CutFrom, RowsOf;
    var cut := Cut(events, limit);
    CutBoundsRows(events, limit, 0);
    assert events[..|events|] == events;
    RowsOfGrows(events, cut, |events|);
    if cut < |events| {
      RowCounts(events, cut);
      RowsOfGrows(events, cut + 1, |events|);
    }
  }

  lemma RowCounts(events: seq<Event>, i: nat)
    requires i < |events| && events[i].RowOf?
    ensures |RowsOf(events[..i + 1])| == |RowsOf(events[..i])| + 1
  {
    assert events[..i + 1][..i] == events[..i];
  }

  // ---- a statement's result in its own terms ----

  /** `at` lists the places of the rows among the first `n` events. */
  predicate RowPlaces(events: seq<Event>, n: nat, at: seq<nat>) {
    && n <= |events|
    && (forall k :: 0 <= k < |at| ==> at[k] < n && events[at[k]].RowOf?)
    && (forall k, j :: 0 <= k < j < |at| ==> at[k] < at[j])
    && (forall i :: 0 <= i < n && events[i].RowOf? ==> i in at)
  }

  /** The effect reported last among the first `n` events; zero if there is none. */
  ghost predicate ReportsLast(events: seq<Event>, n: nat, rowsAffected: nat, lastInsertRowid: int)
    requires n <= |events|
  {
    if exists i :: 0 <= i < n && events[i].EffectOf? then
      exists i :: 0 <= i < n && events[i] == EffectOf(rowsAffected, lastInsertRowid)
                  && forall j :: i < j < n ==> !events[j].EffectOf?
    else rowsAffected == 0 && lastInsertRowid == 0
  }

  /** The column names of the first of these rows that has any. */
  ghost predicate FirstNamed(rows: seq<Row>, columns: seq<string>) {
    if columns == [] then forall k :: 0 <= k < |rows| ==> rows[k].columns == []
    else exists j :: 0 <= j < |rows| && rows[j].columns == columns && forall k :: 0 <= k < j ==> rows[k].columns == []
  }

  /** The result and the number of pulled events of a stream that is cut at the row after `limit` rows,
      if there is one, and else read to its end; `at` are the places of the rows delivered. */
  ghost predicate Delivers(events: seq<Event>, limit: nat, result: StatementResult, pulled: nat, at: seq<nat>) {
    && pulled <= |events|
    && (result.truncated ==> pulled > 0 && events[pulled - 1].RowOf? && |at| == limit)
    && (!result.truncated ==> pulled == |events| && |at| <= limit)
    && var n := if result.truncated then pulled - 1 else pulled;
    && RowPlaces(events, n, at)
    && (forall i :: 0 <= i < n ==> !events[i].Failure?)
    && |result.rows| == |at|
    && (forall k :: 0 <= k < |at| ==> ReadAs(events[at[k]].row, result.rows[k]))
    && ReportsLast(events, n, result.rowsAffected, result.lastInsertRowid)
    && FirstNamed(seq(|at|, k requires 0 <= k < |at| => events[at[k]].row)
                  + (if result.truncated then [events[n].row] else []), result.columns)
  }

  ghost predicate Delivered(events: seq<Event>, limit: nat, result: StatementResult, pulled: nat) {
    exists at :: Delivers(events, limit, result, pulled, at)
  }

  predicate ReadAs(row: Row, values: seq<Value>) {
    |values| == |row.raw| && forall i :: 0 <= i < |values| ==> Reads(row.raw[i], values[i])
  }

  /** The stream fails at event `j`: it breaks before the cut, or a row to be delivered cannot be read. */
  predicate FailsAt(events: seq<Event>, limit: nat, j: nat, at: seq<nat>) {
    && j < |events| && RowPlaces(events, j, at)
    && ((events[j].Failure? && |at| <= limit)
        || (events[j].RowOf? && |at| < limit
            && exists i :: 0 <= i < |events[j].row.raw| && Unreadable(events[j].row.raw[i])))
  }

  lemma {:induction false} PlacesOfRows(events: seq<Event>, n: nat) returns (at: seq<nat>)
    requires n <= |events|
    ensures RowPlaces(events, n, at) && RowsOf(events[..n]) == seq(|at|, k requires 0 <= k < |at| => events[at[k]].row)
    decreases n
  {
    at := [];
    if n > 0 {
      assert events[..n][..n - 1] == events[..n - 1];
      at := PlacesOfRows(events, n - 1);
      if events[n - 1].RowOf? {
        at := at + [n - 1];
      }
    }
  }

  lemma {:induction false} PlacesCount(events: seq<Event>, n: nat, at: seq<nat>)
    requires RowPlaces(events, n, at)
    ensures |at| == |RowsOf(events[..n])|
    decreases n
  {
    if n > 0 {
      assert events[..n][..n - 1] == events[..n - 1];
      if events[n - 1].RowOf? {
        var last := |at| - 1;
        assert at[last] == n - 1;
        PlacesCount(events, n - 1, at[..last]);
      } else {
        PlacesCount(events, n - 1, at);
      }
    } else {
      assert (at + [n])[0] <= n;
    }
  }

  lemma {:induction false} LastEffectReported(events: seq<Event>, n: nat)
    requires n <= |events|
    ensures ReportsLast(events, n, LastEffect(events[..n]).0, LastEffect(events[..n]).1)
    decreases n
  {
    if n > 0 {
      assert events[..n][..n - 1] == events[..n - 1];
      LastEffectReported(events, n - 1);
      if events[n - 1].EffectOf? {
        assert events[n - 1] == EffectOf(LastEffect(events[..n]).0, LastEffect(events[..n]).1);
      }
    }
  }

  lemma {:induction false} ColumnsAreFirst(rows: seq<Row>)
    ensures FirstNamed(rows, ColumnsOf(rows))
    decreases |rows|
  {
    if rows != [] {
      var before := rows[..|rows| - 1];
      ColumnsAreFirst(before);
      assert forall k :: 0 <= k < |before| ==> before[k] == rows[k];
    }
  }

  /** What `Produces` says about the cut, in these terms. */
  lemma ProducesDelivers(events: seq<Event>, limit: nat, result: StatementResult)
    requires Sound(events, Cut(events, limit)) && Produces(events, Cut(events, limit), result)
    ensures Delivered(events, limit, result, Pulled(events, limit))
  {
    var cut := Cut(events, limit);
    assert RowsOf(events[..0]) == [];
    CutBoundsRows(events, limit, 0);
    var at := PlacesOfRows(events, cut);
    LastEffectReported(events, cut);
    ColumnsAreFirst(RowsOf(events[..if cut < |events| then cut + 1 else cut]));
    PulledRows(events, cut);
    RowsReadAs(events, cut, at, result);
    hide Cut, RowsOf, LastEffect, ColumnsOf, Values, Decodes, RowPlaces, ReportsLast, FirstNamed, ReadAs;
    assert Delivers(events, limit, result, Pulled(events, limit), at);
  }

  lemma PulledRows(events: seq<Event>, cut: nat)
    requires cut <= |events| && (cut < |events| ==> events[cut].RowOf?)
    ensures RowsOf(events[..if cut < |events| then cut + 1 else cut])
            == RowsOf(events[..cut]) + if cut < |events| then [events[cut].row] else []
  {
    if cut < |events| {
      assert events[..cut + 1][..cut] == events[..cut];
    }
  }

  lemma RowsReadAs(events: seq<Event>, cut: nat, at: seq<nat>, result: StatementResult)
    requires cut <= |events| && RowPlaces(events, cut, at) && Produces(events, cut, result)
    requires RowsOf(events[..cut]) == seq(|at|, k requires 0 <= k < |at| => events[at[k]].row)
    ensures forall k :: 0 <= k < |at| ==> ReadAs(events[at[k]].row, result.rows[k])
  {
    forall k | 0 <= k < |at|
      ensures ReadAs(events[at[k]].row, result.rows[k])
    {
      RowReads(events[at[k]].row);
    }
  }

  lemma {:induction false} BeforeCut(events: seq<Event>, limit: nat, i: nat, j: nat)
    requires i <= j < |events| && |RowsOf(events[..i])| <= limit && j < CutFrom(events, limit, i)
    ensures |RowsOf(events[..j])| <= limit && (events[j].RowOf? ==> |RowsOf(events[..j])| < limit)
    decreases j - i
  {
    if i < j {
      assert events[..i + 1][..i] == events[..i];
      BeforeCut(events, limit, i + 1, j);
    }
  }

  lemma FailureIsBeforeCut(events: seq<Event>, limit: nat, j: nat, at: seq<nat>)
    requires FailsAt(events, limit, j, at)
    ensures j < Cut(events, limit)
  {
    var cut := Cut(events, limit);
    PlacesCount(events, j, at);
    assert RowsOf(events[..0]) == [];
    CutBoundsRows(events, limit, 0);
    if cut < j {
      RowCounts(events, cut);
      RowsOfGrows(events, cut + 1, j);
    }
  }

  /** A statement fails exactly when its stream does at some event. */
  lemma StatementFailsIff(events: seq<Event>, limit: nat)
    ensures !Sound(events, Cut(events, limit)) <==> exists j: nat, at :: FailsAt(events, limit, j, at)
  {
    var cut := Cut(events, limit);
    assert RowsOf(events[..0]) == [];
    if !Sound(events, cut) {
      var j :| 0 <= j < cut && (events[j].Failure? || (events[j].RowOf? && !Decodes(events[j].row)));
      var at := PlacesOfRows(events, j);
      BeforeCut(events, limit, 0, j);
      if events[j].RowOf? {
        RowReads(events[j].row);
      }
      assert FailsAt(events, limit, j, at);
    }
    forall j: nat, at | FailsAt(events, limit, j, at)
      ensures !Sound(events, cut)
    {
      FailureIsBeforeCut(events, limit, j, at);
      if events[j].RowOf? {
        RowReads(events[j].row);
      }
    }
  }

  // ---- query ----

  /** `columns` are those of the first of `n` pulled rows that has any. */
  ghost predicate FirstNames(pulls: seq<Result<Row, Error>>, n: nat, columns: seq<string>) {
    && n <= |pulls|
    && (forall k :: 0 <= k < n ==> pulls[k].Ok?)
    && (if columns == [] then forall k :: 0 <= k < n ==> pulls[k].value.columns == []
        else exists j :: 0 <= j < n && pulls[j].value.columns == columns
                         && forall k :: 0 <= k < j ==> pulls[k].value.columns == [])
  }

  datatype QueryResponse = QueryResponse(columns: seq<string>, rows: seq<seq<Value>>, truncated: bool)

  /** The row loop of `query`; unlike `batch`, a failure to pull the row after the last one kept
      is seen too, because the cut is found by pulling. */
  method FetchRows(pulls: seq<Result<Row, Error>>, limit: nat) returns (outcome: Result<QueryResponse, Error>)
    ensures outcome.Ok? <==>
              && (forall i :: 0 <= i < |pulls| && i <= limit ==> pulls[i].Ok?)
              && (forall i :: 0 <= i < |pulls| && i < limit ==> pulls[i].Ok? && Decodes(pulls[i].value))
    ensures outcome.Ok? ==> outcome.value.truncated == (|pulls| > limit)
    ensures outcome.Ok? ==> |outcome.value.rows| == if |pulls| < limit then |pulls| else limit
    ensures outcome.Ok? ==> forall i :: 0 <= i < |outcome.value.rows| ==>
                              Decodes(pulls[i].value) && outcome.value.rows[i] == Values(pulls[i].value)
    ensures outcome.Ok? ==> forall i :: 0 <= i < |outcome.value.rows| ==> ReadAs(pulls[i].value, outcome.value.rows[i])
    ensures outcome.Ok? ==>
              FirstNames(pulls, if |pulls| <= limit then |pulls| else limit + 1, outcome.value.columns)
  {
    var columns: seq<string>, rows: seq<seq<Value>> := [], [];
    for i := 0 to |pulls|
      invariant |rows| == i <= limit
      invariant forall k :: 0 <= k < i ==>
                  pulls[k].Ok? && Decodes(pulls[k].value) && rows[k] == Values(pulls[k].value)
                  && ReadAs(pulls[k].value, rows[k])
      invariant FirstNames(pulls, i, columns)
    {
      if pulls[i].Err? {
        return Err(Database);
      }
      var row := pulls[i].value;
      if columns == [] {
        columns := row.columns;
      }
      if |rows| == limit {
        return Ok(QueryResponse(columns, rows, true));
      }
      var values := RowValues(row);
      if values.Err? {
        return Err(Database);
      }
      rows := rows + [values.value];
    }
    return Ok(QueryResponse(columns, rows, false));
  }

  // ---- the transaction ----

  /** The integers of a parsed request: 64 bits, signed or unsigned.  The parser turns any other number
      into a float. */
  type JsonInteger = n: int | -0x8000_0000_0000_0000 <= n < U64

  datatype Param =
    | NullParam
    | BoolParam(b: bool)
    | NumberParam(n: JsonInteger)
    | FloatParam(r: real)
    | StringParam(s: string)
    | JsonParam(text: string)

  datatype Statement = Statement(sql: string, params: seq<Param>)

  const I64_MAX: int := 0x7FFF_FFFF_FFFF_FFFF

  /** White space as Rust's `trim` sees it. */
  predicate IsSpace(ch: char) {
    var u := ch as int;
    || 9 <= u <= 13 || u == 32 || u == 0x85 || u == 0xA0 || u == 0x1680 || 0x2000 <= u <= 0x200A
    || u == 0x2028 || u == 0x2029 || u == 0x202F || u == 0x205F || u == 0x3000
  }

  predicate ValidSql(sql: string) {
    exists i :: 0 <= i < |sql| && !IsSpace(sql[i])
  }

  /** SQL is refused as empty exactly when every character of it is one of the white spaces of Unicode. */
  lemma BlankSql(sql: string)
    ensures !ValidSql(sql) <==> forall ch :: ch in sql ==>
              (ch as int) in {9, 10, 11, 12, 13, 32, 0x85, 0xA0, 0x1680, 0x2000, 0x2001, 0x2002, 0x2003, 0x2004, 0x2005,
                              0x2006, 0x2007, 0x2008, 0x2009, 0x200A, 0x2028, 0x2029, 0x202F, 0x205F, 0x3000}
  {
    assert forall i :: 0 <= i < |sql| ==> sql[i] in sql;
  }

  /** A JSON integer binds when it fits SQLite's 64-bit INTEGER. */
  predicate Bindable(p: Param) {
    p.NumberParam? ==> p.n <= I64_MAX
  }

  method BindQuery(params: seq<Param>) returns (result: Result<seq<Param>, Error>)
    ensures result.Ok? <==> forall p :: p in params ==> Bindable(p)
    ensures result.Err? <==> exists p :: p in params && p.NumberParam? && p.n >= 0x8000_0000_0000_0000
    ensures result.Ok? ==> result.value == params
    ensures result.Err? ==> result.error == InvalidRequest
  {
    var bound := [];
    for i := 0 to |params|
      invariant bound == params[..i]
      invariant forall p :: p in bound ==> Bindable(p)
    {
      if !Bindable(params[i]) {
        assert params[i] in params;
        return Err(InvalidRequest);
      }
      bound := bound + [params[i]];
    }
    return Ok(bound);
  }

  predicate Accepted(statement: Statement) {
    ValidSql(statement.sql) && forall p :: p in statement.params ==> Bindable(p)
  }

  /** What SQLite does with a statement inside a transaction: the events it streams, and the store it
      leaves once so many of them have been pulled and the stream is dropped. */
  datatype Engine<!S> = Engine(events: (S, Statement) -> seq<Event>, after: (S, Statement, nat) -> S)

  /** The store after a list of statements, each run on what its predecessors left. */
  ghost function StateAfter<S>(engine: Engine<S>, s: S, statements: seq<Statement>, limit: nat): S {
    if statements == [] then s
    else
      var before, last := StateAfter(engine, s, statements[..|statements| - 1], limit), statements[|statements| - 1];
      engine.after(before, last, Pulled(engine.events(before, last), limit))
  }

  /** Statement `i` validates, binds and streams without failure on the state its predecessors left. */
  ghost predicate Runs<S>(engine: Engine<S>, s: S, statements: seq<Statement>, i: nat, limit: nat)
    requires i < |statements|
  {
    var events := engine.events(StateAfter(engine, s, statements[..i], limit), statements[i]);
    Accepted(statements[i]) && Sound(events, Cut(events, limit))
  }

  /** The first statement that does not run is one that does not validate or bind. */
  ghost predicate Refuses<S>(engine: Engine<S>, s: S, statements: seq<Statement>, limit: nat) {
    exists i :: 0 <= i < |statements| && !Accepted(statements[i])
                && forall k :: 0 <= k < i ==> Runs(engine, s, statements, k, limit)
  }

  lemma NotRefused<S>(engine: Engine<S>, s: S, statements: seq<Statement>, i: nat, limit: nat)
    requires i <= |statements| && forall k :: 0 <= k < i ==> Runs(engine, s, statements, k, limit)
    requires i < |statements| ==> Accepted(statements[i]) && !Runs(engine, s, statements, i, limit)
    ensures !Refuses(engine, s, statements, limit)
  {
    hide Accepted, Sound;
    forall j | 0 <= j < i
      ensures Accepted(statements[j])
    {
      assert Runs(engine, s, statements, j, limit);
    }
  }

  ghost predicate Yields<S>(
      engine: Engine<S>, s: S, statements: seq<Statement>, i: nat, limit: nat, result: StatementResult)
    requires i < |statements|
  {
    var events := engine.events(StateAfter(engine, s, statements[..i], limit), statements[i]);
    Produces(events, Cut(events, limit), result)
  }

  // ---- a batch in its own terms ----

  /** The first `n` statements run one after the other: statement `i` on `ss[i]`, of which `pulled[i]`
      events are pulled, giving `results[i]` and leaving `ss[i + 1]`. */
  ghost predicate Chain<S>(
      engine: Engine<S>, s: S, statements: seq<Statement>, n: nat, limit: nat,
      ss: seq<S>, pulled: seq<nat>, results: seq<StatementResult>)
  {
    && n <= |statements| && |ss| == n + 1 && |pulled| == n && |results| == n && ss[0] == s
    && (forall i :: 0 <= i < n ==> ss[i + 1] == engine.after(ss[i], statements[i], pulled[i]))
    && (forall i :: 0 <= i < n ==>
          Delivered(engine.events(ss[i], statements[i]), limit, results[i], pulled[i]))
    && (forall i :: 0 <= i < n ==> Accepted(statements[i]))
  }

  /** A statement is refused, or its stream fails. */
  ghost predicate Fails<S>(engine: Engine<S>, s: S, statement: Statement, limit: nat) {
    !Accepted(statement) || exists j: nat, at :: FailsAt(engine.events(s, statement), limit, j, at)
  }

  lemma FailsIffNotRun<S>(engine: Engine<S>, s: S, statements: seq<Statement>, i: nat, limit: nat)
    requires i < |statements|
    ensures Fails(engine, StateAfter(engine, s, statements[..i], limit), statements[i], limit)
            <==> !Runs(engine, s, statements, i, limit)
  {
    StatementFailsIff(engine.events(StateAfter(engine, s, statements[..i], limit), statements[i]), limit);
  }

  /** Every statement runs on what its predecessor left, and the last one leaves `s'`. */
  ghost predicate Completes<S(!new)>(
      engine: Engine<S>, s: S, statements: seq<Statement>, limit: nat, results: seq<StatementResult>, s': S)
  {
    exists ss: seq<S>, pulled: seq<nat> ::
      Chain(engine, s, statements, |statements|, limit, ss, pulled, results) && s' == ss[|statements|]
  }

  /** Some statement fails on what its predecessors left. */
  ghost predicate Stops<S(!new)>(engine: Engine<S>, s: S, statements: seq<Statement>, limit: nat) {
    exists i: nat, ss: seq<S>, pulled: seq<nat>, results: seq<StatementResult> ::
      Chain(engine, s, statements, i, limit, ss, pulled, results)
      && i < |statements| && Fails(engine, ss[i], statements[i], limit)
  }

  /** Statements that run form a chain, and it ends in the store after them. */
  lemma {:induction false} RunsAreChain<S>(
      engine: Engine<S>, s: S, statements: seq<Statement>, n: nat, limit: nat, results: seq<StatementResult>)
    returns (ss: seq<S>, pulled: seq<nat>)
    requires n <= |statements| && n == |results|
    requires forall k :: 0 <= k < n ==> Runs(engine, s, statements, k, limit)
    requires forall k :: 0 <= k < n ==> Yields(engine, s, statements, k, limit, results[k])
    ensures Chain(engine, s, statements, n, limit, ss, pulled, results) && |ss| == n + 1
    ensures ss[n] == StateAfter(engine, s, statements[..n], limit)
    decreases n
  {
    hide Runs, Yields, StateAfter;
    if n == 0 {
      ss, pulled := [s], [];
      NoneAfter(engine, s, statements, limit);
    } else {
      hide Chain;
      var k := n - 1;
      var before, counts := RunsAreChain(engine, s, statements, k, limit, results[..k]);
      var state, events := RunDelivers(engine, s, statements, k, limit, results[k]);
      ss, pulled := before + [state], counts + [Pulled(events, limit)];
      ChainGrows(engine, s, statements, k, limit, before, counts, results, ss, pulled);
    }
  }

  lemma NoneAfter<S>(engine: Engine<S>, s: S, statements: seq<Statement>, limit: nat)
    ensures StateAfter(engine, s, statements[..0], limit) == s
  {
  }

  /** What one statement that runs delivers and leaves. */
  lemma RunDelivers<S>(
      engine: Engine<S>, s: S, statements: seq<Statement>, k: nat, limit: nat, result: StatementResult)
    returns (state: S, events: seq<Event>)
    requires k < |statements| && Runs(engine, s, statements, k, limit) && Yields(engine, s, statements, k, limit, result)
    ensures var before := StateAfter(engine, s, statements[..k], limit);
            && events == engine.events(before, statements[k]) && Accepted(statements[k])
            && state == engine.after(before, statements[k], Pulled(events, limit))
            && state == StateAfter(engine, s, statements[..k + 1], limit)
    ensures Delivered(events, limit, result, Pulled(events, limit))
  {
    hide Accepted, Delivered, Sound, Produces;
    var before := StateAfter(engine, s, statements[..k], limit);
    events := engine.events(before, statements[k]);
    state := engine.after(before, statements[k], Pulled(events, limit));
    ProducesDelivers(events, limit, result);
    assert statements[..k + 1][..k] == statements[..k];
  }

  lemma ChainGrows<S>(
      engine: Engine<S>, s: S, statements: seq<Statement>, k: nat, limit: nat,
      ss: seq<S>, pulled: seq<nat>, results: seq<StatementResult>, ss': seq<S>, pulled': seq<nat>)
    requires k < |statements| && |results| == k + 1 && Chain(engine, s, statements, k, limit, ss, pulled, results[..k])
    requires |ss'| == k + 2 && ss'[..k + 1] == ss && |pulled'| == k + 1 && pulled'[..k] == pulled
    requires Accepted(statements[k]) && ss'[k + 1] == engine.after(ss[k], statements[k], pulled'[k])
    requires Delivered(engine.events(ss[k], statements[k]), limit, results[k], pulled'[k])
    ensures Chain(engine, s, statements, k + 1, limit, ss', pulled', results)
  {
    hide Delivered, Accepted;
    assert ss'[0] == ss[0];
    forall i | 0 <= i < k + 1
      ensures ss'[i + 1] == engine.after(ss'[i], statements[i], pulled'[i]) && Accepted(statements[i])
      ensures Delivered(engine.events(ss'[i], statements[i]), limit, results[i], pulled'[i])
    {
      assert ss'[i] == ss[i] && (i < k ==> ss'[i + 1] == ss[i + 1]);
      if i < k {
        assert pulled'[i] == pulled[i] && results[i] == results[..k][i];
      }
    }
  }

  /** A tenant database, seen through its writer connection. */
  class TenantDatabase<S(!new)> {
    const engine: Engine<S>
    var committed: S

    constructor (engine: Engine<S>, initial: S)
      ensures this.engine == engine && committed == initial
    {
      this.engine, committed := engine, initial;
    }

    /** One statement of a batch, on the transaction's state: validated, bound and streamed. */
    method Step(statement: Statement, transaction: S, limit: nat)
      returns (outcome: Result<StatementResult, Error>, next: S)
      ensures outcome.Err? <==> Fails(engine, transaction, statement, limit)
      ensures outcome == Err(InvalidRequest) <==> !Accepted(statement)
      ensures var events := engine.events(transaction, statement);
              outcome.Ok? ==> Sound(events, Cut(events, limit)) && Produces(events, Cut(events, limit), outcome.value)
                              && next == engine.after(transaction, statement, Pulled(events, limit))
    {
      hide Produces, Sound, Delivered, FailsAt, ValidSql;
      next := transaction;
      if !ValidSql(statement.sql) {
        return Err(InvalidRequest), next;
      }
      var bound := BindQuery(statement.params);
      if bound.Err? {
        return Err(bound.error), next;
      }
      var pulled;
      outcome, pulled := RunStatement(engine.events(transaction, statement), limit);
      if outcome.Ok? {
        next := engine.after(transaction, statement, pulled);
      }
    }

    /** `batch`: every statement in one transaction.  `begins` and `commits` say whether the
        transaction can be opened and committed; dropping it uncommitted rolls it back. */
    method Batch(statements: seq<Statement>, limit: nat, begins: bool, commits: bool)
      returns (outcome: Result<seq<StatementResult>, Error>)
      modifies this
      ensures outcome.Ok? <==>
                && statements != [] && begins && commits
                && forall i :: 0 <= i < |statements| ==> Runs(engine, old(committed), statements, i, limit)
      ensures outcome.Ok? ==>
                && |outcome.value| == |statements|
                && forall i :: 0 <= i < |statements| ==>
                     Yields(engine, old(committed), statements, i, limit, outcome.value[i])
      ensures outcome == Err(InvalidRequest) <==>
                statements == [] || (begins && Refuses(engine, old(committed), statements, limit))
      ensures committed == if outcome.Ok? then StateAfter(engine, old(committed), statements, limit) else old(committed)
      ensures outcome.Ok? ==> Completes(engine, old(committed), statements, limit, outcome.value, committed)
      ensures outcome.Err? && statements != [] && begins && commits ==> Stops(engine, old(committed), statements, limit)
    {
      hide Chain, Fails, Produces, Sound, Accepted, Refuses, Completes, Stops, Pulled, Cut, StateAfter;
      if statements == [] {
        return Err(InvalidRequest);
      }
      if !begins {
        return Err(Database);
      }
      var transaction := committed;
      var results: seq<StatementResult> := [];
      NoneAfter(engine, committed, statements, limit);
      for i := 0 to |statements|
        invariant |results| == i && committed == old(committed)
        invariant transaction == StateAfter(engine, old(committed), statements[..i], limit)
        invariant forall k :: 0 <= k < i ==> Runs(engine, old(committed), statements, k, limit)
        invariant forall k :: 0 <= k < i ==> Yields(engine, old(committed), statements, k, limit, results[k])
      {
        FailsIffNotRun(engine, committed, statements, i, limit);
        OneMoreAfter(engine, committed, statements, i, limit);
        var result, next := Step(statements[i], transaction, limit);
        if result.Err? {
          StopsHere(engine, committed, statements, i, limit, results);
          return Err(result.error);
        }
        transaction := next;
        results := results + [result.value];
      }
      assert statements[..|statements|] == statements;
      NotRefused(engine, committed, statements, |statements|, limit);
      CompletesHere(engine, committed, statements, limit, results);
      if !commits {
        return Err(Database);
      }
      committed := transaction;
      return Ok(results);
    }
  }

  lemma OneMoreAfter<S>(engine: Engine<S>, s: S, statements: seq<Statement>, i: nat, limit: nat)
    requires i < |statements|
    ensures var before := StateAfter(engine, s, statements[..i], limit);
            StateAfter(engine, s, statements[..i + 1], limit)
            == engine.after(before, statements[i], Pulled(engine.events(before, statements[i]), limit))
  {
    assert statements[..i + 1][..i] == statements[..i];
  }

  lemma StopsHere<S(!new)>(
      engine: Engine<S>, s: S, statements: seq<Statement>, i: nat, limit: nat, results: seq<StatementResult>)
    requires i < |statements| && i == |results| && !Runs(engine, s, statements, i, limit)
    requires forall k :: 0 <= k < i ==> Runs(engine, s, statements, k, limit)
    requires forall k :: 0 <= k < i ==> Yields(engine, s, statements, k, limit, results[k])
    ensures Stops(engine, s, statements, limit)
    ensures Refuses(engine, s, statements, limit) <==> !Accepted(statements[i])
  {
    hide Chain, Fails, Runs, Yields, Accepted;
    var ss, pulled := RunsAreChain(engine, s, statements, i, limit, results);
    FailsIffNotRun(engine, s, statements, i, limit);
    if Accepted(statements[i]) {
      NotRefused(engine, s, statements, i, limit);
    }
  }

  lemma CompletesHere<S(!new)>(
      engine: Engine<S>, s: S, statements: seq<Statement>, limit: nat, results: seq<StatementResult>)
    requires |statements| == |results|
    requires forall k :: 0 <= k < |statements| ==> Runs(engine, s, statements, k, limit)
    requires forall k :: 0 <= k < |statements| ==> Yields(engine, s, statements, k, limit, results[k])
    ensures Completes(engine, s, statements, limit, results, StateAfter(engine, s, statements, limit))
  {
    hide Chain, Runs, Yields, StateAfter;
    var ss, pulled := RunsAreChain(engine, s, statements, |statements|, limit, results);
    assert statements[..|statements|] == statements;
  }
}

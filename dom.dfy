/**
 * The parsed HTML documents the client reads, as abstract values, and the
 * row-selection scheme every table parser follows.
 *
 * A table cell carries its trimmed text content and, when it has a `<span>`
 * child, the trimmed text of the first one. A table located by id is `None`
 * when the document has no element with that id. Hidden inputs are a map from
 * the input's name to its `value` attribute (an input without the attribute
 * behaves like a missing one everywhere the client reads it).
 */
module Dom {
  import opened Wrappers

  datatype Cell = Cell(text: string, span: Option<string>)

  /** The `td` cells of one `tr`. */
  type Row = seq<Cell>

  type Table = Option<seq<Row>>

  type Inputs = map<string, string>

  /** The tables of a response page, by element id. */
  type Tables = map<string, seq<Row>>

  /** `doc.querySelector("#<id>")` for a table: `None` when no element has that id. */
  function TableById<T>(tables: map<string, seq<T>>, id: string): (t: Option<seq<T>>)
    ensures t.Some? <==> id in tables
    ensures t.Some? ==> t.value == tables[id]
  {
    if id in tables then Some(tables[id]) else None
  }

  /** `cells[k]?.textContent?.trim() || ""` */
  function CellText(row: Row, k: nat): string {
    if k < |row| then row[k].text else ""
  }

  /** `cells[k]?.querySelector("span")?.textContent?.trim() || ""` */
  function SpanText(row: Row, k: nat): string {
    if k < |row| then row[k].span.GetOr("") else ""
  }

  /** `querySelector('input[name="<name>"]')?.getAttribute("value") || fallback` */
  function ValueOr(inputs: Inputs, name: string, fallback: string): (v: string)
    ensures v == fallback || (name in inputs && v == inputs[name] != "")
    ensures name in inputs && inputs[name] != "" ==> v == inputs[name]
    ensures name !in inputs ==> v == fallback
  {
    if name in inputs && inputs[name] != "" then inputs[name] else fallback
  }

  /** The same lookup with `""` as the fallback. */
  function Value(inputs: Inputs, name: string): string {
    ValueOr(inputs, name, "")
  }

  /** The rows of a located table; none for a missing table. */
  function RowsOf<T>(table: Option<seq<T>>): seq<T> {
    if table.Some? then table.value else []
  }

  /** The rows a loop `for (let i = 1; i < rows.length; i++)` visits. */
  function AfterHeader<T>(table: Option<seq<T>>): (r: seq<T>)
    ensures table.None? ==> r == []
    ensures table.Some? && |table.value| > 0 ==> r == table.value[1..]
  {
    if table.Some? && |table.value| > 0 then table.value[1..] else []
  }

  /**
   * The records of the rows `keep` accepts, built by `f`, in row order:
   * what a loop computes that pushes `f(row)` for each row passing a test.
   */
  function Select<T, R>(rows: seq<T>, keep: T -> bool, f: T -> R): (r: seq<R>)
    ensures |r| <= |rows|
  {
    if rows == [] then []
    else Select(rows[..|rows| - 1], keep, f) + (if keep(rows[|rows| - 1]) then [f(rows[|rows| - 1])] else [])
  }

  /** Selection distributes over concatenation: the records keep row order. */
  lemma {:induction false} SelectConcat<T, R>(a: seq<T>, b: seq<T>, keep: T -> bool, f: T -> R)
    ensures Select(a + b, keep, f) == Select(a, keep, f) + Select(b, keep, f)
    decreases |b|
  {
    if b == [] {
      assert a + b == a;
    } else {
      var b' := b[..|b| - 1];
      SelectConcat(a, b', keep, f);
      assert (a + b)[..|a + b| - 1] == a + b';
    }
  }

  /** Selecting from a single row. */
  lemma SelectOne<T, R>(x: T, keep: T -> bool, f: T -> R)
    ensures Select([x], keep, f) == if keep(x) then [f(x)] else []
  {
    assert [x][..0] == [];
  }

  /** Selecting from a row followed by more rows. */
  lemma SelectCons<T, R>(x: T, rest: seq<T>, keep: T -> bool, f: T -> R)
    ensures Select([x] + rest, keep, f) == (if keep(x) then [f(x)] else []) + Select(rest, keep, f)
  {
    SelectConcat([x], rest, keep, f);
    SelectOne(x, keep, f);
  }

  /** A record is selected exactly when some accepted row produces it. */
  lemma {:induction false} SelectMembers<T, R>(rows: seq<T>, keep: T -> bool, f: T -> R, y: R)
    ensures y in Select(rows, keep, f) <==> exists i :: 0 <= i < |rows| && keep(rows[i]) && f(rows[i]) == y
    decreases |rows|
  {
    if rows != [] {
      var init := rows[..|rows| - 1];
      SelectMembers(init, keep, f, y);
      if exists i :: 0 <= i < |init| && keep(init[i]) && f(init[i]) == y {
        var i :| 0 <= i < |init| && keep(init[i]) && f(init[i]) == y;
        assert rows[i] == init[i];
      }
      if exists i :: 0 <= i < |rows| && keep(rows[i]) && f(rows[i]) == y {
        var i :| 0 <= i < |rows| && keep(rows[i]) && f(rows[i]) == y;
        if i < |init| {
          assert init[i] == rows[i];
        }
      }
    }
  }

  /** One record for every accepted row: the count of accepted rows. */
  function CountKept<T>(rows: seq<T>, keep: T -> bool): nat {
    if rows == [] then 0
    else CountKept(rows[..|rows| - 1], keep) + (if keep(rows[|rows| - 1]) then 1 else 0)
  }

  lemma {:induction false} SelectLength<T, R>(rows: seq<T>, keep: T -> bool, f: T -> R)
    ensures |Select(rows, keep, f)| == CountKept(rows, keep)
    decreases |rows|
  {
    if rows != [] {
      SelectLength(rows[..|rows| - 1], keep, f);
    }
  }

  /**
   * The rows before the first row `stop` accepts: what a loop visits when it
   * `break`s at a sentinel row.
   */
  function UntilSentinel<T>(rows: seq<T>, stop: T -> bool): (r: seq<T>)
    ensures |r| <= |rows| && r == rows[..|r|]
    ensures forall k :: 0 <= k < |r| ==> !stop(r[k])
    ensures |r| < |rows| ==> stop(rows[|r|])
  {
    if rows == [] || stop(rows[0]) then [] else [rows[0]] + UntilSentinel(rows[1..], stop)
  }

  /** Without a sentinel in `a`, the scan goes through `a` and continues into `b`. */
  lemma {:induction false} UntilSentinelConcat<T>(a: seq<T>, b: seq<T>, stop: T -> bool)
    ensures UntilSentinel(a + b, stop)
      == if UntilSentinel(a, stop) == a then a + UntilSentinel(b, stop) else UntilSentinel(a, stop)
    decreases |a|
  {
    if a != [] {
      UntilSentinelConcat(a[1..], b, stop);
      assert (a + b)[1..] == a[1..] + b;
      assert (a + b)[0] == a[0];
      if !stop(a[0]) && UntilSentinel(a[1..], stop) == a[1..] {
        assert [a[0]] + a[1..] == a;
      }
      if !stop(a[0]) && UntilSentinel(a, stop) == a {
        assert UntilSentinel(a[1..], stop) == a[1..];
      }
    } else {
      assert a + b == b;
    }
  }

  /**
   * A record comes out of the rows after the header exactly when some row
   * other than row 0 is accepted and produces it.
   */
  lemma AfterHeaderMembers<T, R>(table: Option<seq<T>>, keep: T -> bool, f: T -> R, y: R)
    ensures y in Select(AfterHeader(table), keep, f)
      <==> exists i :: 1 <= i < |RowsOf(table)| && keep(RowsOf(table)[i]) && f(RowsOf(table)[i]) == y
  {
    var rows := RowsOf(table);
    var body := AfterHeader(table);
    SelectMembers(body, keep, f, y);
    if exists i :: 0 <= i < |body| && keep(body[i]) && f(body[i]) == y {
      var i :| 0 <= i < |body| && keep(body[i]) && f(body[i]) == y;
      assert rows[i + 1] == body[i];
    }
    if exists i :: 1 <= i < |rows| && keep(rows[i]) && f(rows[i]) == y {
      var i :| 1 <= i < |rows| && keep(rows[i]) && f(rows[i]) == y;
      assert body[i - 1] == rows[i];
    }
  }

  /** Scanning stops at any row `stop` accepts: what follows it is never seen. */
  lemma UntilSentinelAt<T>(rows: seq<T>, stop: T -> bool, i: nat)
    requires i < |rows| && stop(rows[i])
    ensures UntilSentinel(rows, stop) == UntilSentinel(rows[..i], stop)
  {
    assert rows == rows[..i] + rows[i..];
    UntilSentinelConcat(rows[..i], rows[i..], stop);
  }

  /**
   * A record comes out of a scan that stops at a sentinel exactly when an
   * accepted row, not itself a sentinel, produces it and no sentinel comes
   * before that row.
   */
  lemma SentinelMembers<T, R>(rows: seq<T>, stop: T -> bool, keep: T -> bool, f: T -> R, y: R)
    ensures y in Select(UntilSentinel(rows, stop), keep, f)
      <==> exists i :: 0 <= i < |rows| && NoStopBefore(rows, stop, i) && !stop(rows[i])
                    && keep(rows[i]) && f(rows[i]) == y
  {
    var seen := UntilSentinel(rows, stop);
    SelectMembers(seen, keep, f, y);
    if exists i :: 0 <= i < |seen| && keep(seen[i]) && f(seen[i]) == y {
      var i :| 0 <= i < |seen| && keep(seen[i]) && f(seen[i]) == y;
      assert seen[i] == rows[i];
      assert NoStopBefore(rows, stop, i) by {
        forall j | 0 <= j < i ensures !stop(rows[j]) {
          assert rows[j] == seen[j];
        }
      }
    }
    if exists i :: 0 <= i < |rows| && NoStopBefore(rows, stop, i) && !stop(rows[i]) && keep(rows[i]) && f(rows[i]) == y {
      var i :| 0 <= i < |rows| && NoStopBefore(rows, stop, i) && !stop(rows[i]) && keep(rows[i]) && f(rows[i]) == y;
      assert seen[i] == rows[i];
    }
  }

  /** No row before index `i` is a sentinel. */
  predicate NoStopBefore<T>(rows: seq<T>, stop: T -> bool, i: nat)
    requires i <= |rows|
  {
    forall j :: 0 <= j < i ==> !stop(rows[j])
  }

  /** One more row visited: its record, if kept, goes at the end. */
  lemma SelectSnoc<T, R>(rows: seq<T>, k: nat, keep: T -> bool, f: T -> R)
    requires k < |rows|
    ensures Select(rows[..k + 1], keep, f)
      == Select(rows[..k], keep, f) + (if keep(rows[k]) then [f(rows[k])] else [])
  {
    assert rows[..k + 1][..k] == rows[..k];
  }

  /** Without a sentinel among the first `n` rows, the scan sees all of them. */
  lemma NoStopPrefix<T>(rows: seq<T>, stop: T -> bool, n: nat)
    requires n <= |rows| && NoStopBefore(rows, stop, n)
    ensures UntilSentinel(rows[..n], stop) == rows[..n]
  {
  }

  /**
   * A row added at the end of a table contributes its record, if kept, after
   * all the others: records keep source row order.
   */
  lemma AfterHeaderSnoc<T, R>(rows: seq<T>, x: T, keep: T -> bool, f: T -> R)
    requires |rows| >= 1
    ensures Select(AfterHeader(Some(rows + [x])), keep, f)
      == Select(AfterHeader(Some(rows)), keep, f) + (if keep(x) then [f(x)] else [])
  {
    assert (rows + [x])[1..] == rows[1..] + [x];
    SelectConcat(rows[1..], [x], keep, f);
    SelectOne(x, keep, f);
  }

  /**
   * A row that neither stops the scan nor is kept is inert: taking it out
   * changes nothing.
   */
  lemma {:induction false} SkipInertRow<T, R>(a: seq<T>, x: T, b: seq<T>, stop: T -> bool, keep: T -> bool, f: T -> R)
    requires !stop(x) && !keep(x)
    ensures Select(UntilSentinel(a + [x] + b, stop), keep, f) == Select(UntilSentinel(a + b, stop), keep, f)
    decreases |a|
  {
    if a == [] {
      assert a + [x] + b == [x] + b && a + b == b;
      assert ([x] + b)[1..] == b;
      SelectCons(x, UntilSentinel(b, stop), keep, f);
    } else if !stop(a[0]) {
      assert (a + [x] + b)[1..] == a[1..] + [x] + b;
      assert (a + b)[1..] == a[1..] + b;
      SkipInertRow(a[1..], x, b, stop, keep, f);
      SelectCons(a[0], UntilSentinel(a[1..] + [x] + b, stop), keep, f);
      SelectCons(a[0], UntilSentinel(a[1..] + b, stop), keep, f);
    }
  }
}

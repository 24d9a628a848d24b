/**
 * How the report listing and the PDF export present the rows a query returns: the
 * listing copies each row into a dictionary and rewrites its `datum` cell as a Swiss
 * date (app/main.py:89-97); the PDF shortens long topics (app/main.py:374).
 */
module ReportRows {
  import opened Wrappers
  import opened Text
  import opened DateFormat

  /**
   * A value as `sqlite3` hands it over: `NULL`, text, an integer (also the `BOOLEAN`
   * column), a float together with the text Python's `str` gives for it, a `date`
   * read through the `DATE` column type, which `str` shows as ISO text, or a `datetime`
   * read through the `TIMESTAMP` column type (`erstellt_am`, part of `r.*`), which `str`
   * shows as `YYYY-MM-DD HH:MM:SS`.
   */
  datatype Cell =
    | Null
    | Text(text: string)
    | Int(n: int)
    | Real(x: real, shown: string)
    | Date(iso: string)
    | Timestamp(shown: string)

  /** A result row, or the dictionary built from it: its columns in order with their values. */
  type Row = seq<(string, Cell)>

  function Keys(r: Row): (ks: seq<string>)
    ensures |ks| == |r|
    ensures forall i :: 0 <= i < |r| ==> ks[i] == r[i].0
  {
    seq(|r|, i requires 0 <= i < |r| => r[i].0)
  }

  predicate DistinctKeys(r: Row) {
    forall i, j :: 0 <= i < j < |r| ==> r[i].0 != r[j].0
  }

  /**
   * `r[key]`: the value of the first column named `key`. The loop only asks for names the
   * row has; for any other name this is `NULL`.
   */
  function Column(r: Row, key: string): (c: Cell)
    ensures (forall i :: 0 <= i < |r| ==> r[i].0 != key) ==> c == Null
    ensures c != Null ==> exists i :: 0 <= i < |r| && r[i] == (key, c)
  {
    if r == [] then Null
    else if r[0].0 == key then r[0].1
    else Column(r[1..], key)
  }

  /** The first column named `key` is the one `r[key]` reads. */
  lemma {:induction false} ColumnFirst(r: Row, i: nat)
    requires i < |r|
    requires forall j :: 0 <= j < i ==> r[j].0 != r[i].0
    ensures Column(r, r[i].0) == r[i].1
  {
    if i > 0 {
      assert r[1..][i - 1] == r[i];
      ColumnFirst(r[1..], i - 1);
    }
  }

  /**
   * `d[key] = v` on a Python dictionary: a key already present keeps its place and takes
   * the new value; a new key goes at the end.
   */
  function Put(d: Row, key: string, v: Cell): (r: Row)
    requires DistinctKeys(d)
    ensures DistinctKeys(r)
    ensures key in Keys(d) ==> |r| == |d| && forall i :: 0 <= i < |d| ==> r[i] == if d[i].0 == key then (key, v) else d[i]
    ensures key !in Keys(d) ==> r == d + [(key, v)]
    ensures forall k :: k in Keys(r) <==> k in Keys(d) || k == key
  {
    if key in Keys(d) then
      seq(|d|, i requires 0 <= i < |d| => if d[i].0 == key then (key, v) else d[i])
    else
      assert Keys(d + [(key, v)]) == Keys(d) + [key];
      d + [(key, v)]
  }

  /**
   * The argument `format_date_ch` sees once the cell became a Python value: `None` for a
   * falsy value (`NULL`, `0`, `0.0`, empty text), otherwise the text `str` gives for it.
   */
  function DateArgument(c: Cell): (arg: Option<string>)
    ensures c.Null? ==> arg.None?
    ensures c.Text? ==> arg == (if c.text == [] then None else Some(c.text))
    ensures c.Date? ==> arg == Some(c.iso)
    ensures c.Timestamp? ==> arg == Some(c.shown)
  {
    match c
    case Null => None
    case Text(s) => if s == [] then None else Some(s)
    case Int(n) => if n == 0 then None else Some(IntToString(n))
    case Real(x, shown) => if x == 0.0 then None else Some(shown)
    case Date(iso) => Some(iso)
    case Timestamp(shown) => Some(shown)
  }

  /** The value stored under `key`: the Swiss date for `datum`, the cell itself otherwise. */
  function Presented(key: string, c: Cell): (p: Cell)
    ensures key != "datum" ==> p == c
    ensures key == "datum" ==> p == Text(FormatDateCh(DateArgument(c)))
  {
    if key == "datum" then Text(FormatDateCh(DateArgument(c))) else c
  }

  /** The dictionary after the inner loop has seen the first `n` keys of `r`. */
  function DictOf(r: Row, n: nat): (d: Row)
    requires n <= |r|
    ensures DistinctKeys(d)
  {
    if n == 0 then []
    else
      var key := r[n - 1].0;
      Put(DictOf(r, n - 1), key, Presented(key, Column(r, key)))
  }

  /** `r_dict` once every key of the row has been copied. */
  function FormattedRow(r: Row): Row {
    DictOf(r, |r|)
  }

  /** The inner loop of lines 91-96: every key of the row is copied, `datum` rewritten. */
  method FormatRow(r: Row) returns (d: Row)
    ensures d == FormattedRow(r)
  {
    d := [];
    for i := 0 to |r|
      invariant d == DictOf(r, i)
    {
      var key := r[i].0;
      var value := Column(r, key);
      if key == "datum" {
        d := Put(d, key, Text(FormatDateCh(DateArgument(value))));
      } else {
        d := Put(d, key, value);
      }
    }
  }

  /** The outer loop of lines 89-97: one dictionary per row, in the order of the rows. */
  method FormatRows(rows: seq<Row>) returns (formatted: seq<Row>)
    ensures |formatted| == |rows|
    ensures forall i :: 0 <= i < |rows| ==> formatted[i] == FormattedRow(rows[i])
  {
    formatted := [];
    for i := 0 to |rows|
      invariant |formatted| == i
      invariant forall j :: 0 <= j < i ==> formatted[j] == FormattedRow(rows[j])
    {
      var d := FormatRow(rows[i]);
      formatted := formatted + [d];
    }
  }

  /** After `n` keys the dictionary holds exactly the keys of the first `n` columns. */
  lemma {:induction false} DictOfKeys(r: Row, n: nat)
    requires n <= |r|
    ensures forall k :: k in Keys(DictOf(r, n)) <==> k in Keys(r[..n])
  {
    if n > 0 {
      DictOfKeys(r, n - 1);
      assert Keys(r[..n]) == Keys(r[..n - 1]) + [r[n - 1].0];
    }
  }

  /** Each key of the dictionary holds the presented value of that key's first column. */
  lemma {:induction false} DictOfValues(r: Row, n: nat)
    requires n <= |r|
    ensures forall i :: 0 <= i < |DictOf(r, n)| ==>
      DictOf(r, n)[i].0 in Keys(r) && DictOf(r, n)[i].1 == Presented(DictOf(r, n)[i].0, Column(r, DictOf(r, n)[i].0))
  {
    if n > 0 {
      DictOfValues(r, n - 1);
      var key := r[n - 1].0;
      assert key in Keys(r);
      PutFaithful(r, DictOf(r, n - 1), key);
    }
  }

  /** Storing a key's presented value keeps every entry the presented value of its key. */
  lemma PutFaithful(r: Row, d: Row, key: string)
    requires DistinctKeys(d) && key in Keys(r)
    requires forall i :: 0 <= i < |d| ==> d[i].0 in Keys(r) && d[i].1 == Presented(d[i].0, Column(r, d[i].0))
    ensures var d' := Put(d, key, Presented(key, Column(r, key)));
      forall i :: 0 <= i < |d'| ==> d'[i].0 in Keys(r) && d'[i].1 == Presented(d'[i].0, Column(r, d'[i].0))
  {
  }

  /**
   * Every column of the row appears in the dictionary and nothing else does; each key
   * holds the presented value of its first column.
   */
  lemma KeysKept(r: Row)
    ensures DistinctKeys(FormattedRow(r))
    ensures forall k :: k in Keys(FormattedRow(r)) <==> k in Keys(r)
    ensures forall k :: k in Keys(r) ==> Column(FormattedRow(r), k) == Presented(k, Column(r, k))
  {
    var d := FormattedRow(r);
    DictOfKeys(r, |r|);
    assert r[..|r|] == r;
    forall k | k in Keys(r)
      ensures Column(d, k) == Presented(k, Column(r, k))
    {
      assert k in Keys(d);
      var i :| 0 <= i < |d| && Keys(d)[i] == k;
      ColumnFirst(d, i);
      DictOfValues(r, |r|);
    }
  }

  /** A key not yet in the dictionary is appended with the value the row holds for it. */
  lemma NewKeyStep(r: Row, n: nat)
    requires 0 < n <= |r| && r[n - 1].0 !in Keys(DictOf(r, n - 1))
    requires Column(r, r[n - 1].0) == r[n - 1].1
    ensures DictOf(r, n) == DictOf(r, n - 1) + [(r[n - 1].0, Presented(r[n - 1].0, r[n - 1].1))]
  {
  }

  /** The name of column `m` is not among the names of the first `m` columns. */
  lemma KeyIsNew(r: Row, d: Row, m: nat)
    requires m < |r| && DistinctKeys(r) && |d| == m
    requires forall i :: 0 <= i < m ==> d[i].0 == r[i].0
    ensures r[m].0 !in Keys(d)
  {
  }

  /** `d` holds the first `n` columns of `r`, in order, each with its presented value. */
  predicate CopiedUpTo(d: Row, r: Row, n: nat)
    requires n <= |r|
  {
    |d| == n && forall i :: 0 <= i < n ==> d[i] == (r[i].0, Presented(r[i].0, r[i].1))
  }

  /** A row whose columns have distinct names after the first `n` keys, column by column. */
  lemma {:induction false} DictOfDistinct(r: Row, n: nat)
    requires n <= |r| && DistinctKeys(r)
    ensures CopiedUpTo(DictOf(r, n), r, n)
  {
    if n > 0 {
      DictOfDistinct(r, n - 1);
      CopyStep(r, n);
    }
  }

  /** Copying the column `n - 1` of a row with distinct names extends the copy by that column. */
  lemma CopyStep(r: Row, n: nat)
    requires 0 < n <= |r| && DistinctKeys(r)
    requires CopiedUpTo(DictOf(r, n - 1), r, n - 1)
    ensures CopiedUpTo(DictOf(r, n), r, n)
  {
    var d := DictOf(r, n - 1);
    KeyIsNew(r, d, n - 1);
    ColumnFirst(r, n - 1);
    NewKeyStep(r, n);
    ExtendColumns(r, d, n - 1);
  }

  /** Appending the next column keeps the dictionary column by column like the row. */
  lemma ExtendColumns(r: Row, d: Row, m: nat)
    requires m < |r| && CopiedUpTo(d, r, m)
    ensures CopiedUpTo(d + [(r[m].0, Presented(r[m].0, r[m].1))], r, m + 1)
  {
  }

  /**
   * With distinct column names, as the listing query's columns are, the dictionary has the
   * row's columns in the row's order, `datum` rewritten and every other value copied.
   */
  lemma FormattedColumns(r: Row)
    requires DistinctKeys(r)
    ensures |FormattedRow(r)| == |r|
    ensures Keys(FormattedRow(r)) == Keys(r)
    ensures forall i :: 0 <= i < |r| && r[i].0 != "datum" ==> FormattedRow(r)[i] == r[i]
    ensures forall i :: 0 <= i < |r| && r[i].0 == "datum" ==>
      FormattedRow(r)[i] == ("datum", Text(FormatDateCh(DateArgument(r[i].1))))
  {
    DictOfDistinct(r, |r|);
  }

  /** A stored date `YYYY-MM-DD` is listed as `DD.MM.YYYY`. */
  lemma ListedDate(r: Row, i: nat, y: string, m: string, d: string)
    requires DistinctKeys(r) && i < |r| && r[i] == ("datum", Date(y + "-" + m + "-" + d))
    requires '-' !in y && '-' !in m && '-' !in d && |y| + |m| + |d| == 8
    ensures i < |FormattedRow(r)| && FormattedRow(r)[i] == ("datum", Text(d + "." + m + "." + y))
  {
    FormattedColumns(r);
    assert y + "-" + m + "-" + d + [] == y + "-" + m + "-" + d;
    RewritesIsoDate(y, m, d, []);
  }

  /** Formatting a listing a second time changes nothing. */
  lemma {:induction false} FormattedIdempotent(r: Row)
    requires DistinctKeys(r)
    ensures FormattedRow(FormattedRow(r)) == FormattedRow(r)
  {
    var d := FormattedRow(r);
    FormattedColumns(r);
    assert DistinctKeys(d) by {
      assert forall i :: 0 <= i < |r| ==> d[i].0 == Keys(d)[i] == Keys(r)[i] == r[i].0;
    }
    FormattedColumns(d);
    forall i | 0 <= i < |d| && d[i].0 == "datum"
      ensures FormatDateCh(DateArgument(d[i].1)) == FormatDateCh(DateArgument(r[i].1))
    {
      var shown := FormatDateCh(DateArgument(r[i].1));
      assert d[i].1 == Text(shown);
      FormatIdempotent(DateArgument(r[i].1));
      if shown == [] {
        assert DateArgument(d[i].1) == None;
      } else {
        assert DateArgument(d[i].1) == Some(shown);
      }
    }
    assert forall i :: 0 <= i < |d| ==> FormattedRow(d)[i] == d[i];
  }

  // ---------------------------------------------------------------------------------
  // PDF topic column (line 374)

  /** The longest topic the PDF table shows whole. */
  const TopicWidth: nat := 30

  /** A topic longer than thirty characters is cut to thirty and marked with `...`. */
  function ShortTopic(thema: string): (r: string)
    ensures |thema| <= TopicWidth ==> r == thema
    ensures |thema| > TopicWidth ==> |r| == TopicWidth + 3 && r[..TopicWidth] == thema[..TopicWidth]
    ensures |thema| > TopicWidth ==> r[TopicWidth..] == "..."
  {
    if |thema| > TopicWidth then thema[..TopicWidth] + "..." else thema
  }

  /** The shortened topic never exceeds thirty-three characters and starts like the topic. */
  lemma ShortTopicBounded(thema: string)
    ensures |ShortTopic(thema)| <= TopicWidth + 3
    ensures var n := if |thema| < TopicWidth then |thema| else TopicWidth;
      ShortTopic(thema)[..n] == thema[..n]
  {
  }

  /** Shortening an already shortened topic gives the same text. */
  lemma ShortTopicIdempotent(thema: string)
    ensures ShortTopic(ShortTopic(thema)) == ShortTopic(thema)
  {
    var r := ShortTopic(thema);
    if |thema| > TopicWidth {
      assert r[..TopicWidth] == thema[..TopicWidth];
    }
  }
}

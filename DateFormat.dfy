/**
 * `format_date_ch`: the Swiss date format `DD.MM.YYYY` for a stored `YYYY-MM-DD...` date.
 *
 * The argument is Python's `str(date_str)`: `None` stands for Python's `None`, and a
 * `date` object read through the `DATE` column type is its ISO text `YYYY-MM-DD`.
 */
module DateFormat {
  import opened Wrappers
  import opened Text

  /**
   * Empty text for a missing or empty value; `c.b.a` when the first ten characters split
   * on `-` into exactly three parts `a`, `b`, `c`; the text itself otherwise.
   */
  function FormatDateCh(date: Option<string>): (r: string)
    ensures r == [] <==> date.None? || date.value == []
    ensures date.Some? && r != date.value ==> |r| == 10 && '-' !in r
  {
    if date.None? || date.value == [] then []
    else
      var s := date.value;
      if '-' in s && |s| >= 10 then
        var parts := SplitOn(s[..10], '-');
        if |parts| == 3 then
          RewrittenLength(parts);
          assert '-' !in parts[0] && '-' !in parts[1] && '-' !in parts[2];
          parts[2] + "." + parts[1] + "." + parts[0]
        else s
      else s
  }

  /** Three parts joined by two separators of ten characters have eight characters between them. */
  lemma RewrittenLength(parts: seq<string>)
    requires |parts| == 3 && |Join(parts, '-')| == 10
    ensures |parts[2] + "." + parts[1] + "." + parts[0]| == 10
  {
    assert parts == [parts[0], parts[1], parts[2]];
    Join3(parts[0], parts[1], parts[2], '-');
  }

  /** The three-part test holds exactly when the first ten characters hold two dashes. */
  lemma ThreeParts(s: string)
    requires |s| >= 10
    ensures |SplitOn(s[..10], '-')| == 3 <==> Count(s[..10], '-') == 2
  {
    SplitCount(s[..10], '-');
  }

  /** Texts without a dash, shorter than ten characters, or with other than two dashes in front stay as they are. */
  lemma PassThrough(s: string)
    requires s != []
    requires '-' !in s || |s| < 10 || Count(s[..10], '-') != 2
    ensures FormatDateCh(Some(s)) == s
  {
    if |s| >= 10 {
      ThreeParts(s);
    }
  }

  /**
   * An ISO date `a-b-c` in the first ten characters becomes `c.b.a`, and whatever follows
   * (such as the time of a timestamp) is dropped.
   */
  lemma RewritesIsoDate(a: string, b: string, c: string, rest: string)
    requires '-' !in a && '-' !in b && '-' !in c
    requires |a| + |b| + |c| == 8
    ensures FormatDateCh(Some(a + "-" + b + "-" + c + rest)) == c + "." + b + "." + a
  {
    var s := a + "-" + b + "-" + c + rest;
    var front := a + "-" + b + "-" + c;
    assert s[..10] == front;
    assert s[|a|] == '-';
    Join3(a, b, c, '-');
    SplitJoin([a, b, c], '-');
  }

  /** "2024-01-15 10:30" gives "15.01.2024". */
  lemma FormatTimestamp(s: string)
    requires s == "2024-01-15 10:30"
    ensures FormatDateCh(Some(s)) == "15.01.2024"
  {
    var a, b, c, rest := "2024", "01", "15", " 10:30";
    assert s == a + "-" + b + "-" + c + rest;
    assert '-' !in a && '-' !in b && '-' !in c;
    RewritesIsoDate(a, b, c, rest);
    SwissText(a, b, c);
  }

  lemma SwissText(a: string, b: string, c: string)
    requires a == "2024" && b == "01" && c == "15"
    ensures c + "." + b + "." + a == "15.01.2024"
  {
    assert |c + "." + b + "." + a| == 10;
  }

  /** Whatever was rewritten holds no dash, so formatting twice is formatting once. */
  lemma FormatIdempotent(date: Option<string>)
    ensures FormatDateCh(Some(FormatDateCh(date))) == FormatDateCh(date)
  {
    var r := FormatDateCh(date);
    if date.Some? && date.value != [] {
      var s := date.value;
      if '-' in s && |s| >= 10 {
        var parts := SplitOn(s[..10], '-');
        if |parts| == 3 {
          assert '-' !in parts[0] && '-' !in parts[1] && '-' !in parts[2];
          assert '-' !in r;
        }
      }
    }
  }
}

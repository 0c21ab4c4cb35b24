/** The computation in the results report builder (_build_report.py): each
    CSV row is normalised, rows are grouped by agent into pass counts,
    success rates and median times, the rates and times become horizontal
    bar charts, and text is HTML-escaped. File reading and writing, the
    HTML template and number formatting are not modelled; Python's
    `float()` on the time column is a parameter (`None` where it raises). */
module BuildReport {
  import opened Wrappers
  import SeqUtil

  // ---------------------------------------------------------------------
  // Row normalisation
  // ---------------------------------------------------------------------

  /** A CSV row as read: the RunId, Agent, Success(Y/N) and Time(min) cells. */
  datatype RawRow = RawRow(runId: string, agent: string, successMark: string, time: string)

  /** A normalised row. */
  datatype Row = Row(runId: nat, agent: string, skip: bool, success: bool, timeMin: Option<real>)

  /** Python's `str.isspace` characters, which `str.strip()` removes. */
  predicate IsSpace(c: char) {
    || c == ' ' || '\t' <= c <= '\r' || '\U{1C}' <= c <= '\U{1F}' || c == '\U{85}' || c == '\U{A0}'
    || c == '\U{1680}' || '\U{2000}' <= c <= '\U{200A}' || c == '\U{2028}' || c == '\U{2029}'
    || c == '\U{202F}' || c == '\U{205F}' || c == '\U{3000}'
  }

  /** The number of whitespace characters at the front of `s`. */
  function LeadingSpaces(s: string): (n: nat)
    ensures n <= |s|
    ensures forall i :: 0 <= i < n ==> IsSpace(s[i])
    ensures n < |s| ==> !IsSpace(s[n])
  {
    if |s| == 0 || !IsSpace(s[0]) then 0 else 1 + LeadingSpaces(s[1..])
  }

  /** The number of whitespace characters at the end of `s`. */
  function TrailingSpaces(s: string): (n: nat)
    ensures n <= |s|
    ensures forall i :: |s| - n <= i < |s| ==> IsSpace(s[i])
    ensures n < |s| ==> !IsSpace(s[|s| - n - 1])
  {
    if |s| == 0 || !IsSpace(s[|s| - 1]) then 0 else 1 + TrailingSpaces(s[..|s| - 1])
  }

  /** `r` is the slice of `s` at offset `k`, and everything around it is whitespace. */
  predicate SpacedAround(s: string, k: int, r: string) {
    && 0 <= k <= |s| - |r| && s[k..k + |r|] == r
    && (forall i :: 0 <= i < k ==> IsSpace(s[i]))
    && (forall i :: k + |r| <= i < |s| ==> IsSpace(s[i]))
  }

  /** `str.strip()`: the slice of `s` left after removing whitespace at both
      ends; it starts and ends with a non-space, and all that was removed is
      whitespace. */
  function Strip(s: string): (r: string)
    ensures |r| > 0 ==> !IsSpace(r[0]) && !IsSpace(r[|r| - 1])
    ensures exists k :: SpacedAround(s, k, r)
  {
    var lead := LeadingSpaces(s);
    if lead == |s| then
      assert SpacedAround(s, lead, []);
      []
    else
      var trail := TrailingSpaces(s);
      assert lead < |s| - trail;
      assert SpacedAround(s, lead, s[lead..|s| - trail]);
      s[lead..|s| - trail]
  }

  /** Stripping twice is stripping once. */
  lemma StripIdempotent(s: string)
    ensures Strip(Strip(s)) == Strip(s)
  {
  }

  /** `str.upper()` on one character, for the letters whose upper case is an
      ASCII letter: a-z, dotless i (to I) and long s (to S). */
  function Upper(c: char): (u: char)
    ensures 'a' <= c <= 'z' ==> u as int == c as int - 32
    ensures u == 'I' <==> c == 'I' || c == 'i' || c == '\U{131}'
    ensures u == 'S' <==> c == 'S' || c == 's' || c == '\U{17F}'
    ensures !('a' <= c <= 'z') && c != '\U{131}' && c != '\U{17F}' ==> u == c
  {
    if 'a' <= c <= 'z' then (c as int - 32) as char
    else if c == '\U{131}' then 'I'
    else if c == '\U{17F}' then 'S'
    else c
  }

  /** The success cell stripped and upper-cased. */
  function Mark(cell: string): string
  {
    SeqUtil.Map(Upper, Strip(cell))
  }

  /** Python's `str.isdigit`, for ASCII digits. */
  predicate IsDigits(s: string) {
    |s| > 0 && forall i :: 0 <= i < |s| ==> '0' <= s[i] <= '9'
  }

  /** `int()` on a string of decimal digits. */
  function DigitsValue(s: string): nat
    requires forall i :: 0 <= i < |s| ==> '0' <= s[i] <= '9'
  {
    if |s| == 0 then 0 else 10 * DigitsValue(s[..|s| - 1]) + (s[|s| - 1] as int - '0' as int)
  }

  /** The decimal digits of `n`, the partner of `DigitsValue`. */
  function ShowNat(n: nat): (s: string)
    ensures |s| > 0 && forall i :: 0 <= i < |s| ==> '0' <= s[i] <= '9'
  {
    if n < 10 then [('0' as int + n) as char] else ShowNat(n / 10) + [('0' as int + n % 10) as char]
  }

  /** Reading back the digits of a number gives the number. */
  lemma {:induction false} DigitsValueShowNat(n: nat)
    ensures DigitsValue(ShowNat(n)) == n
  {
    if n >= 10 {
      var s := ShowNat(n);
      assert s[..|s| - 1] == ShowNat(n / 10);
      DigitsValueShowNat(n / 10);
    }
  }

  /** The row normalisation loop body: a non-digit RunId becomes 0; the
      stripped, upper-cased success cell makes a skip when it is "SKIP" and
      a success when it is "Y"; an unparsable time is `None`. */
  function Normalize(raw: RawRow, parseFloat: string -> Option<real>): (r: Row)
    ensures IsDigits(raw.runId) ==> r.runId == DigitsValue(raw.runId)
    ensures !IsDigits(raw.runId) ==> r.runId == 0
    ensures r.agent == raw.agent && r.timeMin == parseFloat(raw.time)
    ensures r.skip <==> Mark(raw.successMark) == "SKIP"
    ensures r.success <==> Mark(raw.successMark) == "Y"
    ensures !(r.skip && r.success)
  {
    var mark := Mark(raw.successMark);
    Row(if IsDigits(raw.runId) then DigitsValue(raw.runId) else 0, raw.agent, mark == "SKIP", mark == "Y",
        parseFloat(raw.time))
  }

  /** A row succeeds exactly when its success cell is "y" or "Y" apart from
      surrounding whitespace. */
  lemma SuccessIffY(raw: RawRow, parseFloat: string -> Option<real>)
    ensures Normalize(raw, parseFloat).success <==> Strip(raw.successMark) == "Y" || Strip(raw.successMark) == "y"
  {
  }

  /** A row is skipped exactly when its success cell is four letters that
      upper-case to S, K, I, P, apart from surrounding whitespace; besides
      the ASCII spellings, dotless i and long s qualify. */
  lemma SkipIffSkipLetters(raw: RawRow, parseFloat: string -> Option<real>)
    ensures var t := Strip(raw.successMark);
            Normalize(raw, parseFloat).skip <==>
              && |t| == 4
              && (t[0] == 'S' || t[0] == 's' || t[0] == '\U{17F}')
              && (t[1] == 'K' || t[1] == 'k')
              && (t[2] == 'I' || t[2] == 'i' || t[2] == '\U{131}')
              && (t[3] == 'P' || t[3] == 'p')
  {
    var t := Strip(raw.successMark);
    var m := Mark(raw.successMark);
    if |t| == 4 {
      assert m == [Upper(t[0]), Upper(t[1]), Upper(t[2]), Upper(t[3])];
    }
  }

  // ---------------------------------------------------------------------
  // Agents: sorted(set(...))
  // ---------------------------------------------------------------------

  /** Python's string order: lexicographic by code point, a proper prefix first. */
  predicate Less(a: string, b: string)
    decreases |a|
  {
    if |a| == 0 then |b| > 0
    else |b| > 0 && (a[0] < b[0] || (a[0] == b[0] && Less(a[1..], b[1..])))
  }

  lemma {:induction false} LessIrreflexive(a: string)
    ensures !Less(a, a)
    decreases |a|
  {
    if |a| > 0 {
      LessIrreflexive(a[1..]);
    }
  }

  lemma {:induction false} LessTransitive(a: string, b: string, c: string)
    requires Less(a, b) && Less(b, c)
    ensures Less(a, c)
    decreases |a|
  {
    if |a| > 0 && a[0] == b[0] && b[0] == c[0] {
      LessTransitive(a[1..], b[1..], c[1..]);
    }
  }

  lemma {:induction false} LessTotal(a: string, b: string)
    ensures a == b || Less(a, b) || Less(b, a)
    decreases |a|
  {
    if |a| > 0 && |b| > 0 && a[0] == b[0] {
      LessTotal(a[1..], b[1..]);
      if a[1..] == b[1..] {
        assert a == [a[0]] + a[1..] && b == [b[0]] + b[1..];
      }
    }
  }

  /** Strictly increasing, hence without duplicates. */
  predicate Sorted(s: seq<string>) {
    forall i, j :: 0 <= i < j < |s| ==> Less(s[i], s[j])
  }

  /** `x` added to a sorted, duplicate-free sequence at its place. */
  function Insert(x: string, s: seq<string>): (r: seq<string>)
    requires Sorted(s)
    ensures Sorted(r)
    ensures forall y :: y in r <==> y == x || y in s
  {
    if |s| == 0 then [x]
    else if x == s[0] then s
    else if Less(x, s[0]) then
      assert forall j :: 0 <= j < |s| ==> Less(x, s[j]) by {
        forall j | 0 <= j < |s| ensures Less(x, s[j]) {
          if j > 0 { LessTransitive(x, s[0], s[j]); }
        }
      }
      [x] + s
    else
      LessTotal(x, s[0]);
      var rest := Insert(x, s[1..]);
      assert forall j :: 0 <= j < |rest| ==> Less(s[0], rest[j]) by {
        forall j | 0 <= j < |rest| ensures Less(s[0], rest[j]) {
          assert rest[j] == x || rest[j] in s[1..];
          if rest[j] != x {
            var k :| 0 <= k < |s[1..]| && s[1..][k] == rest[j];
            assert s[k + 1] == rest[j];
          }
        }
      }
      [s[0]] + rest
  }

  /** `sorted(set(r["Agent"] for r in rows))`: each agent once, in order. */
  function Agents(rows: seq<Row>): (r: seq<string>)
    ensures Sorted(r)
    ensures forall a :: a in r <==> exists i :: 0 <= i < |rows| && rows[i].agent == a
  {
    if |rows| == 0 then []
    else
      var before := Agents(rows[..|rows| - 1]);
      assert forall i :: 0 <= i < |rows| - 1 ==> rows[..|rows| - 1][i] == rows[i];
      Insert(rows[|rows| - 1].agent, before)
  }

  /** A sorted sequence has no duplicates. */
  lemma SortedDistinct(s: seq<string>, i: nat, j: nat)
    requires Sorted(s) && i < j < |s|
    ensures s[i] != s[j]
  {
    LessIrreflexive(s[i]);
  }

  // ---------------------------------------------------------------------
  // Per-agent summary
  // ---------------------------------------------------------------------

  datatype Summary = Summary(agent: string, pass: nat, total: nat, successRate: real, medianTime: Option<real>)

  /** `[d for d in by_agent[a] if not d["Skip"]]`: the agent's counted runs, in order. */
  function Counted(rows: seq<Row>, a: string): (data: seq<Row>)
    ensures |data| <= |rows|
    ensures forall i :: 0 <= i < |data| ==> data[i] in rows && data[i].agent == a && !data[i].skip
    ensures forall i :: 0 <= i < |rows| && rows[i].agent == a && !rows[i].skip ==> rows[i] in data
  {
    if |rows| == 0 then []
    else if rows[0].agent == a && !rows[0].skip then [rows[0]] + Counted(rows[1..], a)
    else Counted(rows[1..], a)
  }

  /** Counting runs row by row: rows appended after others are counted after them. */
  lemma {:induction false} CountedConcat(rows: seq<Row>, extra: seq<Row>, a: string)
    ensures Counted(rows + extra, a) == Counted(rows, a) + Counted(extra, a)
  {
    if |rows| == 0 {
      assert rows + extra == extra;
    } else {
      assert (rows + extra)[1..] == rows[1..] + extra;
      CountedConcat(rows[1..], extra, a);
    }
  }

  /** The number of successful rows. */
  function Successes(data: seq<Row>): (n: nat)
    ensures n <= |data|
    ensures n == 0 <==> forall i :: 0 <= i < |data| ==> !data[i].success
  {
    if |data| == 0 then 0 else (if data[0].success then 1 else 0) + Successes(data[1..])
  }

  /** The parsed times, in order. */
  function Times(data: seq<Row>): (t: seq<real>)
    ensures |t| <= |data|
    ensures |t| == 0 <==> forall i :: 0 <= i < |data| ==> data[i].timeMin.None?
  {
    if |data| == 0 then []
    else match data[0].timeMin
      case None => Times(data[1..])
      case Some(x) => [x] + Times(data[1..])
  }

  /** One row contributes its time when it has one, and nothing otherwise. */
  lemma TimesOfOne(row: Row)
    ensures Times([row]) == (if row.timeMin.Some? then [row.timeMin.value] else [])
  {
    assert [row][1..] == [];
  }

  /** Times distributes over concatenation: with `TimesOfOne` this pins the
      result to exactly the present times, in row order, each once. */
  lemma {:induction false} TimesConcat(a: seq<Row>, b: seq<Row>)
    ensures Times(a + b) == Times(a) + Times(b)
    decreases |a|
  {
    if |a| > 0 {
      assert (a + b)[1..] == a[1..] + b;
      TimesConcat(a[1..], b);
    } else {
      assert a + b == b;
    }
  }

  predicate Ascending(s: seq<real>) {
    forall i, j :: 0 <= i < j < |s| ==> s[i] <= s[j]
  }

  /** `x` placed into an ascending sequence. */
  function InsertReal(x: real, s: seq<real>): (r: seq<real>)
    requires Ascending(s)
    ensures Ascending(r) && multiset(r) == multiset(s) + multiset{x}
  {
    if |s| == 0 || x <= s[0] then [x] + s
    else
      var rest := InsertReal(x, s[1..]);
      assert s == [s[0]] + s[1..];
      LowerBoundKept(s[0], rest, s[1..], x);
      [s[0]] + rest
  }

  /** A lower bound of `x` and of every element of `t` bounds every element
      of a sequence holding the same values as `t` plus `x`. */
  lemma LowerBoundKept(b: real, r: seq<real>, t: seq<real>, x: real)
    requires multiset(r) == multiset(t) + multiset{x}
    requires b <= x && forall i :: 0 <= i < |t| ==> b <= t[i]
    ensures forall j :: 0 <= j < |r| ==> b <= r[j]
  {
    forall j | 0 <= j < |r| ensures b <= r[j] {
      assert r[j] in multiset(r);
      if r[j] != x {
        assert r[j] in multiset(t);
        var i :| 0 <= i < |t| && t[i] == r[j];
      }
    }
  }

  /** `sorted(values)`. */
  function SortReals(s: seq<real>): (r: seq<real>)
    ensures Ascending(r) && multiset(r) == multiset(s)
  {
    if |s| == 0 then []
    else
      assert s == [s[0]] + s[1..];
      InsertReal(s[0], SortReals(s[1..]))
  }

  /** `statistics.median`: `None` for no values (where the source avoids the
      call); otherwise the middle of the sorted values, or the mean of the
      two middle ones, which lies between the least and the greatest value. */
  function Median(values: seq<real>): (m: Option<real>)
    ensures m.None? <==> |values| == 0
    ensures m.Some? ==> (exists i :: 0 <= i < |values| && values[i] <= m.value)
                        && (exists j :: 0 <= j < |values| && m.value <= values[j])
  {
    if |values| == 0 then None
    else
      var sorted := SortReals(values);
      var n := |sorted|;
      assert sorted[0] in multiset(values) && sorted[n - 1] in multiset(values);
      var m := if n % 2 == 1 then sorted[n / 2] else (sorted[n / 2 - 1] + sorted[n / 2]) / 2.0;
      assert sorted[0] <= m <= sorted[n - 1];
      Some(m)
  }

  /** The success rate: 0 with no counted runs, else the percentage passed. */
  function Rate(pass: nat, total: nat): (r: real)
    requires pass <= total
    ensures 0.0 <= r <= 100.0
    ensures total == 0 ==> r == 0.0
    ensures total > 0 ==> r * total as real == pass as real * 100.0
    ensures total > 0 ==> (r == 100.0 <==> pass == total)
  {
    if total == 0 then 0.0 else pass as real / total as real * 100.0
  }

  /** One iteration of the summary loop. */
  function Summarize(rows: seq<Row>, a: string): (s: Summary)
    ensures s.agent == a && s.pass <= s.total
    ensures s.total == |Counted(rows, a)| && s.pass == Successes(Counted(rows, a))
    ensures s.successRate == Rate(s.pass, s.total)
    ensures s.medianTime == Median(Times(Counted(rows, a)))
    ensures 0.0 <= s.successRate <= 100.0
    ensures s.total == 0 ==> s.successRate == 0.0
    ensures s.medianTime.None? <==> forall i :: 0 <= i < |rows| && rows[i].agent == a && !rows[i].skip ==>
                                                  rows[i].timeMin.None?
  {
    var data := Counted(rows, a);
    var pass := Successes(data);
    var m := Median(Times(data));
    assert m.None? <==> forall i :: 0 <= i < |rows| && rows[i].agent == a && !rows[i].skip ==> rows[i].timeMin.None? by {
      if m.Some? {
        var k :| 0 <= k < |data| && data[k].timeMin.Some?;
        assert data[k] in rows;
      } else {
        forall i | 0 <= i < |rows| && rows[i].agent == a && !rows[i].skip
          ensures rows[i].timeMin.None?
        {
          assert rows[i] in data;
        }
      }
    }
    Summary(a, pass, |data|, Rate(pass, |data|), m)
  }

  /** A skipped row changes no summary. */
  lemma SkipRowIgnored(rows: seq<Row>, row: Row, a: string)
    requires row.skip
    ensures Summarize(rows + [row], a) == Summarize(rows, a)
  {
    CountedConcat(rows, [row], a);
    assert Counted([row], a) == [];
    assert Counted(rows + [row], a) == Counted(rows, a);
  }

  lemma {:induction false} SuccessesConcat(a: seq<Row>, b: seq<Row>)
    ensures Successes(a + b) == Successes(a) + Successes(b)
  {
    if |a| == 0 {
      assert a + b == b;
    } else {
      assert (a + b)[1..] == a[1..] + b;
      SuccessesConcat(a[1..], b);
    }
  }

  /** A counted row of the agent adds one run, and one pass exactly when it succeeded. */
  lemma CountedRowAdds(rows: seq<Row>, row: Row, a: string)
    requires row.agent == a && !row.skip
    ensures Summarize(rows + [row], a).total == Summarize(rows, a).total + 1
    ensures Summarize(rows + [row], a).pass == Summarize(rows, a).pass + (if row.success then 1 else 0)
  {
    CountedConcat(rows, [row], a);
    assert Counted([row], a) == [row];
    SuccessesConcat(Counted(rows, a), [row]);
  }

  /** The summary list: one entry per agent, in agent order. */
  function SummaryTable(rows: seq<Row>): (r: seq<Summary>)
    ensures |r| == |Agents(rows)|
    ensures forall i :: 0 <= i < |r| ==> r[i] == Summarize(rows, Agents(rows)[i])
    ensures forall i :: 0 <= i < |r| ==> r[i].agent == Agents(rows)[i]
  {
    SeqUtil.Map((a: string) => Summarize(rows, a), Agents(rows))
  }

  // ---------------------------------------------------------------------
  // Bar charts
  // ---------------------------------------------------------------------

  /** Python's `int()` on a float: truncation toward zero. */
  function Trunc(x: real): (n: int)
    ensures x >= 0.0 ==> n as real <= x < n as real + 1.0
    ensures x < 0.0 ==> n as real - 1.0 < x <= n as real
  {
    if x >= 0.0 then x.Floor else -((-x).Floor)
  }

  /** `max(values)`. */
  function MaxOf(values: seq<real>): (m: real)
    requires |values| > 0
    ensures m in values
    ensures forall i :: 0 <= i < |values| ==> values[i] <= m
  {
    if |values| == 1 then values[0]
    else
      var rest := MaxOf(values[1..]);
      if values[0] >= rest then values[0] else rest
  }

  /** `max(values) or 1`: the maximum, or 1 when the maximum is zero, so
      that dividing by it is always defined. */
  function ScaleOf(values: seq<real>): (m: real)
    requires |values| > 0
    ensures m != 0.0
    ensures m == MaxOf(values) || (m == 1.0 && MaxOf(values) == 0.0)
  {
    var mx := MaxOf(values);
    if mx == 0.0 then 1.0 else mx
  }

  /** One bar: its top edge, its drawn width, and the value and label it shows. */
  datatype Bar = Bar(y: int, width: int, value: real, name: string)

  /** `bar_chart_svg` as the geometry it draws; `EmptySvg` is `"<svg/>"`. */
  datatype Chart = EmptySvg | Svg(width: int, height: int, barHeight: int, gap: int, bars: seq<Bar>)

  /** `max(12, int(height / (n * 1.5)))`: the largest whole height that
      lets `n` bars with half-bar gaps fit, but never below 12. */
  function BarHeight(count: nat, height: int): (h: int)
    requires count > 0
    ensures h >= 12
    ensures h > 12 ==> h as real * (count as real * 1.5) <= height as real < (h + 1) as real * (count as real * 1.5)
    ensures h == 12 <==> height as real < 13.0 * (count as real * 1.5)
  {
    var fit := Trunc(height as real / (count as real * 1.5));
    FitBounds(height as real, count as real * 1.5, fit);
    if fit > 12 then fit else 12
  }

  /** Truncating `y / d` for a positive `d` gives the whole multiples of `d`
      that fit in `y`. */
  lemma FitBounds(y: real, d: real, fit: int)
    requires d > 0.0 && fit == Trunc(y / d)
    ensures fit > 0 ==> fit as real * d <= y < (fit + 1) as real * d
    ensures fit <= 12 ==> y < 13.0 * d
  {
    var x := y / d;
    assert x * d == y;
    if x >= 0.0 {
      var lo := fit as real;
      assert lo <= x < lo + 1.0;
      ScaleLe(lo, x, d);
      ScaleLt(x, lo + 1.0, d);
      assert (fit + 1) as real == lo + 1.0;
      assert x * d < (lo + 1.0) * d;
      assert y < (lo + 1.0) * d;
      if fit <= 12 {
        BelowThirteen(y, lo, d);
      }
    } else {
      ScaleLt(x, 0.0, d);
    }
  }

  lemma BelowThirteen(y: real, lo: real, d: real)
    requires y < (lo + 1.0) * d && lo <= 12.0 && d > 0.0
    ensures y < 13.0 * d
  {
    ScaleLe(lo + 1.0, 13.0, d);
  }

  lemma ScaleLe(a: real, b: real, d: real)
    requires a <= b && d > 0.0
    ensures a * d <= b * d
  {
    assert b * d - a * d == (b - a) * d;
  }

  lemma ScaleLt(a: real, b: real, d: real)
    requires a < b && d > 0.0
    ensures a * d < b * d
  {
    assert b * d - a * d == (b - a) * d;
  }

  /** The top edge of bar `i`: the first bar starts one gap down, and each
      further bar one bar and one gap lower. */
  function BarTop(gap: int, barHeight: int, i: nat): int
  {
    gap + i * (barHeight + gap)
  }

  lemma BarTopStep(gap: int, barHeight: int, i: nat)
    ensures BarTop(gap, barHeight, i + 1) == BarTop(gap, barHeight, i) + barHeight + gap
  {
    var k := barHeight + gap;
    assert (i + 1) * k == i * k + k;
  }

  /** `int((v / maxv) * (width - 160))`. */
  function BarWidth(v: real, maxv: real, width: int): int
    requires maxv != 0.0
  {
    Trunc(v / maxv * (width - 160) as real)
  }

  /** `bar_chart_svg(values, labels, width, height)`: one bar per value and
      label pair (`zip` stops at the shorter), each `barHeight` tall and
      `gap` below the previous one, with its width scaled so that the
      largest value spans `width - 160`. */
  function BarChartSvg(values: seq<real>, labels: seq<string>, width: int, height: int): (c: Chart)
    ensures c.EmptySvg? <==> |values| == 0
    ensures c.Svg? ==>
              && c.width == width && c.height == height
              && c.barHeight == BarHeight(|values|, height) && c.gap == c.barHeight / 2
              && |c.bars| == (if |values| < |labels| then |values| else |labels|)
              && forall i :: 0 <= i < |c.bars| ==>
                   && c.bars[i].value == values[i] && c.bars[i].name == labels[i]
                   && c.bars[i].y == BarTop(c.gap, c.barHeight, i)
                   && c.bars[i].width == BarWidth(values[i], ScaleOf(values), width)
  {
    if |values| == 0 then EmptySvg
    else
      var maxv := ScaleOf(values);
      var barH := BarHeight(|values|, height);
      var gap := barH / 2;
      var n := if |values| < |labels| then |values| else |labels|;
      Svg(width, height, barH, gap,
          seq(n, i requires 0 <= i < n =>
                Bar(BarTop(gap, barH, i), BarWidth(values[i], maxv, width), values[i], labels[i])))
  }

  /** Bars are stacked top to bottom, each ending above the next one's top. */
  lemma BarsDoNotOverlap(values: seq<real>, labels: seq<string>, width: int, height: int, i: nat)
    requires BarChartSvg(values, labels, width, height).Svg?
    requires i + 1 < |BarChartSvg(values, labels, width, height).bars|
    ensures var c := BarChartSvg(values, labels, width, height);
            c.bars[i].y + c.barHeight < c.bars[i + 1].y
  {
    var c := BarChartSvg(values, labels, width, height);
    BarTopStep(c.gap, c.barHeight, i);
  }

  /** With non-negative values and room for the labels, every bar fits:
      its width lies between 0 and `width - 160`, and a largest positive
      value fills it. */
  lemma BarWidthsFit(values: seq<real>, labels: seq<string>, width: int, height: int, i: nat)
    requires forall k :: 0 <= k < |values| ==> values[k] >= 0.0
    requires width >= 160
    requires BarChartSvg(values, labels, width, height).Svg?
    requires i < |BarChartSvg(values, labels, width, height).bars|
    ensures var c := BarChartSvg(values, labels, width, height);
            && 0 <= c.bars[i].width <= width - 160
            && (values[i] == MaxOf(values) && values[i] > 0.0 ==> c.bars[i].width == width - 160)
  {
    var maxv := ScaleOf(values);
    assert 0.0 <= values[i] <= maxv && maxv > 0.0;
    WidthWithinRoom(values[i], maxv, width);
  }

  /** A value between 0 and the scale gets a width between 0 and the room
      left of the labels, and the scale itself fills it. */
  lemma WidthWithinRoom(v: real, maxv: real, width: int)
    requires 0.0 <= v <= maxv && maxv > 0.0 && width >= 160
    ensures 0 <= BarWidth(v, maxv, width) <= width - 160
    ensures v == maxv ==> BarWidth(v, maxv, width) == width - 160
  {
    var room := (width - 160) as real;
    var ratio := v / maxv;
    assert ratio * maxv == v;
    assert 0.0 <= ratio <= 1.0;
    var x := ratio * room;
    if room > 0.0 {
      ScaleLe(0.0, ratio, room);
      ScaleLe(ratio, 1.0, room);
    }
    assert 0.0 <= x <= room;
    var n := Trunc(x);
    assert BarWidth(v, maxv, width) == n;
    assert n as real <= x < n as real + 1.0;
    assert n as real <= room;
    assert n as real > -1.0;
    assert 0 <= n <= width - 160;
    if v == maxv {
      assert ratio == 1.0;
      assert ratio * room == room;
    }
  }

  /** A chart of one column of the summary table, one bar per agent in
      table order. */
  function SummaryChart(summary: seq<Summary>, metric: Summary -> real): (c: Chart)
    ensures c.EmptySvg? <==> |summary| == 0
    ensures c.Svg? ==> |c.bars| == |summary|
    ensures c.Svg? ==> forall i :: 0 <= i < |c.bars| ==>
              c.bars[i].name == summary[i].agent && c.bars[i].value == metric(summary[i])
  {
    var values := SeqUtil.Map(metric, summary);
    var labels := SeqUtil.Map((s: Summary) => s.agent, summary);
    BarChartSvg(values, labels, 560, 200)
  }

  /** An agent's success rate. */
  function SuccessRateOf(s: Summary): real
  {
    s.successRate
  }

  /** The success-rate chart: the rates of the summary, labelled by agent. */
  function SuccessChart(rows: seq<Row>): (c: Chart)
    ensures c == SummaryChart(SummaryTable(rows), SuccessRateOf)
    ensures c.EmptySvg? <==> |Agents(rows)| == 0
    ensures c.Svg? ==> forall i :: 0 <= i < |c.bars| ==> 0 <= c.bars[i].width <= 400
  {
    var summary := SummaryTable(rows);
    var rates := SeqUtil.Map(SuccessRateOf, summary);
    var labels := SeqUtil.Map((s: Summary) => s.agent, summary);
    var c := BarChartSvg(rates, labels, 560, 200);
    if c.Svg? then
      assert forall i :: 0 <= i < |c.bars| ==> 0 <= c.bars[i].width <= 400 by {
        forall i | 0 <= i < |c.bars| ensures 0 <= c.bars[i].width <= 400 {
          BarWidthsFit(rates, labels, 560, 200, i);
        }
      }
      c
    else c
  }

  /** Bar `i` of the success chart is the `i`-th agent in sorted order with
      its pass rate over its counted runs. */
  lemma SuccessChartBar(rows: seq<Row>, i: nat)
    requires i < |Agents(rows)|
    ensures var c := SuccessChart(rows);
            var a := Agents(rows)[i];
            && c.Svg?
            && c.bars[i].name == a
            && c.bars[i].value == Rate(Successes(Counted(rows, a)), |Counted(rows, a)|)
  {
  }

  /** An agent's median time, 0 when it has none. */
  function MedianOrZero(s: Summary): real
  {
    s.medianTime.GetOr(0.0)
  }

  /** The median-time chart: one bar per agent, 0 for an agent without a
      median time. */
  function TimeChart(rows: seq<Row>): (c: Chart)
    ensures c.EmptySvg? <==> |Agents(rows)| == 0
    ensures c.Svg? ==> |c.bars| == |Agents(rows)|
  {
    SummaryChart(SummaryTable(rows), MedianOrZero)
  }

  /** Bar `i` of the time chart is the `i`-th agent in sorted order with its
      median time, or 0 when it has none. */
  lemma TimeChartBar(rows: seq<Row>, i: nat)
    requires i < |Agents(rows)|
    ensures var c := TimeChart(rows);
            && c.Svg?
            && c.bars[i].name == Agents(rows)[i]
            && c.bars[i].value == Summarize(rows, Agents(rows)[i]).medianTime.GetOr(0.0)
  {
  }

  // ---------------------------------------------------------------------
  // HTML escaping
  // ---------------------------------------------------------------------

  /** `s.replace(c, rep)` for a one-character pattern. */
  function ReplaceChar(s: string, c: char, rep: string): (r: string)
    ensures forall d :: d in r ==> (d in s && d != c) || d in rep
  {
    if |s| == 0 then ""
    else (if s[0] == c then rep else [s[0]]) + ReplaceChar(s[1..], c, rep)
  }

  lemma {:induction false} ReplaceCharConcat(a: string, b: string, c: char, rep: string)
    ensures ReplaceChar(a + b, c, rep) == ReplaceChar(a, c, rep) + ReplaceChar(b, c, rep)
  {
    if |a| == 0 {
      assert a + b == b;
    } else {
      assert (a + b)[1..] == a[1..] + b;
      ReplaceCharConcat(a[1..], b, c, rep);
    }
  }

  /** `esc`: `&` first, then `<` and `>`; the result holds no raw angle bracket. */
  function Esc(s: string): (r: string)
    ensures '<' !in r && '>' !in r
  {
    ReplaceChar(ReplaceChar(ReplaceChar(s, '&', "&amp;"), '<', "&lt;"), '>', "&gt;")
  }

  /** The entity for one character, the reference for `Esc`. */
  function EscChar(c: char): string
  {
    if c == '&' then "&amp;" else if c == '<' then "&lt;" else if c == '>' then "&gt;" else [c]
  }

  /** Each character replaced by its entity, independently. */
  function EscRef(s: string): string
  {
    if |s| == 0 then "" else EscChar(s[0]) + EscRef(s[1..])
  }

  /** Replacing `&` first means no ampersand of an entity is escaped again:
      the three passes act character by character. */
  lemma {:induction false} EscMatchesRef(s: string)
    ensures Esc(s) == EscRef(s)
  {
    if |s| > 0 {
      var c := s[0];
      var t := s[1..];
      assert s == [c] + t;
      var a1 := ReplaceChar([c], '&', "&amp;");
      ReplaceCharConcat([c], t, '&', "&amp;");
      var b1 := ReplaceChar(t, '&', "&amp;");
      ReplaceCharConcat(a1, b1, '<', "&lt;");
      var a2 := ReplaceChar(a1, '<', "&lt;");
      var b2 := ReplaceChar(b1, '<', "&lt;");
      ReplaceCharConcat(a2, b2, '>', "&gt;");
      SingleCharEscapes(c);
      EscMatchesRef(t);
    }
  }

  lemma SingleCharEscapes(c: char)
    ensures ReplaceChar(ReplaceChar(ReplaceChar([c], '&', "&amp;"), '<', "&lt;"), '>', "&gt;") == EscChar(c)
  {
    if c == '&' {
      AmpEscapes();
    } else if c == '<' {
      LtEscapes();
    } else if c == '>' {
      GtEscapes();
    } else {
      ReplaceCharSingle(c, '&', "&amp;");
      ReplaceCharSingle(c, '<', "&lt;");
      ReplaceCharSingle(c, '>', "&gt;");
    }
  }

  lemma AmpEscapes()
    ensures ReplaceChar(ReplaceChar(ReplaceChar("&", '&', "&amp;"), '<', "&lt;"), '>', "&gt;") == "&amp;"
  {
    ReplaceCharSingle('&', '&', "&amp;");
    AmpKept('<', "&lt;");
    AmpKept('>', "&gt;");
  }

  lemma AmpKept(c: char, rep: string)
    requires c == '<' || c == '>'
    ensures ReplaceChar("&amp;", c, rep) == "&amp;"
  {
    ReplaceCharAbsent("&amp;", c, rep);
  }

  lemma LtEscapes()
    ensures ReplaceChar(ReplaceChar(ReplaceChar("<", '&', "&amp;"), '<', "&lt;"), '>', "&gt;") == "&lt;"
  {
    ReplaceCharSingle('<', '&', "&amp;");
    ReplaceCharSingle('<', '<', "&lt;");
    ReplaceCharAbsent("&lt;", '>', "&gt;");
  }

  lemma GtEscapes()
    ensures ReplaceChar(ReplaceChar(ReplaceChar(">", '&', "&amp;"), '<', "&lt;"), '>', "&gt;") == "&gt;"
  {
    ReplaceCharSingle('>', '&', "&amp;");
    ReplaceCharSingle('>', '<', "&lt;");
    ReplaceCharSingle('>', '>', "&gt;");
  }

  lemma ReplaceCharSingle(d: char, c: char, rep: string)
    ensures ReplaceChar([d], c, rep) == if d == c then rep else [d]
  {
    assert [d][1..] == "";
  }

  /** Replacing a character that does not occur changes nothing. */
  lemma {:induction false} ReplaceCharAbsent(s: string, c: char, rep: string)
    requires c !in s
    ensures ReplaceChar(s, c, rep) == s
  {
    if |s| > 0 {
      ReplaceCharAbsent(s[1..], c, rep);
      assert s == [s[0]] + s[1..];
    }
  }

  /** Decoding the three entities, the inverse of `Esc`. */
  function Unescape(s: string): string
    decreases |s|
  {
    if |s| == 0 then ""
    else if s[0] != '&' then [s[0]] + Unescape(s[1..])
    else if |s| >= 5 && s[1] == 'a' && s[2] == 'm' && s[3] == 'p' && s[4] == ';' then "&" + Unescape(s[5..])
    else if |s| >= 4 && s[1] == 'l' && s[2] == 't' && s[3] == ';' then "<" + Unescape(s[4..])
    else if |s| >= 4 && s[1] == 'g' && s[2] == 't' && s[3] == ';' then ">" + Unescape(s[4..])
    else "&" + Unescape(s[1..])
  }

  /** Escaping loses nothing: unescaping gives the text back. */
  lemma {:induction false} UnescapeEsc(s: string)
    ensures Unescape(Esc(s)) == s
  {
    EscMatchesRef(s);
    UnescapeEscRef(s);
  }

  /** Unescaping reads one escaped character back off the front. */
  lemma UnescapeHead(c: char, rest: string)
    ensures Unescape(EscChar(c) + rest) == [c] + Unescape(rest)
  {
    var e := EscChar(c) + rest;
    if c == '&' {
      assert e[5..] == rest;
    } else if c == '<' || c == '>' {
      assert e[4..] == rest;
    } else {
      assert e[1..] == rest;
    }
  }

  lemma {:induction false} UnescapeEscRef(s: string)
    ensures Unescape(EscRef(s)) == s
  {
    if |s| > 0 {
      assert EscRef(s) == EscChar(s[0]) + EscRef(s[1..]);
      UnescapeHead(s[0], EscRef(s[1..]));
      UnescapeEscRef(s[1..]);
      assert s == [s[0]] + s[1..];
    }
  }
}

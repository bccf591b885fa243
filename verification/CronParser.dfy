/** Cron field syntax. Reading an integer is Python's `int()`, passed in as `toInt`. */
module CronParser {
  import opened Text
  import opened Wrappers
  import opened NextFire

  datatype Result<+T> = Ok(value: T) | ValueError

  type IntReader = string -> Option<int>

  datatype Bounds = Bounds(lo: int, hi: int)

  const MINUTE := Bounds(0, 59)
  const HOUR := Bounds(0, 23)
  const DAY_OF_MONTH := Bounds(1, 31)
  const MONTH := Bounds(1, 12)
  const DAY_OF_WEEK := Bounds(0, 6)

  /** `range(lo, hi + 1, step)`. */
  function Range(lo: int, hi: int, step: int): seq<int>
    requires step > 0
    decreases hi - lo
  {
    if lo > hi then [] else [lo] + Range(lo + step, hi, step)
  }

  /** Text before and after the first `c`. */
  function SplitFirst(s: string, c: char): (string, string)
    requires c in s
  {
    if s[0] == c then ([], s[1..])
    else
      var (a, b) := SplitFirst(s[1..], c);
      ([s[0]] + a, b)
  }

  function SplitAll(s: string, c: char): (r: seq<string>)
    ensures r != []
    decreases |s|
  {
    if c !in s then [s]
    else
      SplitFirstIsShorter(s, c);
      [SplitFirst(s, c).0] + SplitAll(SplitFirst(s, c).1, c)
  }

  lemma {:induction false} SplitFirstIsShorter(s: string, c: char)
    requires c in s
    ensures |SplitFirst(s, c).1| < |s|
    ensures s == SplitFirst(s, c).0 + [c] + SplitFirst(s, c).1
    ensures c !in SplitFirst(s, c).0
  {
    if s[0] != c {
      SplitFirstIsShorter(s[1..], c);
      assert s == [s[0]] + s[1..];
    }
  }

  function ReadAll(parts: seq<string>, toInt: IntReader): Result<seq<int>> {
    if parts == [] then Ok([])
    else match toInt(parts[0])
      case None => ValueError
      case Some(v) =>
        match ReadAll(parts[1..], toInt)
        case ValueError => ValueError
        case Ok(rest) => Ok([v] + rest)
  }

  function InsertInt(x: int, q: seq<int>): seq<int> {
    if q == [] || x <= q[0] then [x] + q else [q[0]] + InsertInt(x, q[1..])
  }

  function SortInts(q: seq<int>): seq<int> {
    if q == [] then [] else InsertInt(q[0], SortInts(q[1..]))
  }

  predicate InBounds(q: seq<int>, b: Bounds) {
    forall v :: v in q ==> b.lo <= v <= b.hi
  }

  /** `"N-M"`: two integers around the first dash. */
  function ReadPair(s: string, toInt: IntReader): Result<(int, int)>
    requires '-' in s
  {
    var (a, b) := SplitFirst(s, '-');
    match (toInt(a), toInt(b))
    case (Some(x), Some(y)) => Ok((x, y))
    case _ => ValueError
  }

  function CheckedRange(rlo: int, rhi: int, step: int, b: Bounds): Result<seq<int>>
    requires step > 0
  {
    if rlo < b.lo || rhi > b.hi || rlo > rhi then ValueError else Ok(Range(rlo, rhi, step))
  }

  function ParseField(token: string, b: Bounds, toInt: IntReader): Result<seq<int>> {
    if token == "*" then Ok(Range(b.lo, b.hi, 1))
    else if '/' in token then
      var (base, stepText) := SplitFirst(token, '/');
      match toInt(stepText)
      case None => ValueError
      case Some(step) =>
        if step <= 0 then ValueError
        else if base == "*" then Ok(Range(b.lo, b.hi, step))
        else if '-' in base then
          (match ReadPair(base, toInt)
           case ValueError => ValueError
           case Ok((rlo, rhi)) => CheckedRange(rlo, rhi, step, b))
        else
          (match toInt(base)
           case None => ValueError
           case Some(rlo) => CheckedRange(rlo, b.hi, step, b))
    else if ',' in token then
      match ReadAll(SplitAll(token, ','), toInt)
      case ValueError => ValueError
      case Ok(values) => if InBounds(SortInts(values), b) then Ok(SortInts(values)) else ValueError
    else if '-' in token then
      match ReadPair(token, toInt)
      case ValueError => ValueError
      case Ok((rlo, rhi)) => CheckedRange(rlo, rhi, 1, b)
    else
      match toInt(token)
      case None => ValueError
      case Some(v) => if b.lo <= v <= b.hi then Ok([v]) else ValueError
  }

  /** What an accepted field denotes: a nonempty, ascending choice of admissible values. */
  ghost predicate GoodField(q: seq<int>, b: Bounds) {
    q != [] && InBounds(q, b) && forall i, j :: 0 <= i < j < |q| ==> q[i] <= q[j]
  }

  lemma {:induction false} RangeIsArithmetic(lo: int, hi: int, step: int)
    requires step > 0
    ensures forall v :: v in Range(lo, hi, step) <==> lo <= v <= hi && (v - lo) % step == 0
    ensures forall i, j :: 0 <= i < j < |Range(lo, hi, step)| ==> Range(lo, hi, step)[i] < Range(lo, hi, step)[j]
    decreases hi - lo
  {
    if lo <= hi {
      RangeIsArithmetic(lo + step, hi, step);
      var rest := Range(lo + step, hi, step);
      forall v ensures v in Range(lo, hi, step) <==> lo <= v <= hi && (v - lo) % step == 0 {
        if v < lo + step && lo <= v {
          SmallRemainder(v - lo, step);
        } else {
          RemainderShifts(v - lo, step);
        }
      }
      forall j | 0 <= j < |rest| ensures lo < rest[j] { assert rest[j] in rest; }
    }
  }

  lemma SmallRemainder(v: int, step: int)
    requires 0 <= v < step
    ensures v % step == 0 <==> v == 0
  {
  }

  lemma RemainderShifts(v: int, step: int)
    requires step > 0
    ensures v % step == (v - step) % step
  {
    var q, r := v / step, v % step;
    assert v == q * step + r;
    assert v - step == (q - 1) * step + r;
    QuotientIsUnique(v - step, step, q - 1, r);
  }

  lemma MultipleIsLarge(a: int, n: int)
    requires a >= 1 && n > 0
    ensures a * n >= n
  {
    assert (a - 1) * n >= 0;
  }

  lemma SameQuotient(step: int, q: int, r: int, q': int, r': int)
    requires step > 0 && 0 <= r < step && 0 <= r' < step
    requires q * step + r == q' * step + r'
    ensures q == q' && r == r'
  {
    assert (q - q') * step == q * step - q' * step;
    assert (q' - q) * step == q' * step - q * step;
    if q > q' { MultipleIsLarge(q - q', step); }
    if q < q' { MultipleIsLarge(q' - q, step); }
  }

  lemma QuotientIsUnique(v: int, step: int, q: int, r: int)
    requires step > 0 && v == q * step + r && 0 <= r < step
    ensures v % step == r
  {
    assert v == (v / step) * step + v % step;
    SameQuotient(step, q, r, v / step, v % step);
  }

  lemma {:induction false} SortIntsSorts(q: seq<int>)
    ensures |SortInts(q)| == |q|
    ensures forall v :: v in SortInts(q) <==> v in q
    ensures forall i, j :: 0 <= i < j < |q| ==> SortInts(q)[i] <= SortInts(q)[j]
  {
    if q != [] {
      assert q == [q[0]] + q[1..];
      SortIntsSorts(q[1..]);
      InsertIntInserts(q[0], SortInts(q[1..]));
    }
  }

  lemma {:induction false} InsertIntInserts(x: int, q: seq<int>)
    requires forall i, j :: 0 <= i < j < |q| ==> q[i] <= q[j]
    ensures |InsertInt(x, q)| == |q| + 1
    ensures forall v :: v in InsertInt(x, q) <==> v == x || v in q
    ensures forall i, j :: 0 <= i < j < |q| + 1 ==> InsertInt(x, q)[i] <= InsertInt(x, q)[j]
  {
    if q != [] {
      assert q == [q[0]] + q[1..];
      if x > q[0] {
        InsertIntInserts(x, q[1..]);
        var r := InsertInt(x, q[1..]);
        forall j | 0 <= j < |r| ensures q[0] <= r[j] {
          assert r[j] in r;
          if r[j] in q[1..] {
            var k :| 0 <= k < |q[1..]| && q[1..][k] == r[j];
            assert q[0] <= q[k + 1];
          }
        }
      } else {
        forall j | 0 <= j < |q| ensures x <= q[j] {
          assert q[0] <= q[j] || j == 0;
        }
      }
    }
  }

  /** Every accepted field is a nonempty ascending tuple of values in the field's range. */
  lemma ParsedFieldIsGood(token: string, b: Bounds, toInt: IntReader)
    requires b.lo <= b.hi
    requires ParseField(token, b, toInt).Ok?
    ensures GoodField(ParseField(token, b, toInt).value, b)
  {
    var q := ParseField(token, b, toInt).value;
    if token == "*" {
      GoodRange(b.lo, b.hi, 1, b);
    } else if '/' in token {
      var (base, stepText) := SplitFirst(token, '/');
      var step := toInt(stepText).value;
      if base == "*" {
        GoodRange(b.lo, b.hi, step, b);
      } else if '-' in base {
        var (rlo, rhi) := ReadPair(base, toInt).value;
        GoodRange(rlo, rhi, step, b);
      } else {
        GoodRange(toInt(base).value, b.hi, step, b);
      }
    } else if ',' in token {
      var values := ReadAll(SplitAll(token, ','), toInt).value;
      ReadAllKeepsLength(SplitAll(token, ','), toInt);
      SortIntsSorts(values);
    } else if '-' in token {
      var (rlo, rhi) := ReadPair(token, toInt).value;
      GoodRange(rlo, rhi, 1, b);
    }
  }

  lemma {:induction false} ReadAllKeepsLength(parts: seq<string>, toInt: IntReader)
    requires ReadAll(parts, toInt).Ok?
    ensures |ReadAll(parts, toInt).value| == |parts|
    ensures forall i :: 0 <= i < |parts| ==> toInt(parts[i]) == Some(ReadAll(parts, toInt).value[i])
  {
    if parts != [] {
      ReadAllKeepsLength(parts[1..], toInt);
    }
  }

  lemma GoodRange(rlo: int, rhi: int, step: int, b: Bounds)
    requires step > 0 && b.lo <= rlo <= rhi <= b.hi
    ensures GoodField(Range(rlo, rhi, step), b)
  {
    RangeIsArithmetic(rlo, rhi, step);
    assert Range(rlo, rhi, step)[0] == rlo;
  }

  /** A stepped field `A-B/S` accepts exactly the values A, A+S, A+2S, ... up to B. */
  lemma SteppedFieldMeans(token: string, b: Bounds, toInt: IntReader, rlo: int, rhi: int, step: int, v: int)
    requires token != "*" && '/' in token && '-' in SplitFirst(token, '/').0
    requires toInt(SplitFirst(token, '/').1) == Some(step)
    requires ReadPair(SplitFirst(token, '/').0, toInt) == Ok((rlo, rhi))
    ensures ParseField(token, b, toInt).Ok? <==> step > 0 && b.lo <= rlo <= rhi <= b.hi
    ensures ParseField(token, b, toInt).Ok? ==>
      (v in ParseField(token, b, toInt).value <==> exists k: nat :: v == rlo + k * step && v <= rhi)
  {
    if step > 0 && b.lo <= rlo <= rhi <= b.hi {
      RangeIsArithmetic(rlo, rhi, step);
      if rlo <= v <= rhi && (v - rlo) % step == 0 {
        var k := (v - rlo) / step;
        assert v == rlo + k * step;
      }
      if k: nat :| v == rlo + k * step && v <= rhi {
        assert k * step >= 0;
        QuotientIsUnique(v - rlo, step, k, 0);
      }
    }
  }

  // ---- whole expressions ----

  /** `str.split()`: maximal runs without whitespace. */
  function Words(s: string): seq<string> {
    WordsFrom(s, [])
  }

  function WordsFrom(s: string, word: string): seq<string>
    decreases |s|
  {
    if s == [] then (if word == [] then [] else [word])
    else if IsSpace(s[0]) then (if word == [] then [] else [word]) + WordsFrom(s[1..], [])
    else WordsFrom(s[1..], word + [s[0]])
  }

  function ParseCron(expr: string, toInt: IntReader): Result<CronExpression> {
    var tokens := Words(expr);
    if |tokens| != 5 then ValueError
    else
      match (ParseField(tokens[0], MINUTE, toInt), ParseField(tokens[1], HOUR, toInt),
             ParseField(tokens[2], DAY_OF_MONTH, toInt), ParseField(tokens[3], MONTH, toInt),
             ParseField(tokens[4], DAY_OF_WEEK, toInt))
      case (Ok(mi), Ok(h), Ok(d), Ok(mo), Ok(w)) => Ok(CronExpression(mi, h, d, mo, w))
      case _ => ValueError
  }

  ghost predicate GoodExpression(e: CronExpression) {
    GoodField(e.minute, MINUTE) && GoodField(e.hour, HOUR) && GoodField(e.dayOfMonth, DAY_OF_MONTH) &&
    GoodField(e.month, MONTH) && GoodField(e.dayOfWeek, DAY_OF_WEEK)
  }

  lemma ParsedCronIsGood(expr: string, toInt: IntReader)
    requires ParseCron(expr, toInt).Ok?
    ensures GoodExpression(ParseCron(expr, toInt).value)
  {
    var tokens := Words(expr);
    ParsedFieldIsGood(tokens[0], MINUTE, toInt);
    ParsedFieldIsGood(tokens[1], HOUR, toInt);
    ParsedFieldIsGood(tokens[2], DAY_OF_MONTH, toInt);
    ParsedFieldIsGood(tokens[3], MONTH, toInt);
    ParsedFieldIsGood(tokens[4], DAY_OF_WEEK, toInt);
  }
}

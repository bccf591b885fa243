/** What cron expressions mean, form by form, as they are written. */
module CronFields {
  import opened Text
  import opened Wrappers
  import opened CronParser

  // ---- splitting ----

  lemma {:induction false} SplitsAtFirst(a: string, c: char, b: string)
    requires c !in a
    ensures c in a + [c] + b && SplitFirst(a + [c] + b, c) == (a, b)
    decreases |a|
  {
    var s := a + [c] + b;
    if a == [] {
      assert s[0] == c && s[1..] == b;
    } else {
      assert s[0] == a[0] && a[0] in a && s[1..] == a[1..] + [c] + b;
      SplitsAtFirst(a[1..], c, b);
      assert a == [a[0]] + a[1..];
    }
  }

  lemma ListSplits(a: string, rest: string)
    requires ',' !in a
    ensures SplitAll(a + [','] + rest, ',') == [a] + SplitAll(rest, ',')
    ensures SplitAll(a, ',') == [a]
  {
    SplitsAtFirst(a, ',', rest);
  }

  // ---- the forms of a field ----

  /** `lo`, `lo + step`, `lo + 2 * step` and so on, up to `hi`. */
  ghost predicate OnSteps(v: int, lo: int, hi: int, step: int) {
    exists k: nat :: v == lo + k * step && v <= hi
  }

  lemma RangeMeans(lo: int, hi: int, step: int, v: int)
    requires step > 0
    ensures v in Range(lo, hi, step) <==> OnSteps(v, lo, hi, step)
  {
    RangeIsArithmetic(lo, hi, step);
    hide Range;
    if lo <= v <= hi && (v - lo) % step == 0 {
      var k := (v - lo) / step;
      assert v == lo + k * step;
    }
    if k: nat :| v == lo + k * step && v <= hi {
      assert k * step >= 0;
      QuotientIsUnique(v - lo, step, k, 0);
    }
  }

  lemma SingleSteps(lo: int, hi: int, v: int)
    ensures OnSteps(v, lo, hi, 1) <==> lo <= v <= hi
  {
    if lo <= v {
      var k: nat := v - lo;
      assert v == lo + k * 1;
    }
  }

  predicate Between(lo: int, v: int, hi: int) {
    lo <= v <= hi
  }

  /** A field is accepted as exactly the values in `denoted`. */
  ghost predicate Accepts(token: string, b: Bounds, toInt: IntReader, denoted: iset<int>) {
    var r := ParseField(token, b, toInt);
    r.Ok? && forall v :: v in r.value <==> v in denoted
  }

  ghost predicate Rejects(token: string, b: Bounds, toInt: IntReader) {
    ParseField(token, b, toInt) == ValueError
  }

  /** `*`: every value. */
  lemma StarMeans(b: Bounds, toInt: IntReader)
    ensures Accepts("*", b, toInt, iset v | Between(b.lo, v, b.hi))
  {
    forall v ensures v in Range(b.lo, b.hi, 1) <==> b.lo <= v <= b.hi {
      RangeMeans(b.lo, b.hi, 1, v);
      SingleSteps(b.lo, b.hi, v);
    }
  }

  /** `base/n`: steps of a positive `n` through every value, through a range within bounds, or from
      a value to the upper bound. */
  lemma StepMeans(base: string, n: string, b: Bounds, toInt: IntReader, step: int)
    requires '/' !in base && toInt(n) == Some(step)
    ensures var token := base + ['/'] + n;
      && (step <= 0 ==> Rejects(token, b, toInt))
      && (step > 0 && base == "*" ==> Accepts(token, b, toInt, iset v | OnSteps(v, b.lo, b.hi, step)))
      && (step > 0 && base != "*" && '-' !in base ==>
            match toInt(base)
            case None => Rejects(token, b, toInt)
            case Some(lo) =>
              if b.lo <= lo <= b.hi then Accepts(token, b, toInt, iset v | OnSteps(v, lo, b.hi, step))
              else Rejects(token, b, toInt))
  {
    var token := base + ['/'] + n;
    SplitsAtFirst(base, '/', n);
    NotStar(base, '/', n);
    assert '-' !in "*";
    hide Range, SplitFirst, InBounds, OnSteps;
    if step > 0 {
      forall lo, v ensures v in Range(lo, b.hi, step) <==> OnSteps(v, lo, b.hi, step) {
        RangeMeans(lo, b.hi, step, v);
      }
    }
  }

  lemma NotStar(a: string, c: char, b: string)
    requires c != '*'
    ensures a + [c] + b != "*"
  {
    if a == [] {
      assert (a + [c] + b)[0] == c;
    }
  }

  /** `x-y/n` and `x-y`: the range from `x` to `y`, which has to lie within bounds. */
  lemma SteppedRangeMeans(x: string, y: string, n: string, b: Bounds, toInt: IntReader, lo: int, hi: int, step: int)
    requires '-' !in x && '/' !in x && '/' !in y
    requires toInt(x) == Some(lo) && toInt(y) == Some(hi) && toInt(n) == Some(step)
    ensures var token := x + ['-'] + y + ['/'] + n;
      if step > 0 && b.lo <= lo <= hi <= b.hi then Accepts(token, b, toInt, iset v | OnSteps(v, lo, hi, step))
      else Rejects(token, b, toInt)
  {
    var base := x + ['-'] + y;
    SplitsAtFirst(x, '-', y);
    SplitsAtFirst(base, '/', n);
    NotStar(base, '/', n);
    NotStar(x, '-', y);
    hide Range, SplitFirst, InBounds, OnSteps;
    if step > 0 {
      forall v ensures v in Range(lo, hi, step) <==> OnSteps(v, lo, hi, step) {
        RangeMeans(lo, hi, step, v);
      }
    }
  }

  lemma PlainRangeMeans(x: string, y: string, b: Bounds, toInt: IntReader, lo: int, hi: int)
    requires '-' !in x && '/' !in x && '/' !in y && ',' !in x && ',' !in y
    requires toInt(x) == Some(lo) && toInt(y) == Some(hi)
    ensures var token := x + ['-'] + y;
      if b.lo <= lo <= hi <= b.hi then Accepts(token, b, toInt, iset v | Between(lo, v, hi))
      else Rejects(token, b, toInt)
  {
    SplitsAtFirst(x, '-', y);
    NotStar(x, '-', y);
    hide Range, SplitFirst, InBounds;
    forall v ensures v in Range(lo, hi, 1) <==> lo <= v <= hi {
      RangeMeans(lo, hi, 1, v);
      SingleSteps(lo, hi, v);
    }
  }

  /** `x,y,...`: the listed values, all of which have to be integers within bounds. */
  lemma ListMeans(token: string, b: Bounds, toInt: IntReader)
    requires ',' in token && '/' !in token
    ensures var parts := SplitAll(token, ',');
      if forall p :: p in parts ==> toInt(p).Some? && b.lo <= toInt(p).value <= b.hi then
        Accepts(token, b, toInt, iset v | exists p :: p in parts && toInt(p) == Some(v))
      else Rejects(token, b, toInt)
  {
    var parts := SplitAll(token, ',');
    ReadAllMeans(parts, toInt);
    if ReadAll(parts, toInt).Ok? {
      SortIntsSorts(ReadAll(parts, toInt).value);
    }
    assert token != "*" by { assert ',' !in "*"; }
    hide SplitAll, ReadAll, SortInts;
  }

  lemma {:induction false} ReadAllMeans(parts: seq<string>, toInt: IntReader)
    ensures ReadAll(parts, toInt).Ok? <==> forall p :: p in parts ==> toInt(p).Some?
    ensures ReadAll(parts, toInt).Ok? ==>
      forall v :: v in ReadAll(parts, toInt).value <==> exists p :: p in parts && toInt(p) == Some(v)
    decreases |parts|
  {
    if parts != [] {
      ReadAllMeans(parts[1..], toInt);
      assert forall p :: p in parts <==> p == parts[0] || p in parts[1..];
    }
  }

  /** A single value, which has to be within bounds. */
  lemma ValueMeans(token: string, b: Bounds, toInt: IntReader)
    requires token != "*" && '/' !in token && ',' !in token && '-' !in token
    ensures match toInt(token)
      case None => Rejects(token, b, toInt)
      case Some(n) =>
        if b.lo <= n <= b.hi then Accepts(token, b, toInt, iset{n}) else Rejects(token, b, toInt)
  {
  }

  /** A step or a range end that is no integer is an error. */
  lemma BadNumbers(x: string, y: string, n: string, b: Bounds, toInt: IntReader)
    requires '-' !in x && '/' !in x && '/' !in y && ',' !in x && ',' !in y
    ensures toInt(n).None? ==> Rejects(x + ['/'] + n, b, toInt)
    ensures toInt(x).None? || toInt(y).None? ==> Rejects(x + ['-'] + y, b, toInt)
    ensures toInt(x).None? || toInt(y).None? || toInt(n).None? ==> Rejects(x + ['-'] + y + ['/'] + n, b, toInt)
  {
    var base := x + ['-'] + y;
    SplitsAtFirst(x, '-', y);
    SplitsAtFirst(x, '/', n);
    SplitsAtFirst(base, '/', n);
    NotStar(x, '/', n);
    NotStar(x, '-', y);
    NotStar(base, '/', n);
    assert '-' in base && base != "*";
    hide Range, SplitFirst, InBounds;
  }

  // ---- the five fields ----

  lemma {:induction false} WordsFromWord(w: string, word: string)
    requires forall i :: 0 <= i < |w| ==> !IsSpace(w[i])
    ensures WordsFrom(w, word) == if word + w == [] then [] else [word + w]
    decreases |w|
  {
    if w == [] {
      assert word + w == word;
    } else {
      WordsFromWord(w[1..], word + [w[0]]);
      assert word + [w[0]] + w[1..] == word + w;
    }
  }

  lemma {:induction false} WordsFromAppend(a: string, word: string, c: char, b: string)
    requires IsSpace(c)
    ensures WordsFrom(a + [c] + b, word) == WordsFrom(a, word) + Words(b)
    decreases |a|
  {
    var s := a + [c] + b;
    if a == [] {
      assert s[0] == c && s[1..] == b;
    } else {
      assert s[0] == a[0] && s[1..] == a[1..] + [c] + b;
      WordsFromAppend(a[1..], if IsSpace(a[0]) then [] else word + [a[0]], c, b);
    }
  }

  /** Words are what whitespace separates. */
  lemma WordsMean(w: string, c: char, rest: string)
    requires w != [] && (forall i :: 0 <= i < |w| ==> !IsSpace(w[i])) && IsSpace(c)
    ensures Words(w) == [w] && Words(w + [c] + rest) == [w] + Words(rest)
    ensures Words([c] + rest) == Words(rest) && Words([]) == []
  {
    WordsFromWord(w, []);
    assert [] + w == w;
    WordsFromAppend(w, [], c, rest);
    WordsFromAppend([], [], c, rest);
    assert [] + [c] + rest == [c] + rest && WordsFrom([], []) + Words(rest) == Words(rest);
  }

  /** Minute, hour, day of month, month and day of week come from the five words in this order, each
      within its own bounds; any other number of words is an error, and so is any bad field. */
  lemma FieldsInOrder(expr: string, toInt: IntReader)
    ensures var r, words := ParseCron(expr, toInt), Words(expr);
      && (r.Ok? <==>
            && |words| == 5
            && ParseField(words[0], Bounds(0, 59), toInt).Ok? && ParseField(words[1], Bounds(0, 23), toInt).Ok?
            && ParseField(words[2], Bounds(1, 31), toInt).Ok? && ParseField(words[3], Bounds(1, 12), toInt).Ok?
            && ParseField(words[4], Bounds(0, 6), toInt).Ok?)
      && (r.Ok? ==>
            && ParseField(words[0], Bounds(0, 59), toInt) == Ok(r.value.minute)
            && ParseField(words[1], Bounds(0, 23), toInt) == Ok(r.value.hour)
            && ParseField(words[2], Bounds(1, 31), toInt) == Ok(r.value.dayOfMonth)
            && ParseField(words[3], Bounds(1, 12), toInt) == Ok(r.value.month)
            && ParseField(words[4], Bounds(0, 6), toInt) == Ok(r.value.dayOfWeek))
  {
    hide ParseField, Words;
  }
}

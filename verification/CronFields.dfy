/** Cron expressions (scheduler.py).  `int()`, `strip()` and `split()` on white space are parameters. */
module CronFields {
  import opened Common

  datatype Text = Text(strip: string -> string, toInt: string -> Option<int>, words: string -> seq<string>)

  // ---------------------------------------------------------------- splitting

  function IndexOf(s: string, c: char): (i: nat)
    ensures i <= |s|
    ensures i < |s| <==> c in s
    ensures i < |s| ==> s[i] == c
  {
    if s == "" || s[0] == c then 0 else 1 + IndexOf(s[1..], c)
  }

  /** `s.split(c)`. */
  function Split(s: string, c: char): (parts: seq<string>)
    ensures |parts| >= 1
    decreases |s|
  {
    var i := IndexOf(s, c);
    if i == |s| then [s] else [s[..i]] + Split(s[i + 1..], c)
  }

  // ---------------------------------------------------------------- one field

  datatype Range = Range(start: int, end: int, step: int)

  /** `start`, `start + step`, `start + 2 * step`, ... */
  predicate Hits(v: int, start: int, step: int)
    requires step > 0
    decreases v - start
  {
    v == start || (v > start && Hits(v - step, start, step))
  }

  predicate InRange(r: Range, v: int)
    requires r.step > 0
  {
    r.start <= v <= r.end && Hits(v, r.start, r.step)
  }

  lemma {:induction false} HitsExact(v: int, start: int, step: int)
    requires step > 0
    ensures Hits(v, start, step) <==> v >= start && (v - start) % step == 0
    decreases v - start
  {
    if v >= start + step {
      HitsExact(v - step, start, step);
      OneStepLess(v - start, step);
    } else if v >= start {
      QuotientUnique(v - start, step, 0, v - start);
    }
  }

  lemma OneStepLess(d: int, step: int)
    requires step > 0
    ensures d % step == (d - step) % step
  {
    var q, r := d / step, d % step;
    assert d == step * q + r;
    assert d - step == step * (q - 1) + r;
    QuotientUnique(d - step, step, q - 1, r);
  }

  predicate IsRange(r: Range) {
    r.step > 0
  }

  /** The range of `a`, `a-b` or `*`. */
  function BaseRange(text: Text, base: string, low: int, high: int, step: int): Option<Range> {
    if base == "*" || base == "" then Some(Range(low, high, step))
    else if '-' in base then
      var i := IndexOf(base, '-');
      var start, end := text.toInt(base[..i]), text.toInt(base[i + 1..]);
      if start.Some? && end.Some? then Some(Range(start.value, end.value, step)) else None
    else
      var only := text.toInt(base);
      if only.Some? then Some(Range(only.value, only.value, step)) else None
  }

  /** One comma-separated part; None where `int()` raises. */
  function PartRange(text: Text, part: string, low: int, high: int): (r: Option<Range>)
    ensures r.Some? ==> IsRange(r.value)
  {
    if '/' in part then
      var i := IndexOf(part, '/');
      var step := text.toInt(part[i + 1..]);
      if step.Some? then BaseRange(text, part[..i], low, high, Max(1, step.value)) else None
    else BaseRange(text, part, low, high, 1)
  }

  predicate AllParse(text: Text, parts: seq<string>, low: int, high: int) {
    forall i :: 0 <= i < |parts| ==> PartRange(text, parts[i], low, high).Some?
  }

  predicate InPart(text: Text, part: string, low: int, high: int, v: int) {
    PartRange(text, part, low, high).Some? && InRange(PartRange(text, part, low, high).value, v)
  }

  predicate InSomePart(text: Text, parts: seq<string>, low: int, high: int, v: int) {
    exists i :: 0 <= i < |parts| && InPart(text, parts[i], low, high, v)
  }

  function FieldValues(text: Text, parts: seq<string>, low: int, high: int): set<int> {
    set v | low <= v <= high && InSomePart(text, parts, low, high, v)
  }

  /** What a field means: None is every value; otherwise the values of its parts that are in range. */
  function FieldMeaning(text: Text, spec: string, low: int, high: int): Option<Option<set<int>>> {
    var stripped := text.strip(spec);
    if stripped == "*" then Some(None)
    else
      var parts := Split(stripped, ',');
      if AllParse(text, parts, low, high)
      then Some(Some(FieldValues(text, parts, low, high)))
      else None
  }

  method ParseField(text: Text, spec: string, low: int, high: int) returns (r: Option<Option<set<int>>>)
    ensures r == FieldMeaning(text, spec, low, high)
  {
    var stripped := text.strip(spec);
    if stripped == "*" { return Some(None); }
    var parts := Split(stripped, ',');
    var values: set<int> := {};
    for i := 0 to |parts|
      invariant AllParse(text, parts[..i], low, high)
      invariant forall v :: v in values <==> InSomePart(text, parts[..i], low, high, v)
    {
      assert parts[..i + 1] == parts[..i] + [parts[i]];
      var range := PartRange(text, parts[i], low, high);
      if range.None? {
        assert !AllParse(text, parts, low, high);
        return None;
      }
      var more := Members(range.value);
      OneMorePart(text, parts[..i], parts[i], low, high);
      values := values + more;
    }
    assert parts[..|parts|] == parts;
    var kept := set v | v in values && low <= v <= high;
    assert kept == FieldValues(text, parts, low, high);
    r := Some(Some(kept));
  }

  lemma OneMorePart(text: Text, parts: seq<string>, part: string, low: int, high: int)
    ensures forall v :: InSomePart(text, parts + [part], low, high, v) <==>
                        InSomePart(text, parts, low, high, v) || InPart(text, part, low, high, v)
  {
    forall v
      ensures InSomePart(text, parts + [part], low, high, v) <==>
              InSomePart(text, parts, low, high, v) || InPart(text, part, low, high, v)
    {
      var all := parts + [part];
      assert all[|parts|] == part;
      if InSomePart(text, parts, low, high, v) {
        var i :| 0 <= i < |parts| && InPart(text, parts[i], low, high, v);
        assert InPart(text, all[i], low, high, v);
      }
      if InPart(text, part, low, high, v) { assert InPart(text, all[|parts|], low, high, v); }
    }
  }

  /** The generator `v for v in range(start, end + 1) if (v - start) % step == 0`. */
  method Members(r: Range) returns (values: set<int>)
    requires IsRange(r)
    ensures forall v :: v in values <==> InRange(r, v)
  {
    values := {};
    var v := r.start;
    while v < r.end + 1
      invariant r.start <= v && (v <= r.end + 1 || v == r.start)
      invariant forall u :: u in values <==> InRange(r, u) && u < v
    {
      HitsExact(v, r.start, r.step);
      if (v - r.start) % r.step == 0 {
        values := values + {v};
      }
      v := v + 1;
    }
  }

  // ---------------------------------------------------------------- the grammar of a field

  function Glued(parts: seq<string>, c: char): string
    requires parts != []
  {
    if |parts| == 1 then parts[0] else parts[0] + [c] + Glued(parts[1..], c)
  }

  /** `s` is these parts with a `c` between each two, and no part holds one. */
  ghost predicate IsSplit(s: string, c: char, parts: seq<string>) {
    parts != [] && Glued(parts, c) == s && forall i :: 0 <= i < |parts| ==> c !in parts[i]
  }

  /** `*` and nothing are the whole range, `n` is itself, `a-b` is from `a` to `b`. */
  ghost predicate Spans(text: Text, base: string, low: int, high: int, start: int, end: int) {
    || ((base == "*" || base == "") && start == low && end == high)
    || (base != "*" && base != "" && '-' !in base && text.toInt(base) == Some(start) && end == start)
    || (exists a, b: string :: base == a + "-" + b && '-' !in a
                               && text.toInt(a) == Some(start) && text.toInt(b) == Some(end))
  }

  /** A span, perhaps with `/` and a step after it; a step below 1 counts as 1. */
  ghost predicate Denotes(text: Text, part: string, low: int, high: int, start: int, end: int, step: int) {
    || ('/' !in part && Spans(text, part, low, high, start, end) && step == 1)
    || (exists base, number: string, n ::
          && part == base + "/" + number && '/' !in base && Spans(text, base, low, high, start, end)
          && text.toInt(number) == Some(n) && step == (if n < 1 then 1 else n))
  }

  ghost predicate PartReads(text: Text, part: string, low: int, high: int) {
    exists start, end, step :: Denotes(text, part, low, high, start, end, step)
  }

  ghost predicate PartSelects(text: Text, part: string, low: int, high: int, v: int) {
    exists start, end, step ::
      Denotes(text, part, low, high, start, end, step) && step >= 1 && start <= v <= end && Hits(v, start, step)
  }

  /** Every number of the field can be read. */
  ghost predicate FieldReads(text: Text, spec: string, low: int, high: int) {
    || text.strip(spec) == "*"
    || (forall part :: part in Split(text.strip(spec), ',') ==> PartReads(text, part, low, high))
  }

  /** The field lets this value through. */
  ghost predicate FieldSelects(text: Text, spec: string, low: int, high: int, v: int) {
    || text.strip(spec) == "*"
    || (low <= v <= high
        && exists part :: part in Split(text.strip(spec), ',') && PartSelects(text, part, low, high, v))
  }

  lemma {:induction false} IndexInConcat(a: string, c: char, b: string)
    requires c !in a
    ensures IndexOf(a + [c] + b, c) == |a|
  {
    if a == "" {
      assert a + [c] + b == [c] + b;
    } else {
      assert (a + [c] + b)[1..] == a[1..] + [c] + b;
      IndexInConcat(a[1..], c, b);
    }
  }

  lemma {:induction false} NotBefore(s: string, c: char)
    ensures c !in s[..IndexOf(s, c)]
  {
    if s != "" && s[0] != c {
      NotBefore(s[1..], c);
      assert s[..IndexOf(s, c)] == [s[0]] + s[1..][..IndexOf(s[1..], c)];
    }
  }

  lemma {:induction false} SplitGlues(s: string, c: char)
    ensures IsSplit(s, c, Split(s, c))
    decreases |s|
  {
    var i := IndexOf(s, c);
    NotBefore(s, c);
    if i < |s| {
      SplitGlues(s[i + 1..], c);
      assert s == s[..i] + [c] + s[i + 1..];
      assert Split(s, c)[1..] == Split(s[i + 1..], c);
    } else {
      assert s[..i] == s;
    }
  }

  lemma SplitFirst(first: string, c: char, rest: string)
    requires c !in first
    ensures Split(first + [c] + rest, c) == [first] + Split(rest, c)
  {
    IndexInConcat(first, c, rest);
    var s := first + [c] + rest;
    assert s[..|first|] == first && s[|first| + 1..] == rest;
  }

  lemma {:induction false} GluedSplits(parts: seq<string>, c: char)
    requires parts != [] && forall i :: 0 <= i < |parts| ==> c !in parts[i]
    ensures Split(Glued(parts, c), c) == parts
  {
    if |parts| > 1 {
      GluedSplits(parts[1..], c);
      SplitFirst(parts[0], c, Glued(parts[1..], c));
    }
  }

  /** There is exactly one way to take a text apart. */
  lemma SplitExact(s: string, c: char, parts: seq<string>)
    ensures IsSplit(s, c, parts) <==> parts == Split(s, c)
  {
    SplitGlues(s, c);
    if IsSplit(s, c, parts) { GluedSplits(parts, c); }
  }

  lemma SpansExact(text: Text, base: string, low: int, high: int, start: int, end: int, step: int)
    ensures BaseRange(text, base, low, high, step) == Some(Range(start, end, step)) <==>
            Spans(text, base, low, high, start, end)
  {
    var i := IndexOf(base, '-');
    NotBefore(base, '-');
    if i < |base| { assert base == base[..i] + "-" + base[i + 1..]; }
    forall a, b: string | base == a + "-" + b && '-' !in a ensures a == base[..i] && b == base[i + 1..] {
      IndexInConcat(a, '-', b);
      assert base == a + ['-'] + b;
    }
  }

  lemma DenotesExact(text: Text, part: string, low: int, high: int, start: int, end: int, step: int)
    ensures PartRange(text, part, low, high) == Some(Range(start, end, step)) <==>
            Denotes(text, part, low, high, start, end, step)
  {
    var i := IndexOf(part, '/');
    NotBefore(part, '/');
    SpansExact(text, part, low, high, start, end, step);
    if i < |part| {
      assert part == part[..i] + "/" + part[i + 1..];
      SpansExact(text, part[..i], low, high, start, end, step);
    }
    forall base, number: string | part == base + "/" + number && '/' !in base
      ensures base == part[..i] && number == part[i + 1..] {
      IndexInConcat(base, '/', number);
      assert part == base + ['/'] + number;
    }
  }

  lemma PartExact(text: Text, part: string, low: int, high: int)
    ensures PartRange(text, part, low, high).Some? <==> PartReads(text, part, low, high)
    ensures forall v :: InPart(text, part, low, high, v) <==> PartSelects(text, part, low, high, v)
  {
    forall start, end, step
      ensures PartRange(text, part, low, high) == Some(Range(start, end, step)) <==>
              Denotes(text, part, low, high, start, end, step) {
      DenotesExact(text, part, low, high, start, end, step);
    }
    match PartRange(text, part, low, high)
    case Some(r) => assert Denotes(text, part, low, high, r.start, r.end, r.step);
    case None =>
  }

  /** A field that can be read lets through exactly the values it selects, and one that cannot raises. */
  lemma FieldExact(text: Text, spec: string, low: int, high: int)
    ensures FieldMeaning(text, spec, low, high).Some? <==> FieldReads(text, spec, low, high)
    ensures FieldMeaning(text, spec, low, high).Some? ==>
              forall v :: FieldMeaning(text, spec, low, high).value.None?
                          || v in FieldMeaning(text, spec, low, high).value.value
                          <==> FieldSelects(text, spec, low, high, v)
  {
    var parts := Split(text.strip(spec), ',');
    forall part | part in parts
      ensures PartRange(text, part, low, high).Some? <==> PartReads(text, part, low, high)
      ensures forall v :: InPart(text, part, low, high, v) <==> PartSelects(text, part, low, high, v) {
      PartExact(text, part, low, high);
    }
  }

  // ---------------------------------------------------------------- printing a set and reading it back

  function Printed(xs: seq<nat>): seq<string> {
    seq(|xs|, i requires 0 <= i < |xs| => Decimal(xs[i]))
  }

  /** `int()` reads decimals, and `strip()` leaves digits and commas alone. */
  ghost predicate Reads(text: Text) {
    && (forall n: nat :: text.toInt(Decimal(n)) == Some(n))
    && (forall s: string :: OnlyDigitsAndCommas(s) ==> text.strip(s) == s)
  }

  predicate OnlyDigitsAndCommas(s: string) {
    forall i :: 0 <= i < |s| ==> IsDigit(s[i]) || s[i] == ','
  }

  lemma {:induction false} PrintedIsPlain(xs: seq<nat>)
    requires xs != []
    ensures OnlyDigitsAndCommas(Glued(Printed(xs), ',')) && IsDigit(Glued(Printed(xs), ',')[0])
  {
    if |xs| > 1 {
      PrintedIsPlain(xs[1..]);
      assert Printed(xs)[1..] == Printed(xs[1..]);
    }
  }

  lemma PrintedValues(text: Text, xs: seq<nat>, low: int, high: int)
    requires Reads(text) && forall i :: 0 <= i < |xs| ==> low <= xs[i] <= high
    ensures AllParse(text, Printed(xs), low, high)
    ensures forall v :: v in FieldValues(text, Printed(xs), low, high) <==> exists i :: 0 <= i < |xs| && xs[i] == v
  {
    var parts := Printed(xs);
    forall v | exists i :: 0 <= i < |xs| && xs[i] == v ensures InSomePart(text, parts, low, high, v) {
      var i :| 0 <= i < |xs| && xs[i] == v;
      assert InPart(text, parts[i], low, high, v);
    }
  }

  lemma PrintedSplits(text: Text, xs: seq<nat>)
    requires Reads(text) && xs != []
    ensures var spec := Glued(Printed(xs), ',');
            text.strip(spec) == spec && spec != "*" && Split(spec, ',') == Printed(xs)
  {
    GluedSplits(Printed(xs), ',');
    PrintedIsPlain(xs);
  }

  /** Reading back the comma-joined decimals of any non-empty set in range gives that set. */
  lemma FieldRoundTrip(text: Text, xs: seq<nat>, low: int, high: int)
    requires Reads(text) && xs != [] && forall i :: 0 <= i < |xs| ==> low <= xs[i] <= high
    ensures FieldMeaning(text, Glued(Printed(xs), ','), low, high) ==
            Some(Some(set i | 0 <= i < |xs| :: xs[i]))
  {
    PrintedSplits(text, xs);
    PrintedValues(text, xs, low, high);
    assert FieldValues(text, Printed(xs), low, high) == set i | 0 <= i < |xs| :: xs[i];
  }
}

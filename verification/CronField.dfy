/** The parser for one field of a five-field cron schedule. */
module CronField {
  import opened Text

  /** A field is either "*" or an explicit set of allowed values. */
  datatype Matcher = Any | Values(values: set<int>)

  predicate Contains(m: Matcher, value: int) {
    m.Any? || value in m.values
  }

  /** What one comma segment asks for: start, start + step, ... up to end. */
  datatype Bounds = Bounds(start: int, end: int, step: int)

  /** The limits of the five calls that parse an expression. */
  predicate Limits(lo: int, hi: int, sunday: bool) {
    0 <= lo <= hi <= 59 && (sunday ==> lo == 0 && hi == 7)
  }

  function Normalize(value: int, sunday: bool): int {
    if sunday && value == 7 then 0 else value
  }

  /** Start and end of the part before the step, once white space is gone. */
  function BaseBounds(base: string, step: int, lo: int, hi: int, sunday: bool): Option<(int, int)> {
    if base == "" || base == "*" then Some((lo, hi))
    else if '-' in base then
      var i := IndexOf(base, '-');
      var a, b := ParseInt64(Trim(base[..i])), ParseInt64(Trim(base[i + 1..]));
      if a.None? || b.None? then None else Some((Normalize(a.value, sunday), Normalize(b.value, sunday)))
    else
      var a := ParseInt64(base);
      if a.None? then None
      else
        var start := Normalize(a.value, sunday);
        Some((start, if step > 1 then hi else start))
  }

  /** Base text and step of a segment; `None` when the step is not a positive number. */
  function BaseAndStep(segment: string): (r: Option<(string, int)>)
    ensures r.Some? ==> 1 <= r.value.1 <= MAX_INT64
  {
    if '/' in segment then
      var i := IndexOf(segment, '/');
      var step := ParseInt64(Trim(segment[i + 1..]));
      if step.None? || step.value <= 0 then None else Some((Trim(Trim(segment[..i])), step.value))
    else Some((Trim(segment), 1))
  }

  function SegmentBounds(segment: string, lo: int, hi: int, sunday: bool): (r: Option<Bounds>)
    ensures r.Some? ==> lo <= r.value.start <= r.value.end <= hi && 1 <= r.value.step <= MAX_INT64
    ensures r.Some? && sunday && lo == 0 ==> r.value.start != 7
  {
    var parts := BaseAndStep(segment);
    if parts.None? then None
    else
      var (base, step) := parts.value;
      var range := BaseBounds(base, step, lo, hi, sunday);
      if range.None? then None
      else
        var (start, end) := range.value;
        if start < lo || start > hi || end < lo || end > hi || end < start then None
        else Some(Bounds(start, end, step))
  }

  /** start, start + step, ... up to end. */
  function Upward(v: int, end: int, step: int): set<int>
    requires step >= 1
    decreases end - v
  {
    if v > end then {} else {v} + Upward(v + step, end, step)
  }

  /** v, v - drop, ... down to zero. */
  function Downward(v: int, drop: int): set<int>
    requires drop >= 1
    decreases v
  {
    if v < 0 then {} else {v} + Downward(v - drop, drop)
  }

  lemma {:induction false} UpwardMembers(start: int, end: int, step: int, v: int)
    requires step >= 1
    ensures v in Upward(start, end, step) <==> v <= end && exists k: nat :: v == start + k * step
    decreases end - start
  {
    if start <= end {
      UpwardMembers(start + step, end, step, v);
      if v <= end && exists k: nat :: v == start + k * step {
        var k: nat :| v == start + k * step;
        if k > 0 {
          assert v == (start + step) + (k - 1) * step;
        }
      }
      if v in Upward(start + step, end, step) {
        var k: nat :| v == (start + step) + k * step;
        assert v == start + (k + 1) * step;
      }
      if v == start {
        assert v == start + 0 * step;
      }
    } else {
      forall k: nat ensures v <= end ==> v != start + k * step {
        assert k * step >= 0;
      }
    }
  }

  lemma {:induction false} DownwardBound(v: int, drop: int)
    requires drop >= 1
    ensures forall x :: x in Downward(v, drop) ==> 0 <= x <= v
    decreases v
  {
    if v >= 0 {
      DownwardBound(v - drop, drop);
    }
  }

  /** Addition on 64-bit integers. */
  function Add64(a: int, b: int): (r: int)
    requires MIN_INT64 <= a <= MAX_INT64 && 0 <= b <= MAX_INT64
    ensures MIN_INT64 <= r <= MAX_INT64
  {
    if a + b <= MAX_INT64 then a + b else a + b - 2 * (MAX_INT64 + 1)
  }

  /** Iterations left in the loop that adds `step` to `value`. */
  function LoopMeasure(value: int, end: int, step: int): int {
    if value > end then 0
    else if step <= MAX_INT64 - 59 then end - value + 1
    else if value >= 0 then 2 * value + 3
    else if value + step > end then 1
    else if value + step >= 0 then 2 * (value + step) + 4
    else 2
  }

  predicate LoopState(value: int, end: int, step: int) {
    MIN_INT64 <= value <= MAX_INT64 && 0 <= end <= 59 && 1 <= step <= MAX_INT64
  }

  lemma LoopProgress(value: int, end: int, step: int)
    requires LoopState(value, end, step) && value <= end
    ensures 0 <= LoopMeasure(Add64(value, step), end, step) < LoopMeasure(value, end, step)
  {
  }

  /** Every counter value the 64-bit loop visits. */
  function Visited(value: int, end: int, step: int): set<int>
    requires LoopState(value, end, step)
    decreases LoopMeasure(value, end, step)
  {
    if value > end then {}
    else
      LoopProgress(value, end, step);
      {value} + Visited(Add64(value, step), end, step)
  }

  /** The counter drops by this much over two additions that overflow. */
  function TwoStepDrop(step: int): int {
    2 * (MAX_INT64 + 1 - step)
  }

  function NonNegative(s: set<int>): set<int> {
    set v | v in s && v >= 0
  }

  lemma {:induction false} VisitedClimbs(value: int, end: int, step: int)
    requires LoopState(value, end, step) && value >= 0 && end + step <= MAX_INT64
    ensures Visited(value, end, step) == Upward(value, end, step)
    decreases end - value
  {
    if value <= end {
      LoopProgress(value, end, step);
      VisitedClimbs(value + step, end, step);
    }
  }

  lemma {:induction false} VisitedWraps(value: int, end: int, step: int)
    requires LoopState(value, end, step) && 0 <= value <= end && end + step > MAX_INT64
    ensures NonNegative(Visited(value, end, step)) == {value} + Downward(value - TwoStepDrop(step), TwoStepDrop(step))
    decreases value
  {
    LoopProgress(value, end, step);
    var low := Add64(value, step);
    var next := value - TwoStepDrop(step);
    assert Visited(value, end, step) == {value} + Visited(low, end, step);
    if low <= end {
      LoopProgress(low, end, step);
      assert Visited(low, end, step) == {low} + Visited(next, end, step);
      if next >= 0 {
        VisitedWraps(next, end, step);
      } else {
        LoopProgress(next, end, step);
        assert Visited(next, end, step) == {next} + Visited(next + step, end, step) == {next};
      }
    }
  }

  /** The values the loop visits from a legal start: the progression, and whatever the counter
      reaches again after wrapping around. */
  lemma VisitedFromStart(start: int, end: int, step: int)
    requires 0 <= start <= end <= 59 && 1 <= step <= MAX_INT64
    ensures NonNegative(Visited(start, end, step))
         == Upward(start, end, step) + Downward(start - TwoStepDrop(step), TwoStepDrop(step))
  {
    if end + step <= MAX_INT64 {
      VisitedClimbs(start, end, step);
      UpwardFrom(start, end, step);
    } else {
      VisitedWraps(start, end, step);
      assert Upward(start, end, step) == {start};
    }
  }

  lemma {:induction false} UpwardFrom(start: int, end: int, step: int)
    requires step >= 1
    ensures forall x :: x in Upward(start, end, step) ==> start <= x <= end
    decreases end - start
  {
    if start <= end {
      UpwardFrom(start + step, end, step);
    }
  }

  /** What reaches the map: each visited value folded, then kept when it is in range. */
  function Folded(s: set<int>, lo: int, hi: int, sunday: bool): set<int> {
    set v | v in s && lo <= Normalize(v, sunday) <= hi :: Normalize(v, sunday)
  }

  /** The values of a segment as the schedule syntax means them. */
  function Meaning(b: Bounds, lo: int, hi: int, sunday: bool): set<int>
    requires b.step >= 1
  {
    Folded(Upward(b.start, b.end, b.step), lo, hi, sunday)
  }

  /** The values of a segment as the code computes them. */
  function SegmentValues(b: Bounds, lo: int, hi: int, sunday: bool): set<int>
    requires 0 <= b.start <= b.end <= 59 && 1 <= b.step <= MAX_INT64
  {
    Folded(Visited(b.start, b.end, b.step), lo, hi, sunday)
  }

  lemma FoldedUnion(s: set<int>, t: set<int>, lo: int, hi: int, sunday: bool)
    requires 0 <= lo
    ensures Folded(s + t, lo, hi, sunday) == Folded(s, lo, hi, sunday) + Folded(t, lo, hi, sunday)
    ensures Folded(NonNegative(s), lo, hi, sunday) == Folded(s, lo, hi, sunday)
  {
    forall v | v in s && lo <= Normalize(v, sunday) ensures v in NonNegative(s) {
    }
  }

  /** The code adds the values of the progression and those the wrapped counter meets again. */
  lemma SegmentValuesSplit(b: Bounds, lo: int, hi: int, sunday: bool)
    requires 0 <= lo && 0 <= b.start <= b.end <= 59 && 1 <= b.step <= MAX_INT64
    ensures SegmentValues(b, lo, hi, sunday) == Meaning(b, lo, hi, sunday)
      + Folded(Downward(b.start - TwoStepDrop(b.step), TwoStepDrop(b.step)), lo, hi, sunday)
  {
    var drop := TwoStepDrop(b.step);
    VisitedFromStart(b.start, b.end, b.step);
    FoldedUnion(Visited(b.start, b.end, b.step), {}, lo, hi, sunday);
    FoldedUnion(Upward(b.start, b.end, b.step), Downward(b.start - drop, drop), lo, hi, sunday);
  }

  /** The code computes the intended values unless the step is so close to the largest 64-bit
      integer that the wrapped counter comes back into range below the start. */
  lemma SegmentValuesExact(b: Bounds, lo: int, hi: int, sunday: bool)
    requires Limits(lo, hi, sunday) && lo <= b.start <= b.end <= hi && 1 <= b.step <= MAX_INT64
    requires sunday ==> b.start != 7
    ensures SegmentValues(b, lo, hi, sunday) == Meaning(b, lo, hi, sunday)
       <==> b.start - TwoStepDrop(b.step) < lo
  {
    var drop := TwoStepDrop(b.step);
    var back := b.start - drop;
    SegmentValuesSplit(b, lo, hi, sunday);
    DownwardBound(back, drop);
    if lo <= back {
      assert Upward(b.start, b.end, b.step) == {b.start};
      assert Meaning(b, lo, hi, sunday) <= {b.start};
      assert back in Downward(back, drop) && back in Folded(Downward(back, drop), lo, hi, sunday);
    }
  }

  /** Abstract syntax of a segment: "*", a value or a range, with an optional step. */
  datatype Base = Full | One(value: nat) | Span(first: nat, last: nat)
  datatype Segment = Segment(base: Base, step: Option<nat>)

  function PrintBase(b: Base): string {
    match b
    case Full => "*"
    case One(v) => NatToString(v)
    case Span(x, y) => NatToString(x) + ['-'] + NatToString(y)
  }

  function Print(s: Segment): string {
    match s.step
    case None => PrintBase(s.base)
    case Some(n) => PrintBase(s.base) + ['/'] + NatToString(n)
  }

  /** The bounds a segment stands for. A plain value with a step above one runs to the limit. */
  function Intended(s: Segment, lo: int, hi: int, sunday: bool): Bounds {
    var step := if s.step.None? then 1 else s.step.value;
    match s.base
    case Full => Bounds(lo, hi, step)
    case One(v) => var start := Normalize(v, sunday); Bounds(start, if step > 1 then hi else start, step)
    case Span(x, y) => Bounds(Normalize(x, sunday), Normalize(y, sunday), step)
  }

  predicate WellFormed(s: Segment, lo: int, hi: int, sunday: bool) {
    var b := Intended(s, lo, hi, sunday);
    lo <= b.start <= b.end <= hi && 1 <= b.step <= MAX_INT64
  }

  lemma DigitText(n: nat)
    requires n <= MAX_INT64
    ensures ParseInt64(NatToString(n)) == Some(n) && Trim(NatToString(n)) == NatToString(n)
    ensures forall c :: c in NatToString(n) ==> IsDigit(c)
  {
    ParseIntOfItoa(n);
    TrimFixesTrimmed(NatToString(n));
  }

  lemma PrintedBase(b: Base)
    ensures '/' !in PrintBase(b) && ',' !in PrintBase(b)
    ensures PrintBase(b) != "" && Trim(PrintBase(b)) == PrintBase(b)
  {
    if b.Span? {
      assert IsDigit(NatToString(b.first)[0]) && IsDigit(NatToString(b.last)[|NatToString(b.last)| - 1]);
    }
    TrimFixesTrimmed(PrintBase(b));
  }

  lemma BaseBoundsOfPrinted(b: Base, step: int, lo: int, hi: int, sunday: bool)
    requires Limits(lo, hi, sunday)
    requires b.One? ==> b.value <= MAX_INT64
    requires b.Span? ==> b.first <= MAX_INT64 && b.last <= MAX_INT64
    ensures BaseBounds(PrintBase(b), step, lo, hi, sunday) == Some(match b
      case Full => (lo, hi)
      case One(v) => (Normalize(v, sunday), if step > 1 then hi else Normalize(v, sunday))
      case Span(x, y) => (Normalize(x, sunday), Normalize(y, sunday)))
  {
    match b
    case Full =>
    case One(v) =>
      DigitText(v);
    case Span(x, y) =>
      SpanText(x, y);
      DigitText(x);
      DigitText(y);
  }

  lemma SpanText(x: nat, y: nat)
    ensures var text := PrintBase(Span(x, y));
            var i := IndexOf(text, '-');
            text != "*" && '-' in text && text[..i] == NatToString(x) && text[i + 1..] == NatToString(y)
  {
    var text, first := PrintBase(Span(x, y)), NatToString(x);
    assert text[..|first|] == first && text[|first|] == '-';
    IndexOfUnique(text, '-', |first|);
  }

  lemma BaseAndStepOfPrinted(s: Segment)
    requires s.step.Some? ==> 1 <= s.step.value <= MAX_INT64
    ensures BaseAndStep(Print(s)) == Some((PrintBase(s.base), if s.step.None? then 1 else s.step.value))
  {
    PrintedBase(s.base);
    if s.step.Some? {
      var text, n := Print(s), |PrintBase(s.base)|;
      DigitText(s.step.value);
      assert text[..n] == PrintBase(s.base) && text[n + 1..] == NatToString(s.step.value);
      IndexOfUnique(text, '/', n);
    }
  }

  /** Every well-formed segment parses to the bounds it stands for. */
  lemma SegmentRoundTrip(s: Segment, lo: int, hi: int, sunday: bool)
    requires Limits(lo, hi, sunday) && WellFormed(s, lo, hi, sunday)
    ensures SegmentBounds(Print(s), lo, hi, sunday) == Some(Intended(s, lo, hi, sunday))
  {
    BaseAndStepOfPrinted(s);
    BaseBoundsOfPrinted(s.base, Intended(s, lo, hi, sunday).step, lo, hi, sunday);
  }

  /** "5/9223372036854775807" as the minute field selects 1, 3 and 5 instead of 5 alone. */
  lemma HugeStepSelectsMore()
    ensures SegmentBounds(Print(Segment(One(5), Some(MAX_INT64))), 0, 59, false) == Some(Bounds(5, 59, MAX_INT64))
    ensures SegmentValues(Bounds(5, 59, MAX_INT64), 0, 59, false) == {1, 3, 5}
    ensures Meaning(Bounds(5, 59, MAX_INT64), 0, 59, false) == {5}
  {
    SegmentRoundTrip(Segment(One(5), Some(MAX_INT64)), 0, 59, false);
    HugeStepValues(5, MAX_INT64);
  }

  lemma HugeStepValues(start: int, step: int)
    requires start == 5 && step == MAX_INT64
    ensures SegmentValues(Bounds(start, 59, step), 0, 59, false) == {1, 3, 5}
    ensures Meaning(Bounds(start, 59, step), 0, 59, false) == {5}
  {
    SegmentValuesSplit(Bounds(start, 59, step), 0, 59, false);
    assert Downward(3, 2) == {3} + Downward(1, 2) == {1, 3};
    assert Upward(start, 59, step) == {5};
    FoldedPlain({1, 3});
    FoldedPlain({5});
  }

  lemma FoldedPlain(s: set<int>)
    requires forall v :: v in s ==> 0 <= v <= 59
    ensures Folded(s, 0, 59, false) == s
  {
    forall v | v in s ensures v in Folded(s, 0, 59, false) {
      assert Normalize(v, false) == v;
    }
  }

  /** What a segment adds to the field; `None` when it is rejected. */
  function SegmentSet(segment: string, lo: int, hi: int, sunday: bool): Option<set<int>>
    requires Limits(lo, hi, sunday)
  {
    var b := SegmentBounds(segment, lo, hi, sunday);
    if b.None? then None else Some(SegmentValues(b.value, lo, hi, sunday))
  }

  lemma FoldedFirst(v: int, rest: set<int>, lo: int, hi: int, sunday: bool)
    ensures var n := Normalize(v, sunday);
      Folded({v} + rest, lo, hi, sunday) == (if lo <= n <= hi then {n} else {}) + Folded(rest, lo, hi, sunday)
  {
  }

  /** Adds the values of one segment to `values`, as the source fills its map. */
  method AppendSegment(values: set<int>, segment: string, lo: int, hi: int, sunday: bool) returns (r: Option<set<int>>)
    requires Limits(lo, hi, sunday)
    ensures r.Some? <==> SegmentSet(segment, lo, hi, sunday).Some?
    ensures r.Some? ==> r.value == values + SegmentSet(segment, lo, hi, sunday).value
  {
    var bounds := SegmentBounds(segment, lo, hi, sunday);
    if bounds.None? {
      return None;
    }
    var Bounds(start, end, step) := bounds.value;
    var acc := values;
    var value := start;
    while value <= end
      invariant LoopState(value, end, step)
      invariant acc + Folded(Visited(value, end, step), lo, hi, sunday)
             == values + SegmentValues(bounds.value, lo, hi, sunday)
      decreases LoopMeasure(value, end, step)
    {
      var normalized := Normalize(value, sunday);
      LoopProgress(value, end, step);
      FoldedFirst(value, Visited(Add64(value, step), end, step), lo, hi, sunday);
      if lo <= normalized <= hi {
        acc := acc + {normalized};
      }
      value := Add64(value, step);
    }
    r := Some(acc);
  }

  /** The comma segments of a field, each without surrounding white space. */
  function Segments(field: string): (parts: seq<string>)
    ensures |parts| >= 1
  {
    var raw := Split(field, ',');
    seq(|raw|, i requires 0 <= i < |raw| => Trim(raw[i]))
  }

  /** What each non-blank segment adds. */
  function SegmentSets(parts: seq<string>, lo: int, hi: int, sunday: bool): (sets: seq<Option<set<int>>>)
    requires Limits(lo, hi, sunday)
  {
    seq(|parts|, i requires 0 <= i < |parts| =>
      if parts[i] == "" then None else SegmentSet(parts[i], lo, hi, sunday))
  }

  predicate AllSome(sets: seq<Option<set<int>>>) {
    forall i :: 0 <= i < |sets| ==> sets[i].Some?
  }

  function UnionOf(sets: seq<Option<set<int>>>): set<int>
    requires AllSome(sets)
  {
    if sets == [] then {} else UnionOf(sets[..|sets| - 1]) + sets[|sets| - 1].value
  }

  lemma {:induction false} UnionMembers(sets: seq<Option<set<int>>>, v: int)
    requires AllSome(sets)
    ensures v in UnionOf(sets) <==> exists i :: 0 <= i < |sets| && v in sets[i].value
  {
    if sets != [] {
      UnionMembers(sets[..|sets| - 1], v);
    }
  }

  /** What `parseCronField` returns; `None` stands for its validation error. */
  function ParsedField(raw: string, lo: int, hi: int, sunday: bool): Option<Matcher>
    requires Limits(lo, hi, sunday)
  {
    var field := Trim(raw);
    if field == "" then None
    else if field == "*" then Some(Any)
    else
      var sets := SegmentSets(Segments(field), lo, hi, sunday);
      if AllSome(sets) then Some(Values(UnionOf(sets))) else None
  }

  lemma UnionSnoc(sets: seq<Option<set<int>>>, i: nat)
    requires i < |sets| && AllSome(sets[..i]) && sets[i].Some?
    ensures AllSome(sets[..i + 1]) && UnionOf(sets[..i + 1]) == UnionOf(sets[..i]) + sets[i].value
  {
    assert sets[..i + 1][..i] == sets[..i];
  }

  /** The loop of `parseCronField` over its segments. */
  method CollectSegments(parts: seq<string>, lo: int, hi: int, sunday: bool, ghost sets: seq<Option<set<int>>>)
    returns (r: Option<set<int>>)
    requires Limits(lo, hi, sunday) && sets == SegmentSets(parts, lo, hi, sunday)
    ensures r == if AllSome(sets) then Some(UnionOf(sets)) else None
  {
    var values: set<int> := {};
    for i := 0 to |parts|
      invariant AllSome(sets[..i]) && values == UnionOf(sets[..i])
    {
      if parts[i] == "" {
        assert sets[i] == None;
        return None;
      }
      assert sets[i] == SegmentSet(parts[i], lo, hi, sunday);
      var added := AppendSegment(values, parts[i], lo, hi, sunday);
      if added.None? {
        return None;
      }
      UnionSnoc(sets, i);
      values := added.value;
    }
    assert sets[..|parts|] == sets;
    r := Some(values);
  }

  /** The "no values parsed" error of the source cannot occur: see `FieldInRange`. */
  method ParseField(raw: string, lo: int, hi: int, sunday: bool) returns (r: Option<Matcher>)
    requires Limits(lo, hi, sunday)
    ensures r == ParsedField(raw, lo, hi, sunday)
  {
    var field := Trim(raw);
    if field == "" {
      return None;
    }
    if field == "*" {
      return Some(Any);
    }
    var values := CollectSegments(Segments(field), lo, hi, sunday, SegmentSets(Segments(field), lo, hi, sunday));
    r := if values.None? then None else Some(Values(values.value));
  }

  lemma SegmentSetInRange(segment: string, lo: int, hi: int, sunday: bool)
    requires Limits(lo, hi, sunday) && SegmentSet(segment, lo, hi, sunday).Some?
    ensures var s := SegmentSet(segment, lo, hi, sunday).value;
            s != {} && forall v :: v in s ==> lo <= v <= hi && !(sunday && v == 7)
  {
    var b := SegmentBounds(segment, lo, hi, sunday).value;
    assert b.start in Visited(b.start, b.end, b.step);
    assert Normalize(b.start, sunday) in SegmentSet(segment, lo, hi, sunday).value;
  }

  /** No step is so large that the loop counter wraps back into range. */
  predicate StepsInRange(parts: seq<string>, lo: int, hi: int, sunday: bool) {
    forall i :: 0 <= i < |parts| && SegmentBounds(parts[i], lo, hi, sunday).Some? ==>
      var b := SegmentBounds(parts[i], lo, hi, sunday).value;
      b.start - TwoStepDrop(b.step) < lo
  }

  predicate InSomeSegment(parts: seq<string>, lo: int, hi: int, sunday: bool, v: int) {
    exists i :: 0 <= i < |parts| && SegmentBounds(parts[i], lo, hi, sunday).Some?
      && v in Meaning(SegmentBounds(parts[i], lo, hi, sunday).value, lo, hi, sunday)
  }

  /** The values of an accepted field other than "*". */
  function Selected(raw: string, lo: int, hi: int, sunday: bool): Option<set<int>>
    requires Limits(lo, hi, sunday)
  {
    match ParsedField(raw, lo, hi, sunday)
    case Some(Values(s)) => Some(s)
    case _ => None
  }

  /** Every accepted field other than "*" has a non-empty set of values, all in range and never 7
      for day-of-week. */
  lemma FieldInRange(raw: string, lo: int, hi: int, sunday: bool)
    requires Limits(lo, hi, sunday)
    ensures var s := Selected(raw, lo, hi, sunday);
      s.Some? ==> s.value != {} && forall v :: v in s.value ==> lo <= v <= hi && !(sunday && v == 7)
  {
    if Selected(raw, lo, hi, sunday).Some? {
      var parts := Segments(Trim(raw));
      var sets := SegmentSets(parts, lo, hi, sunday);
      forall i | 0 <= i < |parts|
        ensures sets[i].Some? && sets[i].value != {}
        ensures forall v :: v in sets[i].value ==> lo <= v <= hi && !(sunday && v == 7)
      {
        assert sets[i].Some?;
        SegmentSetInRange(parts[i], lo, hi, sunday);
      }
      forall v ensures v in UnionOf(sets) <==> exists i :: 0 <= i < |sets| && v in sets[i].value {
        UnionMembers(sets, v);
      }
      var v :| v in sets[0].value;
      assert v in UnionOf(sets);
    }
  }

  /** What the wrapped loop counter adds to a segment. */
  function Wrapped(b: Bounds, lo: int, hi: int, sunday: bool): set<int>
    requires 1 <= b.step <= MAX_INT64
  {
    Folded(Downward(b.start - TwoStepDrop(b.step), TwoStepDrop(b.step)), lo, hi, sunday)
  }

  predicate InSomeWrap(parts: seq<string>, lo: int, hi: int, sunday: bool, v: int) {
    exists i :: 0 <= i < |parts| && SegmentBounds(parts[i], lo, hi, sunday).Some?
      && v in Wrapped(SegmentBounds(parts[i], lo, hi, sunday).value, lo, hi, sunday)
  }

  lemma SegmentSetSplit(segment: string, lo: int, hi: int, sunday: bool)
    requires Limits(lo, hi, sunday) && SegmentSet(segment, lo, hi, sunday).Some?
    ensures SegmentBounds(segment, lo, hi, sunday).Some?
    ensures var b := SegmentBounds(segment, lo, hi, sunday).value;
      SegmentSet(segment, lo, hi, sunday).value == Meaning(b, lo, hi, sunday) + Wrapped(b, lo, hi, sunday)
  {
    ValuesSplit(SegmentBounds(segment, lo, hi, sunday).value, lo, hi, sunday);
  }

  lemma ValuesSplit(b: Bounds, lo: int, hi: int, sunday: bool)
    requires 0 <= lo && 0 <= b.start <= b.end <= 59 && 1 <= b.step <= MAX_INT64
    ensures SegmentValues(b, lo, hi, sunday) == Meaning(b, lo, hi, sunday) + Wrapped(b, lo, hi, sunday)
  {
    SegmentValuesSplit(b, lo, hi, sunday);
  }

  /** The values of every accepted field other than "*": the union over the comma segments of
      {start, start + step, ... <= end}, and of what a wrapped counter adds. */
  lemma FieldDenotation(raw: string, lo: int, hi: int, sunday: bool, v: int)
    requires Limits(lo, hi, sunday)
    ensures var s, parts := Selected(raw, lo, hi, sunday), Segments(Trim(raw));
      s.Some? ==>
        (v in s.value <==> InSomeSegment(parts, lo, hi, sunday, v) || InSomeWrap(parts, lo, hi, sunday, v))
  {
    if Selected(raw, lo, hi, sunday).Some? {
      var parts := Segments(Trim(raw));
      var sets := SegmentSets(parts, lo, hi, sunday);
      forall i | 0 <= i < |parts|
        ensures sets[i].Some? && SegmentBounds(parts[i], lo, hi, sunday).Some?
        ensures var b := SegmentBounds(parts[i], lo, hi, sunday).value;
          sets[i].value == Meaning(b, lo, hi, sunday) + Wrapped(b, lo, hi, sunday)
      {
        assert sets[i].Some?;
        SegmentSetSplit(parts[i], lo, hi, sunday);
      }
      UnionMembers(sets, v);
    }
  }

  /** A field selects exactly what its segments mean. */
  ghost predicate AsIntended(s: set<int>, raw: string, lo: int, hi: int, sunday: bool) {
    forall v :: v in s <==> InSomeSegment(Segments(Trim(raw)), lo, hi, sunday, v)
  }

  /** Each value a wrapped counter adds is meant by some segment anyway. */
  ghost predicate WrapsHarmless(parts: seq<string>, lo: int, hi: int, sunday: bool) {
    forall v :: InSomeWrap(parts, lo, hi, sunday, v) ==> InSomeSegment(parts, lo, hi, sunday, v)
  }

  /** The one is so exactly when the other is. */
  lemma AsIntendedExactly(raw: string, lo: int, hi: int, sunday: bool)
    requires Limits(lo, hi, sunday)
    ensures var s := Selected(raw, lo, hi, sunday);
      s.Some? ==> (AsIntended(s.value, raw, lo, hi, sunday) <==> WrapsHarmless(Segments(Trim(raw)), lo, hi, sunday))
  {
    var s, parts := Selected(raw, lo, hi, sunday), Segments(Trim(raw));
    if s.Some? {
      forall v ensures v in s.value <==> InSomeSegment(parts, lo, hi, sunday, v) || InSomeWrap(parts, lo, hi, sunday, v) {
        FieldDenotation(raw, lo, hi, sunday, v);
      }
    }
  }

  /** In particular when no step wraps the counter back into range. */
  lemma StepsInRangeAsIntended(raw: string, lo: int, hi: int, sunday: bool)
    requires Limits(lo, hi, sunday) && StepsInRange(Segments(Trim(raw)), lo, hi, sunday)
    ensures var s := Selected(raw, lo, hi, sunday); s.Some? ==> AsIntended(s.value, raw, lo, hi, sunday)
  {
    var parts := Segments(Trim(raw));
    forall v | InSomeWrap(parts, lo, hi, sunday, v) ensures InSomeSegment(parts, lo, hi, sunday, v) {
      var i :| 0 <= i < |parts| && SegmentBounds(parts[i], lo, hi, sunday).Some?
        && v in Wrapped(SegmentBounds(parts[i], lo, hi, sunday).value, lo, hi, sunday);
      WrapMeant(SegmentBounds(parts[i], lo, hi, sunday).value, lo, hi, sunday);
    }
    AsIntendedExactly(raw, lo, hi, sunday);
  }

  lemma WrapMeant(b: Bounds, lo: int, hi: int, sunday: bool)
    requires Limits(lo, hi, sunday) && lo <= b.start <= b.end <= hi && 1 <= b.step <= MAX_INT64
    requires (sunday ==> b.start != 7) && b.start - TwoStepDrop(b.step) < lo
    ensures Wrapped(b, lo, hi, sunday) <= Meaning(b, lo, hi, sunday)
  {
    SegmentValuesExact(b, lo, hi, sunday);
    SegmentValuesSplit(b, lo, hi, sunday);
  }

  /** Text of a field given by its segments. */
  function PrintField(segments: seq<Segment>): string {
    Join(Texts(segments), ',')
  }

  function Texts(segments: seq<Segment>): seq<string> {
    seq(|segments|, i requires 0 <= i < |segments| => Print(segments[i]))
  }

  lemma PrintedText(s: Segment)
    ensures ',' !in Print(s) && Print(s) != "" && Trim(Print(s)) == Print(s)
    ensures Print(s) == "*" <==> s == Segment(Full, None)
  {
    PrintedBase(s.base);
    if s.step.Some? {
      var n := NatToString(s.step.value);
      assert IsDigit(n[|n| - 1]);
      assert Print(s)[|PrintBase(s.base)|] == '/';
    } else if !s.base.Full? {
      assert IsDigit(Print(s)[0]);
    }
    assert Trimmed(PrintBase(s.base)) by { TrimIsTrimmed(PrintBase(s.base)); }
    TrimFixesTrimmed(Print(s));
  }

  lemma SegmentsOfPrinted(segments: seq<Segment>)
    requires |segments| >= 1
    ensures Trim(PrintField(segments)) == PrintField(segments)
    ensures Segments(PrintField(segments)) == Texts(segments)
    ensures PrintField(segments) != "" && (PrintField(segments) == "*" <==> segments == [Segment(Full, None)])
  {
    var texts := Texts(segments);
    forall i | 0 <= i < |texts| ensures ',' !in texts[i] && texts[i] != "" && Trim(texts[i]) == texts[i] {
      PrintedText(segments[i]);
    }
    SplitJoin(texts, ',');
    JoinEnds(texts, ',');
    TrimIsTrimmed(texts[0]);
    TrimIsTrimmed(texts[|texts| - 1]);
    TrimFixesTrimmed(PrintField(segments));
    PrintedText(segments[0]);
    if PrintField(segments) == "*" {
      assert Split("*", ',') == ["*"];
      assert texts[0] == "*" && |segments| == 1;
    }
    if segments == [Segment(Full, None)] {
      assert texts == ["*"];
    }
  }

  lemma {:induction false} JoinEnds(parts: seq<string>, sep: char)
    requires |parts| >= 1 && forall i :: 0 <= i < |parts| ==> parts[i] != ""
    ensures var j := Join(parts, sep);
            j != "" && j[0] == parts[0][0] && j[|j| - 1] == parts[|parts| - 1][|parts[|parts| - 1]| - 1]
  {
    if |parts| > 1 {
      JoinEnds(parts[1..], sep);
      assert parts[1..][|parts| - 2] == parts[|parts| - 1];
    }
  }

  /** A well-formed segment whose step does not wrap the loop counter back into range. */
  predicate Sound(s: Segment, lo: int, hi: int, sunday: bool) {
    && WellFormed(s, lo, hi, sunday)
    && var b := Intended(s, lo, hi, sunday); b.start - TwoStepDrop(b.step) < lo
  }

  predicate Selects(s: Segment, lo: int, hi: int, sunday: bool, v: int)
    requires Sound(s, lo, hi, sunday)
  {
    v in Meaning(Intended(s, lo, hi, sunday), lo, hi, sunday)
  }

  lemma PrintedSet(s: Segment, lo: int, hi: int, sunday: bool)
    requires Limits(lo, hi, sunday) && Sound(s, lo, hi, sunday)
    ensures var r := SegmentSet(Print(s), lo, hi, sunday);
            Print(s) != "" && r.Some? && forall v :: v in r.value <==> Selects(s, lo, hi, sunday, v)
  {
    SegmentRoundTrip(s, lo, hi, sunday);
    PrintedText(s);
    SegmentValuesExact(Intended(s, lo, hi, sunday), lo, hi, sunday);
  }

  /** Every field written from such segments is accepted, and it selects exactly the values its
      segments stand for, unless it is the single segment "*", which selects everything. */
  lemma FieldRoundTrip(segments: seq<Segment>, lo: int, hi: int, sunday: bool)
    requires Limits(lo, hi, sunday) && |segments| >= 1
    requires forall i :: 0 <= i < |segments| ==> Sound(segments[i], lo, hi, sunday)
    ensures segments == [Segment(Full, None)] ==> ParsedField(PrintField(segments), lo, hi, sunday) == Some(Any)
    ensures segments != [Segment(Full, None)] ==>
      var m := ParsedField(PrintField(segments), lo, hi, sunday);
      && m.Some? && m.value.Values?
      && forall v :: v in m.value.values <==>
           exists i :: 0 <= i < |segments| && Selects(segments[i], lo, hi, sunday, v)
  {
    SegmentsOfPrinted(segments);
    var sets := SegmentSets(Texts(segments), lo, hi, sunday);
    forall i | 0 <= i < |segments|
      ensures sets[i].Some? && forall v :: v in sets[i].value <==> Selects(segments[i], lo, hi, sunday, v)
    {
      PrintedSet(segments[i], lo, hi, sunday);
    }
    forall v ensures v in UnionOf(sets) <==> exists i :: 0 <= i < |segments| && Selects(segments[i], lo, hi, sunday, v) {
      UnionMembers(sets, v);
    }
  }

  lemma UnionOfOne(x: set<int>)
    ensures AllSome([Some(x)]) && UnionOf([Some(x)]) == x
  {
    var sets := [Some(x)];
    assert sets[..0] == [];
  }

  lemma FieldOfOneText(text: string, lo: int, hi: int, sunday: bool)
    requires Limits(lo, hi, sunday) && Trim(text) == text && text != "" && text != "*" && Segments(text) == [text]
    requires SegmentSet(text, lo, hi, sunday).Some?
    ensures ParsedField(text, lo, hi, sunday) == Some(Values(SegmentSet(text, lo, hi, sunday).value))
  {
    UnionOfOne(SegmentSet(text, lo, hi, sunday).value);
    assert SegmentSets([text], lo, hi, sunday) == [SegmentSet(text, lo, hi, sunday)];
  }

  /** A field that consists of one segment selects what the code computes for it. */
  lemma OneSegmentField(s: Segment, lo: int, hi: int, sunday: bool)
    requires Limits(lo, hi, sunday) && WellFormed(s, lo, hi, sunday) && s != Segment(Full, None)
    ensures ParsedField(Print(s), lo, hi, sunday) == Some(Values(SegmentValues(Intended(s, lo, hi, sunday), lo, hi, sunday)))
  {
    SegmentsOfPrinted([s]);
    assert Texts([s]) == [Print(s)] && PrintField([s]) == Print(s);
    SegmentRoundTrip(s, lo, hi, sunday);
    FieldOfOneText(Print(s), lo, hi, sunday);
  }

  /** A plain value selects itself. */
  lemma SingleValueField(v: nat, lo: int, hi: int)
    requires Limits(lo, hi, false) && lo <= v <= hi
    ensures ParsedField(NatToString(v), lo, hi, false) == Some(Values({v}))
  {
    var s := Segment(One(v), None);
    OneSegmentField(s, lo, hi, false);
    SegmentValuesExact(Bounds(v, v, 1), lo, hi, false);
    assert Upward(v, v, 1) == {v};
    assert Folded({v}, lo, hi, false) == {v} by {
      assert Normalize(v, false) in Folded({v}, lo, hi, false);
    }
  }

  lemma DigitMore(n: nat, d: nat)
    requires n >= 1 && d <= 9
    ensures NatToString(10 * n + d) == NatToString(n) + [('0' as int + d) as char]
  {
    assert (10 * n + d) / 10 == n && (10 * n + d) % 10 == d;
  }

  lemma DigitsMore(n: nat, text: string, a: nat, b: nat, c: nat)
    requires n >= 1 && a <= 9 && b <= 9 && c <= 9 && NatToString(n) == text
    ensures NatToString(1000 * n + 100 * a + 10 * b + c)
         == text + [('0' as int + a) as char] + [('0' as int + b) as char] + [('0' as int + c) as char]
  {
    DigitMore(n, a);
    DigitMore(10 * n + a, b);
    DigitMore(10 * (10 * n + a) + b, c);
  }

  lemma Digits4(n: nat)
    requires n == 9223
    ensures NatToString(n) == "9223"
  {
    assert NatToString(9) == "9";
    DigitsMore(9, "9", 2, 2, 3);
  }

  lemma Digits7(n: nat)
    requires n == 9_223_372
    ensures NatToString(n) == "9223372"
  {
    Digits4(n / 1000);
    DigitsMore(n / 1000, "9223", 3, 7, 2);
  }

  lemma Digits10(n: nat)
    requires n == 9_223_372_036
    ensures NatToString(n) == "9223372036"
  {
    Digits7(n / 1000);
    DigitsMore(n / 1000, "9223372", 0, 3, 6);
  }

  lemma Digits13(n: nat)
    requires n == 9_223_372_036_854
    ensures NatToString(n) == "9223372036854"
  {
    Digits10(n / 1000);
    DigitsMore(n / 1000, "9223372036", 8, 5, 4);
  }

  lemma Digits16(n: nat)
    requires n == 9_223_372_036_854_775
    ensures NatToString(n) == "9223372036854775"
  {
    Digits13(n / 1000);
    DigitsMore(n / 1000, "9223372036854", 7, 7, 5);
  }

  lemma Digits19(n: nat)
    requires n / 1000 == 9_223_372_036_854_775 && n % 1000 == 807
    ensures NatToString(n) == "9223372036854775" + "8" + "0" + "7"
  {
    Digits16(n / 1000);
    DigitsMore(n / 1000, "9223372036854775", 8, 0, 7);
  }

  lemma MaxLiteral()
    ensures "9223372036854775" + "8" + "0" + "7" == "9223372036854775807"
  {
  }

  /** The text of the largest 64-bit number, found three digits at a time. */
  lemma MaxText(n: nat)
    requires n == MAX_INT64
    ensures NatToString(n) == "9223372036854775807"
  {
    Digits19(n);
    MaxLiteral();
  }

  lemma HugeStepText()
    ensures Print(Segment(One(5), Some(MAX_INT64))) == "5/9223372036854775807"
  {
    MaxText(MAX_INT64);
    StepOnFive(MAX_INT64, "9223372036854775807");
    HugeStepLiteral();
  }

  lemma StepOnFive(n: nat, step: string)
    requires NatToString(n) == step
    ensures Print(Segment(One(5), Some(n))) == "5/" + step
  {
    assert NatToString(5) == "5";
    assert "5" + ['/'] + step == "5/" + step;
  }

  lemma HugeStepLiteral()
    ensures "5/" + "9223372036854775807" == "5/9223372036854775807"
  {
  }

  /** The minute field "5/9223372036854775807" selects 1, 3 and 5. */
  lemma HugeStepField()
    ensures ParsedField("5/9223372036854775807", 0, 59, false) == Some(Values({1, 3, 5}))
  {
    HugeStepText();
    HugeStepParsed(MAX_INT64);
  }

  lemma HugeStepParsed(step: nat)
    requires step == MAX_INT64
    ensures ParsedField(Print(Segment(One(5), Some(step))), 0, 59, false) == Some(Values({1, 3, 5}))
  {
    OneSegmentField(Segment(One(5), Some(step)), 0, 59, false);
    HugeStepValues(5, step);
  }
}

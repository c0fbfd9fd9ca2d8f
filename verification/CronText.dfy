/** Which texts a cron field accepts, and as what: the search for separators in the parser agrees with a
    grammar of segments, whatever white space, signs and leading zeros the text has. */
module CronText {
  import opened Text
  import opened CronField

  /** The first `c` in the text is at position i. */
  predicate CutAt(t: string, c: char, i: int) {
    0 <= i < |t| && t[i] == c && c !in t[..i]
  }

  /** The text is "*" or nothing, a number, or two numbers around the first hyphen. */
  ghost predicate ReadsBase(t: string, b: Base) {
    match b
    case Full => t == "" || t == "*"
    case One(v) => '-' !in t && ParseInt64(t) == Some(v)
    case Span(x, y) => exists i :: CutAt(t, '-', i) && ParseInt64(Trim(t[..i])) == Some(x) && ParseInt64(Trim(t[i + 1..])) == Some(y)
  }

  /** A base, with a step after the first slash if there is one. */
  ghost predicate Reads(t: string, s: Segment) {
    match s.step
    case None => '/' !in t && ReadsBase(Trim(t), s.base)
    case Some(n) => exists i :: CutAt(t, '/', i) && ParseInt64(Trim(t[i + 1..])) == Some(n) && ReadsBase(Trim(t[..i]), s.base)
  }

  lemma CutIsIndex(t: string, c: char, i: int)
    requires CutAt(t, c, i)
    ensures c in t && IndexOf(t, c) == i
  {
    IndexOfUnique(t, c, i);
  }

  lemma TrimmedAgain(t: string)
    ensures Trim(Trim(t)) == Trim(t)
  {
    TrimIsTrimmed(t);
    TrimFixesTrimmed(Trim(t));
  }

  /** The bounds of a base, as `Intended` has them. */
  function BaseIntended(b: Base, step: int, lo: int, hi: int, sunday: bool): (int, int) {
    var bounds := Intended(Segment(b, if step >= 1 then Some(step) else None), lo, hi, sunday);
    (bounds.start, bounds.end)
  }

  lemma BaseRead(t: string, b: Base, step: int, lo: int, hi: int, sunday: bool)
    requires ReadsBase(t, b) && step >= 1
    ensures BaseBounds(t, step, lo, hi, sunday) == Some(BaseIntended(b, step, lo, hi, sunday))
  {
    match b
    case Full =>
    case One(v) =>
      NumberRead(t, v, step, lo, hi, sunday);
    case Span(x, y) =>
      var i :| CutAt(t, '-', i) && ParseInt64(Trim(t[..i])) == Some(x) && ParseInt64(Trim(t[i + 1..])) == Some(y);
      SpanRead(t, i, x, y, step, lo, hi, sunday);
  }

  lemma SpanRead(t: string, i: int, x: int, y: int, step: int, lo: int, hi: int, sunday: bool)
    requires CutAt(t, '-', i) && ParseInt64(Trim(t[..i])) == Some(x) && ParseInt64(Trim(t[i + 1..])) == Some(y)
    ensures BaseBounds(t, step, lo, hi, sunday) == Some((Normalize(x, sunday), Normalize(y, sunday)))
  {
    CutIsIndex(t, '-', i);
    assert t != "*";
  }

  lemma StepRead(t: string, i: int, n: int)
    requires CutAt(t, '/', i) && ParseInt64(Trim(t[i + 1..])) == Some(n) && n >= 1
    ensures BaseAndStep(t) == Some((Trim(t[..i]), n))
  {
    CutIsIndex(t, '/', i);
    TrimmedAgain(t[..i]);
  }

  lemma NumberRead(t: string, v: int, step: int, lo: int, hi: int, sunday: bool)
    requires '-' !in t && ParseInt64(t) == Some(v)
    ensures BaseBounds(t, step, lo, hi, sunday) == Some((Normalize(v, sunday), if step > 1 then hi else Normalize(v, sunday)))
  {
    assert t != "" && t != "*";
  }

  lemma BoundsFromParts(t: string, base: string, step: int, lo: int, hi: int, sunday: bool, start: int, end: int)
    requires BaseAndStep(t) == Some((base, step)) && BaseBounds(base, step, lo, hi, sunday) == Some((start, end))
    requires lo <= start <= end <= hi
    ensures SegmentBounds(t, lo, hi, sunday) == Some(Bounds(start, end, step))
  {
  }

  /** What the parser takes for bounds in range is a base of the grammar. */
  lemma BaseFound(t: string, step: int, lo: int, hi: int, sunday: bool) returns (b: Base)
    requires Limits(lo, hi, sunday) && step >= 1
    requires var r := BaseBounds(t, step, lo, hi, sunday); r.Some? && lo <= r.value.0 && lo <= r.value.1
    ensures ReadsBase(t, b)
  {
    if t == "" || t == "*" {
      b := Full;
    } else if '-' in t {
      var i := IndexOf(t, '-');
      var x, y := ParseInt64(Trim(t[..i])).value, ParseInt64(Trim(t[i + 1..])).value;
      b := Span(x, y);
      assert CutAt(t, '-', i);
    } else {
      b := One(ParseInt64(t).value);
    }
  }

  lemma SegmentRead(t: string, s: Segment, lo: int, hi: int, sunday: bool)
    requires Limits(lo, hi, sunday) && Reads(t, s) && WellFormed(s, lo, hi, sunday)
    ensures SegmentBounds(t, lo, hi, sunday) == Some(Intended(s, lo, hi, sunday))
  {
    var Bounds(start, end, step) := Intended(s, lo, hi, sunday);
    match s.step
    case None =>
      BaseRead(Trim(t), s.base, 1, lo, hi, sunday);
      BoundsFromParts(t, Trim(t), 1, lo, hi, sunday, start, end);
    case Some(n) =>
      var i :| CutAt(t, '/', i) && ParseInt64(Trim(t[i + 1..])) == Some(n) && ReadsBase(Trim(t[..i]), s.base);
      StepRead(t, i, n);
      BaseRead(Trim(t[..i]), s.base, n, lo, hi, sunday);
      BoundsFromParts(t, Trim(t[..i]), n, lo, hi, sunday, start, end);
  }

  lemma SegmentFound(t: string, lo: int, hi: int, sunday: bool) returns (s: Segment)
    requires Limits(lo, hi, sunday) && SegmentBounds(t, lo, hi, sunday).Some?
    ensures Reads(t, s) && WellFormed(s, lo, hi, sunday)
  {
    var (base, step) := BaseAndStep(t).value;
    var b := BaseFound(base, step, lo, hi, sunday);
    BaseRead(base, b, step, lo, hi, sunday);
    if '/' in t {
      var i := IndexOf(t, '/');
      TrimmedAgain(t[..i]);
      s := Segment(b, Some(step));
      assert CutAt(t, '/', i);
    } else {
      s := Segment(b, None);
    }
  }

  /** A segment is accepted exactly when it reads as a well-formed one, and with the bounds that one
      stands for. */
  lemma SegmentExactly(t: string, lo: int, hi: int, sunday: bool, b: Bounds)
    requires Limits(lo, hi, sunday)
    ensures SegmentBounds(t, lo, hi, sunday) == Some(b)
       <==> exists s :: Reads(t, s) && WellFormed(s, lo, hi, sunday) && Intended(s, lo, hi, sunday) == b
  {
    if SegmentBounds(t, lo, hi, sunday) == Some(b) {
      var s := SegmentFound(t, lo, hi, sunday);
      SegmentRead(t, s, lo, hi, sunday);
    }
    if s :| Reads(t, s) && WellFormed(s, lo, hi, sunday) && Intended(s, lo, hi, sunday) == b {
      SegmentRead(t, s, lo, hi, sunday);
    }
  }

  ghost predicate Readable(t: string, lo: int, hi: int, sunday: bool) {
    exists s :: Reads(t, s) && WellFormed(s, lo, hi, sunday)
  }

  /** A field is accepted exactly when it is "*" or each of its comma segments reads as a well-formed
      one. */
  lemma FieldAcceptedExactly(raw: string, lo: int, hi: int, sunday: bool)
    requires Limits(lo, hi, sunday)
    ensures ParsedField(raw, lo, hi, sunday).Some? <==>
      || Trim(raw) == "*"
      || (Trim(raw) != "" && forall i :: 0 <= i < |Segments(Trim(raw))| ==>
            Segments(Trim(raw))[i] != "" && Readable(Segments(Trim(raw))[i], lo, hi, sunday))
  {
    var parts := Segments(Trim(raw));
    var sets := SegmentSets(parts, lo, hi, sunday);
    forall i | 0 <= i < |parts| ensures sets[i].Some? <==> parts[i] != "" && Readable(parts[i], lo, hi, sunday) {
      SegmentReadable(parts[i], lo, hi, sunday);
    }
  }

  lemma SegmentReadable(t: string, lo: int, hi: int, sunday: bool)
    requires Limits(lo, hi, sunday)
    ensures SegmentSet(t, lo, hi, sunday).Some? <==> Readable(t, lo, hi, sunday)
  {
    if SegmentBounds(t, lo, hi, sunday).Some? {
      var s := SegmentFound(t, lo, hi, sunday);
    }
    if s :| Reads(t, s) && WellFormed(s, lo, hi, sunday) {
      SegmentRead(t, s, lo, hi, sunday);
    }
  }

  // ---- Sunday is 0 and 7 ----

  /** The weekday 7 selects Sunday, as 0 does. */
  lemma SevenIsSunday()
    ensures ParsedField(NatToString(7), 0, 7, true) == Some(Values({0}))
    ensures ParsedField(NatToString(0), 0, 7, true) == Some(Values({0}))
  {
    SundayField(7);
    SundayField(0);
  }

  lemma SundayField(v: nat)
    requires v == 0 || v == 7
    ensures ParsedField(NatToString(v), 0, 7, true) == Some(Values({0}))
  {
    var s := Segment(One(v), None);
    OneSegmentField(s, 0, 7, true);
    SegmentValuesExact(Bounds(0, 0, 1), 0, 7, true);
    assert Upward(0, 0, 1) == {0};
    assert Folded({0}, 0, 7, true) == {0} by {
      assert Normalize(0, true) in Folded({0}, 0, 7, true);
    }
  }

  /** A weekday range that ends in 7 is refused, unless it starts on a Sunday and then selects nothing
      else: its end is folded to 0 before the two are compared. */
  lemma RangeToSevenExactly(t: string, x: nat, n: Option<nat>)
    requires Reads(t, Segment(Span(x, 7), n)) && (n.Some? ==> n.value >= 1)
    ensures SegmentBounds(t, 0, 7, true) == if x == 0 || x == 7 then Some(Bounds(0, 0, if n.Some? then n.value else 1)) else None
  {
    var s := Segment(Span(x, 7), n);
    if x == 0 || x == 7 {
      if n.Some? {
        StepFits(t, s);
      }
      SegmentRead(t, s, 0, 7, true);
    } else if SegmentBounds(t, 0, 7, true).Some? {
      var found := SegmentFound(t, 0, 7, true);
      SameReading(t, found, s);
    }
  }

  lemma StepFits(t: string, s: Segment)
    requires Reads(t, s) && s.step.Some?
    ensures s.step.value <= MAX_INT64
  {
  }

  /** A text has one reading as a range. */
  lemma SameReading(t: string, s: Segment, r: Segment)
    requires Reads(t, s) && Reads(t, r) && r.base.Span?
    ensures s == r
  {
    if s.step.Some? && r.step.Some? {
      var i :| CutAt(t, '/', i) && ParseInt64(Trim(t[i + 1..])) == Some(s.step.value) && ReadsBase(Trim(t[..i]), s.base);
      var j :| CutAt(t, '/', j) && ParseInt64(Trim(t[j + 1..])) == Some(r.step.value) && ReadsBase(Trim(t[..j]), r.base);
      CutIsIndex(t, '/', i);
      CutIsIndex(t, '/', j);
      SameBase(Trim(t[..i]), s.base, r.base);
    } else {
      SameBase(Trim(t), s.base, r.base);
    }
  }

  lemma SameBase(t: string, a: Base, b: Base)
    requires ReadsBase(t, a) && ReadsBase(t, b) && b.Span?
    ensures a == b
  {
    var j :| CutAt(t, '-', j) && ParseInt64(Trim(t[..j])) == Some(b.first) && ParseInt64(Trim(t[j + 1..])) == Some(b.last);
    CutIsIndex(t, '-', j);
    if a.Span? {
      var i :| CutAt(t, '-', i) && ParseInt64(Trim(t[..i])) == Some(a.first) && ParseInt64(Trim(t[i + 1..])) == Some(a.last);
      CutIsIndex(t, '-', i);
    }
  }
}

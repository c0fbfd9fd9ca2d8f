/** The comparison of semantic versions, its order laws, and its agreement with section 11 of
    SemVer 2.0.0. */
module SemVerOrder {
  import opened Text
  import opened SemVer

  function CompareInt(a: int, b: int): (c: int)
    ensures c < 0 <==> a < b
    ensures c > 0 <==> a > b
    ensures -1 <= c <= 1
  {
    if a < b then -1 else if a > b then 1 else 0
  }

  /** Go's order on strings, character by character. */
  predicate LexLess(a: string, b: string) {
    if b == "" then false
    else if a == "" then true
    else if a[0] != b[0] then a[0] < b[0]
    else LexLess(a[1..], b[1..])
  }

  /** Two different identifiers: numbers by value and before everything else, the rest by text. */
  function CompareId(x: string, y: string): int {
    var m, n := ParseInt64(x), ParseInt64(y);
    if m.Some? && n.Some? then CompareInt(m.value, n.value)
    else if m.Some? then -1
    else if n.Some? then 1
    else if LexLess(x, y) then -1
    else 1
  }

  function CompareIds(a: seq<string>, b: seq<string>): int {
    if a == [] || b == [] then (if |a| < |b| then -1 else 1)
    else if a[0] == b[0] then CompareIds(a[1..], b[1..])
    else CompareId(a[0], b[0])
  }

  function PreOrder(a: string, b: string): int {
    if a == b then 0
    else if a == "" then 1
    else if b == "" then -1
    else CompareIds(Split(a, '.'), Split(b, '.'))
  }

  /** `comparePreRelease`, with its loop over the parts. */
  method ComparePreRelease(a: string, b: string) returns (c: int)
    ensures c == PreOrder(a, b)
  {
    if a == b {
      return 0;
    }
    if a == "" {
      return 1;
    }
    if b == "" {
      return -1;
    }
    var x, y := Split(a, '.'), Split(b, '.');
    var i := 0;
    while i < |x| && i < |y|
      invariant 0 <= i <= |x| && i <= |y|
      invariant CompareIds(x, y) == CompareIds(x[i..], y[i..])
    {
      if x[i] != y[i] {
        return CompareId(x[i], y[i]);
      }
      assert x[i..][1..] == x[i + 1..] && y[i..][1..] == y[i + 1..];
      i := i + 1;
    }
    c := if |x| < |y| then -1 else 1;
  }

  function Compare(v: SemVer, w: SemVer): int {
    if v.major != w.major then CompareInt(v.major, w.major)
    else if v.minor != w.minor then CompareInt(v.minor, w.minor)
    else if v.patch != w.patch then CompareInt(v.patch, w.patch)
    else PreOrder(v.preRelease, w.preRelease)
  }

  // ---- laws of the parts ----

  /** At position i the texts differ for the first time, or the first one ends. */
  predicate DifferFirstAt(a: string, b: string, i: int) {
    0 <= i <= |a| && i < |b| && a[..i] == b[..i] && (i == |a| || a[i] < b[i])
  }

  lemma SharedStart(a: string, b: string, i: int)
    requires DifferFirstAt(a, b, i)
    ensures i > 0 ==> a != "" && a[0] == b[0]
  {
    assert i > 0 ==> a[..i][0] == a[0] && b[..i][0] == b[0];
  }

  /** The order on strings is decided by the first character that differs; a proper prefix comes first. */
  lemma {:induction false} LexLessExactly(a: string, b: string)
    ensures LexLess(a, b) <==> exists i :: DifferFirstAt(a, b, i)
  {
    if a == "" || b == "" || a[0] != b[0] {
      if (a == "" && b != "") || (a != "" && b != "" && a[0] < b[0]) {
        assert DifferFirstAt(a, b, 0);
      }
      forall i | DifferFirstAt(a, b, i) ensures LexLess(a, b) {
        SharedStart(a, b, i);
      }
    } else {
      LexLessExactly(a[1..], b[1..]);
      if i :| DifferFirstAt(a[1..], b[1..], i) {
        assert a[..i + 1] == [a[0]] + a[1..][..i] && b[..i + 1] == [b[0]] + b[1..][..i];
        assert DifferFirstAt(a, b, i + 1);
      }
      if i :| DifferFirstAt(a, b, i) {
        assert i > 0;
        assert a[1..][..i - 1] == a[..i][1..] && b[1..][..i - 1] == b[..i][1..];
        assert DifferFirstAt(a[1..], b[1..], i - 1);
      }
    }
  }

  lemma {:induction false} LexTotal(x: string, y: string)
    requires x != y
    ensures LexLess(x, y) <==> !LexLess(y, x)
  {
    if x != "" && y != "" && x[0] == y[0] {
      assert x == [x[0]] + x[1..] && y == [y[0]] + y[1..];
      LexTotal(x[1..], y[1..]);
    }
  }

  lemma {:induction false} LexTransitive(x: string, y: string, z: string)
    requires LexLess(x, y) && LexLess(y, z)
    ensures LexLess(x, z)
  {
    if x != "" && x[0] == y[0] == z[0] {
      LexTransitive(x[1..], y[1..], z[1..]);
    }
  }

  lemma CompareIdAntisymmetric(x: string, y: string)
    requires x != y
    ensures CompareId(x, y) == -CompareId(y, x)
  {
    LexTotal(x, y);
  }

  lemma CompareIdTransitive(x: string, y: string, z: string)
    requires x != y && y != z && CompareId(x, y) < 0 && CompareId(y, z) < 0
    ensures x != z && CompareId(x, z) < 0
  {
    CompareIdAntisymmetric(x, y);
    if ParseInt64(x).None? && ParseInt64(y).None? && ParseInt64(z).None? {
      LexTransitive(x, y, z);
    }
  }

  lemma {:induction false} CompareIdsAntisymmetric(a: seq<string>, b: seq<string>)
    requires a != b
    ensures CompareIds(a, b) == -CompareIds(b, a)
    decreases |a|
  {
    if a != [] && b != [] {
      if a[0] == b[0] {
        assert a == [a[0]] + a[1..] && b == [b[0]] + b[1..];
        CompareIdsAntisymmetric(a[1..], b[1..]);
      } else {
        CompareIdAntisymmetric(a[0], b[0]);
      }
    }
  }

  lemma {:induction false} CompareIdsTransitive(a: seq<string>, b: seq<string>, c: seq<string>)
    requires a != b && b != c && CompareIds(a, b) < 0 && CompareIds(b, c) < 0
    ensures a != c && CompareIds(a, c) < 0
    decreases |a|
  {
    CompareIdsAntisymmetric(a, b);
    if a != [] && b != [] && c != [] {
      assert a == [a[0]] + a[1..] && b == [b[0]] + b[1..] && c == [c[0]] + c[1..];
      if a[0] == b[0] == c[0] {
        CompareIdsTransitive(a[1..], b[1..], c[1..]);
      } else if a[0] != b[0] && b[0] != c[0] {
        CompareIdTransitive(a[0], b[0], c[0]);
      }
    }
  }

  lemma SplitDistinct(a: string, b: string)
    requires a != b
    ensures Split(a, '.') != Split(b, '.')
  {
    JoinSplit(a, '.');
    JoinSplit(b, '.');
  }

  lemma PreOrderAntisymmetric(a: string, b: string)
    ensures PreOrder(a, b) == -PreOrder(b, a)
  {
    if a != b && a != "" && b != "" {
      SplitDistinct(a, b);
      CompareIdsAntisymmetric(Split(a, '.'), Split(b, '.'));
    }
  }

  lemma PreOrderTransitive(a: string, b: string, c: string)
    requires PreOrder(a, b) < 0 && PreOrder(b, c) < 0
    ensures PreOrder(a, c) < 0
  {
    PreOrderAntisymmetric(a, b);
    if c != "" {
      SplitDistinct(a, b);
      SplitDistinct(b, c);
      CompareIdsTransitive(Split(a, '.'), Split(b, '.'), Split(c, '.'));
    }
  }

  // ---- laws of Compare ----

  /** For all versions, comparing the other way round gives the opposite sign. */
  lemma CompareAntisymmetric(v: SemVer, w: SemVer)
    ensures Compare(v, w) == -Compare(w, v)
  {
    PreOrderAntisymmetric(v.preRelease, w.preRelease);
  }

  /** For all versions, the strict order is transitive. */
  lemma CompareTransitive(u: SemVer, v: SemVer, w: SemVer)
    requires Compare(u, v) < 0 && Compare(v, w) < 0
    ensures Compare(u, w) < 0
  {
    if u.major == v.major == w.major && u.minor == v.minor == w.minor && u.patch == v.patch == w.patch {
      PreOrderTransitive(u.preRelease, v.preRelease, w.preRelease);
    }
  }

  // ---- when 0 means equal ----

  /** A hyphen followed only by digits, few enough for 64-bit parsing to take it for a number. */
  predicate Signed(id: string) {
    id != "" && id[0] == '-' && ParseInt64(id).Some?
  }

  predicate Unsigned(pr: string) {
    var ids := Split(pr, '.');
    forall i :: 0 <= i < |ids| ==> !Signed(ids[i])
  }

  predicate PlainId(id: string) {
    IsId(id) && !LeadingZero(id) && !Signed(id)
  }

  predicate PlainIds(ids: seq<string>) {
    forall i :: 0 <= i < |ids| ==> PlainId(ids[i])
  }

  lemma NumericIdIsDigits(x: string)
    requires PlainId(x) && ParseInt64(x).Some?
    ensures CanonicalDigits(x) && ParseInt64(x).value == DigitsValue(x)
  {
    assert IdChar(x[0]);
  }

  lemma SameNumberSameId(x: string, y: string)
    requires PlainId(x) && PlainId(y) && ParseInt64(x).Some? && ParseInt64(x) == ParseInt64(y)
    ensures x == y
  {
    NumericIdIsDigits(x);
    NumericIdIsDigits(y);
    NatToStringOfValue(x);
    NatToStringOfValue(y);
  }

  lemma {:induction false} PlainIdsDiffer(a: seq<string>, b: seq<string>)
    requires a != b && PlainIds(a) && PlainIds(b)
    ensures CompareIds(a, b) != 0
    decreases |a|
  {
    if a != [] && b != [] {
      assert PlainId(a[0]) && PlainId(b[0]);
      if a[0] == b[0] {
        assert a == [a[0]] + a[1..] && b == [b[0]] + b[1..];
        assert forall i :: 0 <= i < |a| - 1 ==> a[1..][i] == a[i + 1];
        assert forall i :: 0 <= i < |b| - 1 ==> b[1..][i] == b[i + 1];
        PlainIdsDiffer(a[1..], b[1..]);
      } else if ParseInt64(a[0]).Some? && ParseInt64(a[0]) == ParseInt64(b[0]) {
        SameNumberSameId(a[0], b[0]);
      }
    }
  }

  lemma PlainPreRelease(v: SemVer)
    requires WellFormed(v) && v.preRelease != "" && Unsigned(v.preRelease)
    ensures PlainIds(Split(v.preRelease, '.'))
  {
    var ids := Split(v.preRelease, '.');
    forall i | 0 <= i < |ids| ensures PlainId(ids[i]) {
      assert IsId(ids[i]) && !LeadingZero(ids[i]) && !Signed(ids[i]);
    }
  }

  /** On parsed versions without signed identifiers, 0 means equal up to the build. */
  lemma ZeroMeansEqual(v: SemVer, w: SemVer)
    requires WellFormed(v) && WellFormed(w) && Unsigned(v.preRelease) && Unsigned(w.preRelease)
    ensures Compare(v, w) == 0 <==> v.(build := "") == w.(build := "")
  {
    if v.preRelease != w.preRelease && v.preRelease != "" && w.preRelease != "" {
      PlainPreRelease(v);
      PlainPreRelease(w);
      SplitDistinct(v.preRelease, w.preRelease);
      PlainIdsDiffer(Split(v.preRelease, '.'), Split(w.preRelease, '.'));
    }
  }

  // ---- exactly which versions have a twin ----

  /** An identifier the parser lets through. */
  predicate LegalId(id: string) {
    IsId(id) && !LeadingZero(id)
  }

  predicate LegalIds(ids: seq<string>) {
    ids != [] && forall i :: 0 <= i < |ids| ==> LegalId(ids[i])
  }

  /** The version with the core of `v` and these identifiers. */
  function WithIds(v: SemVer, ids: seq<string>): SemVer {
    SemVer(v.major, v.minor, v.patch, Join(ids, '.'), "")
  }

  lemma WithIdsOk(v: SemVer, ids: seq<string>)
    requires WellFormed(v) && LegalIds(ids)
    ensures WellFormed(WithIds(v, ids)) && Split(WithIds(v, ids).preRelease, '.') == ids && WithIds(v, ids).preRelease != ""
  {
    forall i | 0 <= i < |ids| ensures '.' !in ids[i] {
      assert LegalId(ids[i]);
    }
    SplitJoin(ids, '.');
    EmptySplit();
    assert LegalId(ids[0]);
    assert forall i :: 0 <= i < |ids| ==> LegalId(ids[i]);
  }

  lemma EmptySplit()
    ensures Split("", '.') == [""]
  {
  }

  lemma PartsLegal(v: SemVer)
    requires WellFormed(v) && v.preRelease != ""
    ensures LegalIds(Split(v.preRelease, '.'))
  {
    var ids := Split(v.preRelease, '.');
    forall i | 0 <= i < |ids| ensures LegalId(ids[i]) {
      assert IsId(ids[i]) && !LeadingZero(ids[i]);
    }
  }

  lemma {:induction false} CommonFront(p: seq<string>, s: seq<string>, t: seq<string>)
    ensures CompareIds(p + s, p + t) == CompareIds(s, t)
  {
    if p == [] {
      assert p + s == s && p + t == t;
    } else {
      assert (p + s)[1..] == p[1..] + s && (p + t)[1..] == p[1..] + t;
      CommonFront(p[1..], s, t);
    }
  }

  /** Two versions with the same core are compared by their identifiers. */
  lemma CompareByIds(v: SemVer, w: SemVer)
    requires v.major == w.major && v.minor == w.minor && v.patch == w.patch && v.preRelease != "" && w.preRelease != ""
    requires Split(v.preRelease, '.') != Split(w.preRelease, '.')
    ensures Compare(v, w) == CompareIds(Split(v.preRelease, '.'), Split(w.preRelease, '.'))
  {
  }

  /** Identifiers that another identifier equals in value: signed ones, and zero. */
  predicate Twinned(id: string) {
    Signed(id) || id == "0"
  }

  function Twin(id: string): string {
    if id == "0" then "-0" else if id == "" then "" else ['-', '0'] + id[1..]
  }

  lemma TwinEqual(id: string)
    requires Twinned(id)
    ensures Twin(id) != id && LegalId(id) && LegalId(Twin(id)) && CompareId(id, Twin(id)) == 0 == CompareId(Twin(id), id)
  {
    if id == "0" {
      assert "-0"[1..] == "0";
      assert "0"[..0] == "";
    } else {
      var digits, twin := id[1..], Twin(id);
      LeadingZeroKeepsValue(digits);
      assert twin[1..] == ['0'] + digits;
      assert |id| != |twin|;
    }
  }

  /** Some version differs from `v` in more than the build and still compares as equal. */
  ghost predicate HasTwin(v: SemVer) {
    exists w :: WellFormed(w) && Compare(v, w) == 0 && v.(build := "") != w.(build := "")
  }

  lemma ReplacedOne(ids: seq<string>, i: nat, y: string)
    requires i < |ids| && y != ids[i]
    ensures ids != ids[i := y] && CompareIds(ids, ids[i := y]) == CompareId(ids[i], y)
  {
    var other := ids[i := y];
    assert other[i] == y;
    assert ids == ids[..i] + ids[i..] && other == ids[..i] + other[i..];
    CommonFront(ids[..i], ids[i..], other[i..]);
  }

  lemma TwinExists(v: SemVer, i: nat)
    requires WellFormed(v) && i < |Split(v.preRelease, '.')| && Twinned(Split(v.preRelease, '.')[i])
    ensures HasTwin(v)
  {
    var ids := Split(v.preRelease, '.');
    var other := ids[i := Twin(ids[i])];
    EmptySplit();
    PartsLegal(v);
    TwinEqual(ids[i]);
    WithIdsOk(v, other);
    ReplacedOne(ids, i, Twin(ids[i]));
    CompareByIds(v, WithIds(v, other));
  }

  /** Every signed identifier has a twin with one more zero: two well-formed versions that differ and
      still compare as equal. */
  lemma SignedTwins(id: string)
    requires Signed(id)
    ensures var v, w := SemVer(1, 0, 0, id, ""), SemVer(1, 0, 0, ['-', '0'] + id[1..], "");
      WellFormed(v) && WellFormed(w) && v != w && Compare(v, w) == 0
  {
    var core := SemVer(1, 0, 0, "", "");
    TwinEqual(id);
    WithIdsOk(core, [id]);
    WithIdsOk(core, [Twin(id)]);
    ReplacedOne([id], 0, Twin(id));
    CompareByIds(WithIds(core, [id]), WithIds(core, [Twin(id)]));
  }

  lemma NumberIsOwn(x: string, y: string)
    requires LegalId(x) && !Twinned(x) && LegalId(y) && ParseInt64(x).Some? && ParseInt64(x) == ParseInt64(y)
    ensures x == y
  {
    NumericIdIsDigits(x);
    DigitsValuePositive(x);
    assert IdChar(y[0]);
    SameNumberSameId(x, y);
  }

  lemma {:induction false} UntwinnedDiffer(a: seq<string>, b: seq<string>)
    requires a != b && (forall i :: 0 <= i < |a| ==> LegalId(a[i]) && !Twinned(a[i])) && (forall i :: 0 <= i < |b| ==> LegalId(b[i]))
    ensures CompareIds(a, b) != 0
    decreases |a|
  {
    if a != [] && b != [] {
      if a[0] == b[0] {
        assert a == [a[0]] + a[1..] && b == [b[0]] + b[1..];
        assert forall i :: 0 <= i < |a| - 1 ==> a[1..][i] == a[i + 1];
        assert forall i :: 0 <= i < |b| - 1 ==> b[1..][i] == b[i + 1];
        UntwinnedDiffer(a[1..], b[1..]);
      } else if ParseInt64(a[0]).Some? && ParseInt64(a[0]) == ParseInt64(b[0]) {
        NumberIsOwn(a[0], b[0]);
      }
    }
  }

  /** A parsed version has a twin exactly when one of its identifiers is signed or zero. */
  lemma TwinsExactly(v: SemVer)
    requires WellFormed(v)
    ensures var ids := Split(v.preRelease, '.'); HasTwin(v) <==> exists i :: 0 <= i < |ids| && Twinned(ids[i])
  {
    var ids := Split(v.preRelease, '.');
    EmptySplit();
    if i :| 0 <= i < |ids| && Twinned(ids[i]) {
      TwinExists(v, i);
    } else {
      forall w | WellFormed(w) && v.(build := "") != w.(build := "") ensures Compare(v, w) != 0 {
        NoTwinAmong(v, w);
      }
    }
  }

  lemma NoTwinAmong(v: SemVer, w: SemVer)
    requires WellFormed(v) && WellFormed(w) && v.(build := "") != w.(build := "")
    requires var ids := Split(v.preRelease, '.'); forall i :: 0 <= i < |ids| ==> !Twinned(ids[i])
    ensures Compare(v, w) != 0
  {
    if v.preRelease != w.preRelease && v.preRelease != "" && w.preRelease != "" {
      PartsLegal(v);
      PartsLegal(w);
      SplitDistinct(v.preRelease, w.preRelease);
      UntwinnedDiffer(Split(v.preRelease, '.'), Split(w.preRelease, '.'));
    }
  }

  /** With a twin, 0 is not even transitive: after the twins the comparison stops looking. */
  lemma ZeroIsNotTransitive(id: string)
    requires Twinned(id)
    ensures var core := SemVer(1, 0, 0, "", "");
      var (u, v, w) := (WithIds(core, [id, "a"]), WithIds(core, [Twin(id), "b"]), WithIds(core, [id, "b"]));
      && WellFormed(u) && WellFormed(v) && WellFormed(w)
      && Compare(u, v) == 0 && Compare(v, w) == 0 && Compare(u, w) < 0
  {
    TwinEqual(id);
    LettersLegal();
    EqualThenDifferent(SemVer(1, 0, 0, "", ""), id, Twin(id), "a", "b");
  }

  lemma EqualThenDifferent(core: SemVer, x: string, y: string, p: string, q: string)
    requires WellFormed(core) && LegalId(x) && LegalId(y) && LegalId(p) && LegalId(q) && x != y && p != q
    requires CompareId(x, y) == 0 == CompareId(y, x) && CompareIds([p], [q]) < 0
    ensures var (u, v, w) := (WithIds(core, [x, p]), WithIds(core, [y, q]), WithIds(core, [x, q]));
      && WellFormed(u) && WellFormed(v) && WellFormed(w)
      && Compare(u, v) == 0 && Compare(v, w) == 0 && Compare(u, w) < 0
  {
    HeadsDiffer(x, y, p, q);
    HeadsDiffer(y, x, q, q);
    TailsDiffer(x, p, q);
    ComparedByIds(core, [x, p], [y, q]);
    ComparedByIds(core, [y, q], [x, q]);
    ComparedByIds(core, [x, p], [x, q]);
  }

  lemma HeadsDiffer(x: string, y: string, p: string, q: string)
    requires x != y
    ensures [x, p] != [y, q] && CompareIds([x, p], [y, q]) == CompareId(x, y)
  {
    assert [x, p][0] != [y, q][0];
  }

  lemma TailsDiffer(x: string, p: string, q: string)
    requires p != q
    ensures [x, p] != [x, q] && CompareIds([x, p], [x, q]) == CompareIds([p], [q])
  {
    assert [x, p][1] != [x, q][1];
    assert [x, p] == [x] + [p] && [x, q] == [x] + [q];
    CommonFront([x], [p], [q]);
  }

  lemma ComparedByIds(v: SemVer, a: seq<string>, b: seq<string>)
    requires WellFormed(v) && LegalIds(a) && LegalIds(b) && a != b
    ensures WellFormed(WithIds(v, a)) && WellFormed(WithIds(v, b)) && Compare(WithIds(v, a), WithIds(v, b)) == CompareIds(a, b)
  {
    WithIdsOk(v, a);
    WithIdsOk(v, b);
    CompareByIds(WithIds(v, a), WithIds(v, b));
  }

  lemma LettersLegal()
    ensures LegalId("a") && LegalId("b") && CompareIds(["a"], ["b"]) < 0
  {
  }

  // ---- section 11 of SemVer 2.0.0 ----

  /** Identifiers of only digits are compared as numbers, the others as text; numbers come first. */
  predicate IdPrecedes(x: string, y: string) {
    if AllDigits(x) && AllDigits(y) then DigitsValue(x) < DigitsValue(y)
    else if AllDigits(x) || AllDigits(y) then AllDigits(x)
    else LexLess(x, y)
  }

  /** The first difference decides; if there is none, the shorter list precedes. */
  ghost predicate PrecedesAt(a: seq<string>, b: seq<string>, k: nat) {
    && k <= |a| && k <= |b| && a[..k] == b[..k]
    && if k < |a| && k < |b| then a[k] != b[k] && IdPrecedes(a[k], b[k]) else k == |a| < |b|
  }

  ghost predicate ListPrecedes(a: seq<string>, b: seq<string>) {
    exists k: nat :: PrecedesAt(a, b, k)
  }

  /** Precedence; a release follows its pre-releases, and the build does not count. */
  ghost predicate Precedes(v: SemVer, w: SemVer) {
    || v.major < w.major
    || (v.major == w.major && v.minor < w.minor)
    || (v.major == w.major && v.minor == w.minor && v.patch < w.patch)
    || (v.major == w.major && v.minor == w.minor && v.patch == w.patch
        && v.preRelease != "" && (w.preRelease == "" || ListPrecedes(Split(v.preRelease, '.'), Split(w.preRelease, '.'))))
  }

  /** Every number in the pre-release fits 64 bits. */
  predicate Fits(pr: string) {
    var ids := Split(pr, '.');
    forall i :: 0 <= i < |ids| && AllDigits(ids[i]) ==> DigitsValue(ids[i]) <= MAX_INT64
  }

  predicate FitIds(ids: seq<string>) {
    PlainIds(ids) && forall i :: 0 <= i < |ids| && AllDigits(ids[i]) ==> DigitsValue(ids[i]) <= MAX_INT64
  }

  lemma ParseMeansDigits(x: string)
    requires PlainId(x) && (AllDigits(x) ==> DigitsValue(x) <= MAX_INT64)
    ensures ParseInt64(x) == if AllDigits(x) then Some(DigitsValue(x)) else None
  {
    assert IdChar(x[0]);
    if ParseInt64(x).Some? {
      NumericIdIsDigits(x);
    }
  }

  lemma IdAgrees(x: string, y: string)
    requires x != y && PlainId(x) && (AllDigits(x) ==> DigitsValue(x) <= MAX_INT64)
    requires PlainId(y) && (AllDigits(y) ==> DigitsValue(y) <= MAX_INT64)
    ensures CompareId(x, y) < 0 <==> IdPrecedes(x, y)
  {
    ParseMeansDigits(x);
    ParseMeansDigits(y);
  }

  lemma PrecedesShift(a: seq<string>, b: seq<string>, x: string, k: nat)
    ensures PrecedesAt([x] + a, [x] + b, k + 1) <==> PrecedesAt(a, b, k)
    ensures !PrecedesAt([x] + a, [x] + b, 0)
  {
    var s, t := [x] + a, [x] + b;
    if k <= |a| && k <= |b| {
      assert s[..k + 1] == [x] + a[..k] && t[..k + 1] == [x] + b[..k];
      assert a[..k] == s[..k + 1][1..] && b[..k] == t[..k + 1][1..];
    }
  }

  lemma ListShift(a: seq<string>, b: seq<string>, x: string)
    ensures ListPrecedes([x] + a, [x] + b) <==> ListPrecedes(a, b)
  {
    if k: nat :| PrecedesAt(a, b, k) {
      PrecedesShift(a, b, x, k);
    }
    if k: nat :| PrecedesAt([x] + a, [x] + b, k) {
      PrecedesShift(a, b, x, if k == 0 then 0 else k - 1);
    }
  }

  lemma HeadsDecide(a: seq<string>, b: seq<string>)
    requires a != [] && b != [] && a[0] != b[0]
    ensures ListPrecedes(a, b) <==> IdPrecedes(a[0], b[0])
  {
    if IdPrecedes(a[0], b[0]) {
      assert PrecedesAt(a, b, 0);
    }
    if k: nat :| PrecedesAt(a, b, k) {
      if k > 0 {
        SameFirst(a, b, k);
      }
    }
  }

  lemma SameFirst(a: seq<string>, b: seq<string>, k: nat)
    requires 0 < k <= |a| && k <= |b| && a[..k] == b[..k]
    ensures a[0] == b[0]
  {
    assert a[..k][0] == a[0] && b[..k][0] == b[0];
  }

  lemma EmptyDecides(a: seq<string>, b: seq<string>)
    requires a == [] || b == []
    ensures ListPrecedes(a, b) <==> |a| < |b|
  {
    if |a| < |b| {
      assert PrecedesAt(a, b, 0);
    }
  }

  lemma {:induction false} IdsAgree(a: seq<string>, b: seq<string>)
    requires a != b && FitIds(a) && FitIds(b)
    ensures CompareIds(a, b) < 0 <==> ListPrecedes(a, b)
    decreases |a|
  {
    if a == [] || b == [] {
      EmptyDecides(a, b);
    } else if a[0] == b[0] {
      assert a == [a[0]] + a[1..] && b == [b[0]] + b[1..];
      assert forall i :: 0 <= i < |a| - 1 ==> a[1..][i] == a[i + 1];
      assert forall i :: 0 <= i < |b| - 1 ==> b[1..][i] == b[i + 1];
      IdsAgree(a[1..], b[1..]);
      ListShift(a[1..], b[1..], a[0]);
    } else {
      assert PlainId(a[0]) && PlainId(b[0]);
      IdAgrees(a[0], b[0]);
      HeadsDecide(a, b);
    }
  }

  /** Compare is the precedence of section 11 on parsed versions without signed identifiers and
      without numbers beyond 64 bits. */
  lemma AgreesWithSection11(v: SemVer, w: SemVer)
    requires WellFormed(v) && Unsigned(v.preRelease) && Fits(v.preRelease)
    requires WellFormed(w) && Unsigned(w.preRelease) && Fits(w.preRelease)
    ensures Compare(v, w) < 0 <==> Precedes(v, w)
  {
    if v.preRelease == w.preRelease {
      NeverBeforeItself(Split(v.preRelease, '.'));
    } else if v.preRelease != "" && w.preRelease != "" {
      PlainPreRelease(v);
      PlainPreRelease(w);
      SplitDistinct(v.preRelease, w.preRelease);
      IdsAgree(Split(v.preRelease, '.'), Split(w.preRelease, '.'));
    }
  }

  lemma NeverBeforeItself(a: seq<string>)
    ensures !ListPrecedes(a, a)
  {
  }

  // ---- why both conditions are needed ----

  /** An identifier that the 64-bit parser reads differently from section 11. */
  predicate Misread(id: string) {
    Signed(id) || (AllDigits(id) && DigitsValue(id) > MAX_INT64)
  }

  predicate SomeMisread(ids: seq<string>) {
    exists k :: 0 <= k < |ids| && Misread(ids[k])
  }

  /** Every such identifier is put on the wrong side of a single hyphen. */
  lemma HyphenDisagrees(id: string)
    requires Misread(id)
    ensures id != "-" && (CompareId(id, "-") < 0 <==> !IdPrecedes(id, "-"))
  {
    if Signed(id) {
      assert "-"[1..] == "";
      assert !LexLess(id[1..], "");
    } else {
      assert id != "" && IsDigit(id[0]);
    }
  }

  lemma {:induction false} CommonFrontPrecedes(p: seq<string>, s: seq<string>, t: seq<string>)
    ensures ListPrecedes(p + s, p + t) <==> ListPrecedes(s, t)
  {
    if p == [] {
      assert p + s == s && p + t == t;
    } else {
      assert p + s == [p[0]] + (p[1..] + s) && p + t == [p[0]] + (p[1..] + t);
      ListShift(p[1..] + s, p[1..] + t, p[0]);
      CommonFrontPrecedes(p[1..], s, t);
    }
  }

  /** Parsed, without signed identifiers and without numbers beyond 64 bits. */
  predicate Ordinary(v: SemVer) {
    WellFormed(v) && Unsigned(v.preRelease) && Fits(v.preRelease)
  }

  lemma HyphenInstead(ids: seq<string>, i: nat)
    requires i < |ids| && ids[i] != "-"
    ensures var other := ids[..i] + ["-"];
      && ids != other
      && CompareIds(ids, other) == CompareId(ids[i], "-")
      && (ListPrecedes(ids, other) <==> IdPrecedes(ids[i], "-"))
  {
    assert ids == ids[..i] + ids[i..];
    assert (ids[..i] + ["-"])[i] == "-";
    CommonFront(ids[..i], ids[i..], ["-"]);
    CommonFrontPrecedes(ids[..i], ids[i..], ["-"]);
    HeadsDecide(ids[i..], ["-"]);
  }

  lemma OrdinaryWithIds(v: SemVer, ids: seq<string>)
    requires WellFormed(v) && LegalIds(ids) && forall k :: 0 <= k < |ids| ==> !Misread(ids[k])
    ensures Ordinary(WithIds(v, ids))
  {
    WithIdsOk(v, ids);
  }

  lemma HyphenIdsOk(ids: seq<string>, i: nat)
    requires LegalIds(ids) && i < |ids| && forall k :: 0 <= k < i ==> !Misread(ids[k])
    ensures var other := ids[..i] + ["-"]; LegalIds(other) && forall k :: 0 <= k < |other| ==> !Misread(other[k])
  {
    HyphenLegal();
  }

  /** Precedence of versions with the same core is precedence of their identifiers. */
  lemma PrecedesByIds(v: SemVer, w: SemVer)
    requires v.major == w.major && v.minor == w.minor && v.patch == w.patch && v.preRelease != "" && w.preRelease != ""
    ensures Precedes(v, w) <==> ListPrecedes(Split(v.preRelease, '.'), Split(w.preRelease, '.'))
  {
  }

  /** The ordinary version that `v` is compared wrongly with: its identifiers up to the first misread
      one, and a hyphen in place of that. */
  lemma DisagreesWithHyphen(v: SemVer, i: nat)
    requires WellFormed(v) && v.preRelease != ""
    requires var ids := Split(v.preRelease, '.');
      i < |ids| && Misread(ids[i]) && forall k :: 0 <= k < i ==> !Misread(ids[k])
    ensures var w := WithIds(v, Split(v.preRelease, '.')[..i] + ["-"]);
      Ordinary(w) && (Compare(v, w) < 0 <==> !Precedes(v, w))
  {
    var ids := Split(v.preRelease, '.');
    PartsLegal(v);
    HyphenIdsOk(ids, i);
    OrdinaryWithIds(v, ids[..i] + ["-"]);
    WithIdsOk(v, ids[..i] + ["-"]);
    DisagreesByIds(v, WithIds(v, ids[..i] + ["-"]), ids, i);
  }

  lemma DisagreesByIds(v: SemVer, w: SemVer, ids: seq<string>, i: nat)
    requires v.major == w.major && v.minor == w.minor && v.patch == w.patch && v.preRelease != "" && w.preRelease != ""
    requires Split(v.preRelease, '.') == ids && i < |ids| && Misread(ids[i])
    requires Split(w.preRelease, '.') == ids[..i] + ["-"]
    ensures Compare(v, w) < 0 <==> !Precedes(v, w)
  {
    HyphenDisagrees(ids[i]);
    HyphenInstead(ids, i);
    CompareByIds(v, w);
    PrecedesByIds(v, w);
  }

  lemma HyphenLegal()
    ensures LegalId("-") && !Misread("-")
  {
    assert "-"[1..] == "";
  }

  /** Compare agrees with section 11 on `v` and every ordinary version. */
  ghost predicate AgreesOn(v: SemVer) {
    forall w :: Ordinary(w) ==> (Compare(v, w) < 0 <==> Precedes(v, w))
  }

  lemma {:induction false} FirstMisread(ids: seq<string>, n: nat) returns (i: nat)
    requires n <= |ids| && exists k :: 0 <= k < n && Misread(ids[k])
    ensures i < n && Misread(ids[i]) && forall k :: 0 <= k < i ==> !Misread(ids[k])
    decreases n
  {
    if exists k :: 0 <= k < n - 1 && Misread(ids[k]) {
      i := FirstMisread(ids, n - 1);
    } else {
      i := n - 1;
    }
  }

  /** The two conditions are exact: a parsed version is compared with every ordinary one as section 11
      says if and only if it is ordinary itself. */
  lemma AgreesExactly(v: SemVer)
    requires WellFormed(v)
    ensures AgreesOn(v) <==> Ordinary(v)
  {
    if Ordinary(v) {
      forall w | Ordinary(w) ensures Compare(v, w) < 0 <==> Precedes(v, w) {
        AgreesWithSection11(v, w);
      }
    } else {
      var ids := Split(v.preRelease, '.');
      NotOrdinaryIsMisread(v);
      var i := FirstMisread(ids, |ids|);
      DisagreesWithHyphen(v, i);
    }
  }

  lemma NotOrdinaryIsMisread(v: SemVer)
    requires WellFormed(v) && !Ordinary(v)
    ensures v.preRelease != "" && SomeMisread(Split(v.preRelease, '.'))
  {
    EmptySplit();
    var ids := Split(v.preRelease, '.');
    var k :| 0 <= k < |ids| && Misread(ids[k]);
    assert SomeMisread(ids);
  }

  /** In particular every number beyond 64 bits is placed after a hyphen, though numbers come first. */
  lemma BigNumbersMisordered(x: string)
    requires AllDigits(x) && DigitsValue(x) > MAX_INT64
    ensures var (v, w) := (SemVer(1, 0, 0, x, ""), SemVer(1, 0, 0, "-", ""));
      WellFormed(v) && WellFormed(w) && Precedes(v, w) && Compare(v, w) > 0
  {
    var (v, w) := (SemVer(1, 0, 0, x, ""), SemVer(1, 0, 0, "-", ""));
    var core := SemVer(1, 0, 0, "", "");
    assert x != "";
    SingleIdentifier(x);
    assert LegalId(x);
    HyphenLegal();
    WithIdsOk(core, [x]);
    WithIdsOk(core, ["-"]);
    assert v == WithIds(core, [x]) && w == WithIds(core, ["-"]);
    HyphenDisagrees(x);
    assert [x][0] != ["-"][0];
    CompareByIds(v, w);
    HeadsDecide([x], ["-"]);
  }

  /** d followed by n zeros. */
  function Shifted(d: nat, n: nat): nat {
    if n == 0 then d else 10 * Shifted(d, n - 1)
  }

  lemma {:induction false} NineBeforeTen(n: nat)
    ensures Shifted(9, n) < Shifted(1, n + 1) && Shifted(0, n) == 0
  {
    if n > 0 {
      NineBeforeTen(n - 1);
    }
  }

  lemma {:induction false} LeadDigit(c: char, s: string)
    requires IsDigit(c) && AllDigits(s)
    ensures AllDigits([c] + s) && DigitsValue([c] + s) == Shifted(c as int - '0' as int, |s|) + DigitsValue(s)
  {
    var t := [c] + s;
    if s == [] {
      assert t[..0] == [];
    } else {
      assert t[..|t| - 1] == [c] + s[..|s| - 1];
      LeadDigit(c, s[..|s| - 1]);
    }
  }

  /** Two numbers beyond 64 bits are compared as text: 9s and 10s come out the wrong way round, for
      every tail s of digits that makes them that long. */
  lemma BigNumbersComparedAsText(s: string)
    requires AllDigits(s) && DigitsValue(['9'] + s) > MAX_INT64
    ensures var x, y := ['9'] + s, ['1', '0'] + s; IdPrecedes(x, y) && CompareId(x, y) > 0
  {
    LeadDigit('9', s);
    LeadDigit('0', s);
    LeadDigit('1', ['0'] + s);
    NineBeforeTen(|s|);
    assert ['1', '0'] + s == ['1'] + (['0'] + s);
    OutOfRangeByText(['9'] + s, ['1', '0'] + s);
  }

  lemma OutOfRangeByText(x: string, y: string)
    requires AllDigits(x) && AllDigits(y) && x != "" && y != "" && x[0] > y[0]
    requires MAX_INT64 < DigitsValue(x) < DigitsValue(y)
    ensures IdPrecedes(x, y) && CompareId(x, y) > 0
  {
    assert IsDigit(x[0]) && IsDigit(y[0]);
  }
}

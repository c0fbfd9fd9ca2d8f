/** Parsing and printing of semantic versions. The regular expression is modelled twice: as the
    grammar it denotes and as a search for its groups; `SubmatchExactly` says that they agree. */
module SemVer {
  import opened Text

  datatype SemVer = SemVer(major: int, minor: int, patch: int, preRelease: string, build: string)

  // ---- the pattern ----

  predicate IdChar(c: char)
    ensures IdChar(c) <==> c as int == 45 || 48 <= c as int <= 57 || 65 <= c as int <= 90 || 97 <= c as int <= 122
  {
    '0' <= c <= '9' || 'A' <= c <= 'Z' || 'a' <= c <= 'z' || c == '-'
  }

  predicate IsId(s: string) {
    s != "" && forall i :: 0 <= i < |s| ==> IdChar(s[i])
  }

  /** One or more identifiers separated by dots. */
  predicate IsIdList(s: string) {
    var ids := Split(s, '.');
    forall i :: 0 <= i < |ids| ==> IsId(ids[i])
  }

  /** The five groups; an optional group that did not take part is empty. */
  datatype Groups = Groups(major: string, minor: string, patch: string, pre: string, build: string)

  predicate GroupsOk(g: Groups) {
    && CanonicalDigits(g.major) && CanonicalDigits(g.minor) && CanonicalDigits(g.patch)
    && (g.pre == "" || IsIdList(g.pre)) && (g.build == "" || IsIdList(g.build))
  }

  function CoreText(g: Groups): string {
    g.major + ['.'] + (g.minor + ['.'] + g.patch)
  }

  function PreText(g: Groups): string {
    if g.pre == "" then CoreText(g) else CoreText(g) + ['-'] + g.pre
  }

  function GroupText(g: Groups): string {
    if g.build == "" then PreText(g) else PreText(g) + ['+'] + g.build
  }

  /** The language of the pattern, with an optional leading v. */
  predicate InGrammar(s: string, g: Groups) {
    GroupsOk(g) && (s == GroupText(g) || s == ['v'] + GroupText(g))
  }

  // ---- finding the groups ----

  function StripV(s: string): string {
    if s != "" && s[0] == 'v' then s[1..] else s
  }

  /** The text before the first separator, and what follows it, if anything. */
  function Cut(s: string, sep: char): (string, Option<string>) {
    var i := IndexOf(s, sep);
    if i == |s| then (s, None) else (s[..i], Some(s[i + 1..]))
  }

  predicate OptionalIds(o: Option<string>) {
    o.Some? ==> IsIdList(o.value)
  }

  function OrEmpty(o: Option<string>): string {
    if o.Some? then o.value else ""
  }

  function Assemble(nums: seq<string>, pre: Option<string>, build: Option<string>): Option<Groups> {
    if |nums| == 3 && CanonicalDigits(nums[0]) && CanonicalDigits(nums[1]) && CanonicalDigits(nums[2])
       && OptionalIds(pre) && OptionalIds(build)
    then Some(Groups(nums[0], nums[1], nums[2], OrEmpty(pre), OrEmpty(build)))
    else None
  }

  function Submatch(s: string): Option<Groups> {
    var (left, build) := Cut(StripV(s), '+');
    var (core, pre) := Cut(left, '-');
    Assemble(Split(core, '.'), pre, build)
  }

  lemma EmptyIsNoIdList(s: string)
    requires IsIdList(s)
    ensures s != ""
  {
    assert IsId(Split(s, '.')[0]);
  }

  lemma CutFound(a: string, b: string, sep: char)
    requires sep !in a
    ensures Cut(a + [sep] + b, sep) == (a, Some(b))
  {
    var s := a + [sep] + b;
    assert s[..|a|] == a && s[|a| + 1..] == b;
    IndexOfUnique(s, sep, |a|);
  }

  lemma CutAbsent(a: string, sep: char)
    requires sep !in a
    ensures Cut(a, sep) == (a, None)
  {
  }

  /** Putting a cut text together again. */
  lemma CutText(s: string, sep: char)
    ensures var (a, b) := Cut(s, sep);
      sep !in a && s == if b.None? then a else a + [sep] + b.value
  {
    var i := IndexOf(s, sep);
    assert s[..|s|] == s;
    assert i < |s| ==> s == s[..i] + [sep] + s[i + 1..];
  }

  /** Digits and dots; identifiers and dots. */
  predicate CoreChars(s: string) {
    forall i :: 0 <= i < |s| ==> IsDigit(s[i]) || s[i] == '.'
  }

  predicate IdListChars(s: string) {
    forall i :: 0 <= i < |s| ==> IdChar(s[i]) || s[i] == '.'
  }

  lemma {:induction false} IdListOver(s: string)
    requires IsIdList(s)
    ensures IdListChars(s)
    decreases |s|
  {
    var i := IndexOf(s, '.');
    var ids := Split(s, '.');
    if i < |s| {
      assert ids[0] == s[..i] && ids[1..] == Split(s[i + 1..], '.');
      assert IsId(ids[0]);
      assert forall k :: 0 <= k < |ids| - 1 ==> ids[1..][k] == ids[k + 1];
      IdListOver(s[i + 1..]);
      assert s == s[..i] + ['.'] + s[i + 1..];
    } else {
      assert IsId(ids[0]);
    }
  }

  lemma SplitTwo(a: string, b: string)
    requires '.' !in a && '.' !in b
    ensures Split(a + ['.'] + b, '.') == [a, b]
  {
    SplitCons(a, b, '.');
    CutAbsent(b, '.');
  }

  lemma DigitsHoldNoDot(s: string)
    requires AllDigits(s)
    ensures '.' !in s
  {
  }

  lemma CoreSplit(g: Groups)
    requires GroupsOk(g)
    ensures Split(CoreText(g), '.') == [g.major, g.minor, g.patch]
  {
    DigitsHoldNoDot(g.major);
    DigitsHoldNoDot(g.minor);
    DigitsHoldNoDot(g.patch);
    SplitTwo(g.minor, g.patch);
    SplitCons(g.major, g.minor + ['.'] + g.patch, '.');
  }

  lemma TwoDotted(a: string, b: string)
    requires CoreChars(a) && CoreChars(b)
    ensures CoreChars(a + ['.'] + b)
  {
  }

  lemma CoreOver(g: Groups)
    requires GroupsOk(g)
    ensures CoreChars(CoreText(g)) && CoreText(g) != "" && IsDigit(CoreText(g)[0])
  {
    TwoDotted(g.minor, g.patch);
    TwoDotted(g.major, g.minor + ['.'] + g.patch);
    assert CoreText(g)[0] == g.major[0];
  }

  lemma PreOver(g: Groups)
    requires GroupsOk(g)
    ensures '+' !in PreText(g) && '-' !in CoreText(g) && PreText(g) != "" && IsDigit(PreText(g)[0])
  {
    CoreOver(g);
    if g.pre != "" {
      IdListOver(g.pre);
    }
  }

  lemma SubmatchOfText(g: Groups)
    requires GroupsOk(g)
    ensures Cut(GroupText(g), '+') == (PreText(g), if g.build == "" then None else Some(g.build))
    ensures Cut(PreText(g), '-') == (CoreText(g), if g.pre == "" then None else Some(g.pre))
    ensures StripV(GroupText(g)) == GroupText(g) && StripV(['v'] + GroupText(g)) == GroupText(g)
  {
    PreOver(g);
    if g.build == "" {
      CutAbsent(PreText(g), '+');
    } else {
      CutFound(PreText(g), g.build, '+');
      assert GroupText(g)[0] == PreText(g)[0];
    }
    if g.pre == "" {
      CutAbsent(CoreText(g), '-');
    } else {
      CutFound(CoreText(g), g.pre, '-');
    }
    assert (['v'] + GroupText(g))[1..] == GroupText(g);
  }

  /** The search finds every member of the language. */
  lemma SubmatchComplete(s: string, g: Groups)
    requires InGrammar(s, g)
    ensures Submatch(s) == Some(g)
  {
    SubmatchOfText(g);
    CoreSplit(g);
    AssembleParts(g);
  }

  lemma AssembleParts(g: Groups)
    requires GroupsOk(g)
    ensures Assemble([g.major, g.minor, g.patch], if g.pre == "" then None else Some(g.pre),
                     if g.build == "" then None else Some(g.build)) == Some(g)
  {
  }

  lemma StripVText(s: string)
    ensures s == StripV(s) || s == ['v'] + StripV(s)
  {
  }

  lemma ThreeParts(core: string, a: string, b: string, c: string)
    requires Split(core, '.') == [a, b, c]
    ensures core == a + ['.'] + (b + ['.'] + c)
  {
    JoinSplit(core, '.');
    assert [a, b, c] == [a] + [b, c] && [b, c] == [b] + [c];
    JoinCons(a, [b, c], '.');
    JoinCons(b, [c], '.');
  }

  lemma AssembleMeans(nums: seq<string>, pre: Option<string>, build: Option<string>, g: Groups)
    requires Assemble(nums, pre, build) == Some(g)
    ensures GroupsOk(g) && nums == [g.major, g.minor, g.patch]
    ensures pre == (if g.pre == "" then None else Some(g.pre)) && build == (if g.build == "" then None else Some(g.build))
  {
    if pre.Some? { EmptyIsNoIdList(pre.value); }
    if build.Some? { EmptyIsNoIdList(build.value); }
  }

  lemma TextOfCuts(t: string, g: Groups)
    requires var (left, build) := Cut(t, '+'); var (core, pre) := Cut(left, '-');
      Assemble(Split(core, '.'), pre, build) == Some(g)
    ensures t == GroupText(g)
  {
    var (left, build) := Cut(t, '+');
    var (core, pre) := Cut(left, '-');
    AssembleMeans(Split(core, '.'), pre, build, g);
    ThreeParts(core, g.major, g.minor, g.patch);
    CutText(left, '-');
    assert left == PreText(g);
    CutText(t, '+');
  }

  /** What the search finds is a member of the language. */
  lemma SubmatchSound(s: string)
    requires Submatch(s).Some?
    ensures InGrammar(s, Submatch(s).value)
  {
    var g := Submatch(s).value;
    var (left, build) := Cut(StripV(s), '+');
    var (core, pre) := Cut(left, '-');
    AssembleMeans(Split(core, '.'), pre, build, g);
    TextOfCuts(StripV(s), g);
    StripVText(s);
  }

  /** The pattern has exactly one way to read a text, and the search finds it. */
  lemma SubmatchExactly(s: string, g: Groups)
    ensures Submatch(s) == Some(g) <==> InGrammar(s, g)
  {
    if InGrammar(s, g) {
      SubmatchComplete(s, g);
    }
    if Submatch(s) == Some(g) {
      SubmatchSound(s);
    }
  }

  // ---- parsing and printing ----

  /** An identifier with a superfluous leading zero, as far as 64-bit parsing recognises it. */
  predicate LeadingZero(id: string) {
    ParseInt64(id).Some? && |id| > 1 && id[0] == '0'
  }

  predicate ValidPreRelease(pr: string) {
    pr == "" || (var ids := Split(pr, '.'); forall i :: 0 <= i < |ids| ==> ids[i] != "" && !LeadingZero(ids[i]))
  }

  method ValidatePreRelease(pr: string) returns (ok: bool)
    ensures ok == ValidPreRelease(pr)
  {
    if pr == "" {
      return true;
    }
    var ids := Split(pr, '.');
    for k := 0 to |ids|
      invariant forall i :: 0 <= i < k ==> ids[i] != "" && !LeadingZero(ids[i])
    {
      if ids[k] == "" || LeadingZero(ids[k]) {
        return false;
      }
    }
    ok := true;
  }

  function Parse(raw: string): Option<SemVer> {
    match Submatch(Trim(raw))
    case None => None
    case Some(g) =>
      var major, minor, patch := ParseInt64(g.major), ParseInt64(g.minor), ParseInt64(g.patch);
      if major.Some? && minor.Some? && patch.Some? && ValidPreRelease(g.pre)
      then Some(SemVer(major.value, minor.value, patch.value, g.pre, g.build))
      else None
  }

  function Printed(v: SemVer): Groups {
    Groups(Itoa(v.major), Itoa(v.minor), Itoa(v.patch), v.preRelease, v.build)
  }

  function String(v: SemVer): string {
    GroupText(Printed(v))
  }

  predicate InRange(n: int) {
    0 <= n <= MAX_INT64
  }

  /** The versions that the parser can produce. */
  predicate WellFormed(v: SemVer) {
    && InRange(v.major) && InRange(v.minor) && InRange(v.patch)
    && (v.preRelease == "" || IsIdList(v.preRelease)) && (v.build == "" || IsIdList(v.build))
    && ValidPreRelease(v.preRelease)
  }

  lemma CanonicalParse(s: string)
    requires CanonicalDigits(s)
    ensures ParseInt64(s).Some? ==> InRange(ParseInt64(s).value) && Itoa(ParseInt64(s).value) == s
  {
    NatToStringOfValue(s);
    assert IsDigit(s[0]);
  }

  lemma PrintedOk(v: SemVer)
    requires WellFormed(v)
    ensures GroupsOk(Printed(v))
    ensures ParseInt64(Itoa(v.major)) == Some(v.major) && ParseInt64(Itoa(v.minor)) == Some(v.minor)
    ensures ParseInt64(Itoa(v.patch)) == Some(v.patch)
  {
    ParseIntOfItoa(v.major);
    ParseIntOfItoa(v.minor);
    ParseIntOfItoa(v.patch);
  }

  /** Parsing succeeds with `v` exactly on the printed form of a well-formed `v`, with or without a
      leading v and with any white space around it. */
  lemma ParseExactly(raw: string, v: SemVer)
    ensures Parse(raw) == Some(v) <==> WellFormed(v) && (Trim(raw) == String(v) || Trim(raw) == ['v'] + String(v))
  {
    var s := Trim(raw);
    if WellFormed(v) && (s == String(v) || s == ['v'] + String(v)) {
      PrintedOk(v);
      SubmatchComplete(s, Printed(v));
    }
    if Parse(raw) == Some(v) {
      var g := Submatch(s).value;
      SubmatchSound(s);
      CanonicalParse(g.major);
      CanonicalParse(g.minor);
      CanonicalParse(g.patch);
      assert Printed(v) == g;
    }
  }

  lemma GroupTextTrimmed(g: Groups)
    requires GroupsOk(g)
    ensures Trimmed(GroupText(g))
  {
    CoreOver(g);
    if g.pre != "" {
      IdListEnds(g.pre);
    }
    if g.build != "" {
      IdListEnds(g.build);
    }
    var text := GroupText(g);
    assert text[0] == CoreText(g)[0];
    assert text[|text| - 1] == (if g.build != "" then g.build[|g.build| - 1]
                                else if g.pre != "" then g.pre[|g.pre| - 1]
                                else g.patch[|g.patch| - 1]);
  }

  lemma IdListEnds(s: string)
    requires IsIdList(s) && s != ""
    ensures !IsSpace(s[|s| - 1])
  {
    IdListOver(s);
  }

  /** Every parsed version prints to a text that parses back to it. */
  lemma ParseOfString(raw: string)
    requires Parse(raw).Some?
    ensures Parse(String(Parse(raw).value)) == Parse(raw)
  {
    var v := Parse(raw).value;
    ParseExactly(raw, v);
    PrintedOk(v);
    GroupTextTrimmed(Printed(v));
    TrimFixesTrimmed(String(v));
    ParseExactly(String(v), v);
  }

  lemma ParseOfGroupText(g: Groups)
    requires GroupsOk(g) && ParseInt64(g.major).Some? && ParseInt64(g.minor).Some? && ParseInt64(g.patch).Some?
    ensures Parse(GroupText(g)).Some? <==> ValidPreRelease(g.pre)
  {
    GroupTextTrimmed(g);
    TrimFixesTrimmed(GroupText(g));
    SubmatchComplete(GroupText(g), g);
  }

  /** A numeric identifier with a superfluous leading zero, which section 9 of SemVer 2.0.0 forbids. */
  predicate ZeroLed(id: string) {
    AllDigits(id) && |id| > 1 && id[0] == '0'
  }

  lemma LeadingZeroMeans(id: string)
    ensures LeadingZero(id) <==> ZeroLed(id) && DigitsValue(id) <= MAX_INT64
  {
  }

  /** A version with such identifiers is refused exactly when the value of one of them fits 64 bits. */
  lemma LeadingZeroRefusedExactly(v: SemVer)
    requires InRange(v.major) && InRange(v.minor) && InRange(v.patch)
    requires (v.preRelease == "" || IsIdList(v.preRelease)) && (v.build == "" || IsIdList(v.build))
    ensures var ids := Split(v.preRelease, '.');
      Parse(String(v)).None? <==> exists i :: 0 <= i < |ids| && ZeroLed(ids[i]) && DigitsValue(ids[i]) <= MAX_INT64
  {
    PrintedParses(v);
    PreReleaseRefused(v.preRelease);
  }

  lemma PrintedParses(v: SemVer)
    requires InRange(v.major) && InRange(v.minor) && InRange(v.patch)
    requires (v.preRelease == "" || IsIdList(v.preRelease)) && (v.build == "" || IsIdList(v.build))
    ensures Parse(String(v)).Some? <==> ValidPreRelease(v.preRelease)
  {
    PrintedOk(v.(preRelease := ""));
    ParseOfGroupText(Printed(v));
  }

  lemma PreReleaseRefused(pr: string)
    requires pr == "" || IsIdList(pr)
    ensures var ids := Split(pr, '.');
      ValidPreRelease(pr) <==> forall i :: 0 <= i < |ids| ==> !(ZeroLed(ids[i]) && DigitsValue(ids[i]) <= MAX_INT64)
  {
    var ids := Split(pr, '.');
    forall i | 0 <= i < |ids| ensures LeadingZero(ids[i]) <==> ZeroLed(ids[i]) && DigitsValue(ids[i]) <= MAX_INT64 {
      LeadingZeroMeans(ids[i]);
    }
    if pr == "" {
      assert ids == [""];
    } else {
      assert forall i :: 0 <= i < |ids| ==> IsId(ids[i]);
    }
  }

  lemma SingleIdentifier(id: string)
    requires AllDigits(id) && id != ""
    ensures Split(id, '.') == [id] && IsIdList(id)
  {
    CutAbsent(id, '.');
    assert IsId(id);
  }

  lemma {:induction false} LeadingZeroKeepsValue(s: string)
    requires AllDigits(s)
    ensures AllDigits(['0'] + s) && DigitsValue(['0'] + s) == DigitsValue(s)
  {
    var t := ['0'] + s;
    if s == [] {
      assert t[..0] == [];
    } else {
      assert t[..|t| - 1] == ['0'] + s[..|s| - 1];
      LeadingZeroKeepsValue(s[..|s| - 1]);
    }
  }

  /** Such an identifier exists: a zero in front of 2 to the 63. */
  lemma LongLeadingZeroAccepted()
    ensures Parse(String(SemVer(1, 0, 0, ['0'] + NatToString(MAX_INT64 + 1), ""))).Some?
  {
    var id := ['0'] + NatToString(MAX_INT64 + 1);
    ValueOfNatToString(MAX_INT64 + 1);
    LeadingZeroKeepsValue(NatToString(MAX_INT64 + 1));
    SingleIdentifier(id);
    LeadingZeroRefusedExactly(SemVer(1, 0, 0, id, ""));
  }
}

/** Building the key under which a response is cached, and why two different requests never share
    one. Request values are bytes; the escaped text is ASCII. */
module CacheKey {
  import opened Text

  type Byte = x: int | 0 <= x < 256
  type Bytes = seq<Byte>

  // ---- url.QueryEscape ----

  predicate Unreserved(b: Byte) {
    || ('A' as int <= b <= 'Z' as int) || ('a' as int <= b <= 'z' as int) || ('0' as int <= b <= '9' as int)
    || b == '-' as int || b == '_' as int || b == '.' as int || b == '~' as int
  }

  function HexDigit(d: int): (c: char)
    requires 0 <= d < 16
    ensures '0' <= c <= '9' || 'A' <= c <= 'F'
  {
    if d < 10 then (d + '0' as int) as char else (d - 10 + 'A' as int) as char
  }

  function HexValue(c: char): int {
    if '0' <= c <= '9' then c as int - '0' as int else c as int - 'A' as int + 10
  }

  function EscapeByte(b: Byte): string {
    if Unreserved(b) then [b as char]
    else if b == ' ' as int then "+"
    else ['%', HexDigit(b / 16), HexDigit(b % 16)]
  }

  function QueryEscape(v: Bytes): string {
    if v == [] then "" else EscapeByte(v[0]) + QueryEscape(v[1..])
  }

  /** The reverse reading of an escaped text. */
  function Unescape(s: string): seq<int> {
    if s == "" then []
    else if s[0] == '%' && |s| >= 3 then [16 * HexValue(s[1]) + HexValue(s[2])] + Unescape(s[3..])
    else if s[0] == '+' then [' ' as int] + Unescape(s[1..])
    else [s[0] as int] + Unescape(s[1..])
  }

  lemma HexRoundTrip(d: int)
    requires 0 <= d < 16
    ensures HexValue(HexDigit(d)) == d
  {
  }

  lemma UnescapeStep(b: Byte, rest: string)
    ensures Unescape(EscapeByte(b) + rest) == [b] + Unescape(rest)
  {
    var s := EscapeByte(b) + rest;
    if Unreserved(b) || b == ' ' as int {
      assert s[1..] == rest;
    } else {
      assert s[0] == '%' && s[1] == HexDigit(b / 16) && s[2] == HexDigit(b % 16) && s[3..] == rest;
      HexRoundTrip(b / 16);
      HexRoundTrip(b % 16);
    }
  }

  /** Escaping loses nothing. */
  lemma {:induction false} EscapeRoundTrip(v: Bytes)
    ensures Unescape(QueryEscape(v)) == v
  {
    if v != [] {
      EscapeRoundTrip(v[1..]);
      UnescapeStep(v[0], QueryEscape(v[1..]));
    }
  }

  /** Escaped text never contains a separator of the key or of a query string. */
  lemma {:induction false} EscapeHasNoSeparator(v: Bytes, c: char)
    requires c == ':' || c == '=' || c == '&'
    ensures c !in QueryEscape(v)
  {
    if v != [] {
      EscapeHasNoSeparator(v[1..], c);
      assert c !in EscapeByte(v[0]);
    }
  }

  // ---- cutting at separators ----

  lemma StripPrefix(prefix: string, x: string, y: string)
    requires prefix + [':'] + x == prefix + [':'] + y
    ensures x == y
  {
    assert x == (prefix + [':'] + x)[|prefix| + 1..];
    assert y == (prefix + [':'] + y)[|prefix| + 1..];
  }

  // ---- the method ----

  function UpperChar(c: char): char {
    if 'a' <= c <= 'z' then (c as int - 32) as char else c
  }

  /** `strings.ToUpper` on ASCII text. */
  function Upper(s: string): (u: string)
    ensures |u| == |s| && forall i :: 0 <= i < |s| ==> u[i] == UpperChar(s[i])
  {
    if s == "" then "" else [UpperChar(s[0])] + Upper(s[1..])
  }

  /** The methods the middleware caches. */
  predicate Cacheable(m: string) {
    Upper(Trim(m)) == "GET" || Upper(Trim(m)) == "HEAD"
  }

  /** The case of the method makes no difference to a key with rules. */
  lemma MethodCaseIgnored()
    ensures Upper("get") == "GET" && Upper("head") == "HEAD" && Cacheable("get") && Cacheable("HEAD") && !Cacheable("POST")
  {
    TrimFixesTrimmed("get");
    TrimFixesTrimmed("HEAD");
    TrimFixesTrimmed("POST");
    assert Upper("POST")[0] == 'P';
  }

  lemma ColonSurvives(m: string)
    requires ':' in m
    ensures ':' in Upper(Trim(m)) && ':' in Upper(m)
  {
    TrimKeepsSolid(m, ':');
    var i :| 0 <= i < |Trim(m)| && Trim(m)[i] == ':';
    assert Upper(Trim(m))[i] == ':';
    var j :| 0 <= j < |m| && m[j] == ':';
    assert Upper(m)[j] == ':';
  }

  lemma UpperAddsNoColon(m: string)
    requires ':' !in m
    ensures ':' !in Upper(m)
  {
    forall i | 0 <= i < |m| ensures Upper(m)[i] != ':' {
      assert m[i] in m;
    }
  }

  lemma CacheableHasNoColon(m: string)
    requires Cacheable(m)
    ensures ':' !in m && ':' !in Upper(m)
  {
    if ':' in m {
      ColonSurvives(m);
    } else {
      UpperAddsNoColon(m);
    }
  }

  // ---- keys with rules ----

  /** A key rule: the name it contributes (its configured or default name) and whether it may be
      missing. */
  datatype KeyRule = KeyRule(name: string, optional: bool)

  datatype Request = Request(verb: string, path: string)

  function BaseKey(prefix: string, r: Request): string {
    prefix + [':'] + ("method=" + Upper(r.verb)) + [':'] + ("path=" + r.path)
  }

  /** The key with the rules' values appended, in the order of the rules. */
  function RuleKey(prefix: string, r: Request, rules: seq<KeyRule>, values: seq<Option<Bytes>>): string
    requires |rules| == |values|
  {
    if rules == [] then BaseKey(prefix, r)
    else
      var n := |rules| - 1;
      var front := RuleKey(prefix, r, rules[..n], values[..n]);
      if values[n].None? then front else front + [':'] + (rules[n].name + ['='] + QueryEscape(values[n].value))
  }

  predicate Complete(rules: seq<KeyRule>, values: seq<Option<Bytes>>)
    requires |rules| == |values|
  {
    forall i :: 0 <= i < |rules| ==> values[i].Some? || rules[i].optional
  }

  lemma JoinSnoc(parts: seq<string>, x: string, sep: char)
    requires parts != []
    ensures Join(parts + [x], sep) == Join(parts, sep) + [sep] + x
  {
    if |parts| == 1 {
      assert parts + [x] == [parts[0], x];
    } else {
      assert (parts + [x])[1..] == parts[1..] + [x];
      JoinSnoc(parts[1..], x, sep);
    }
  }

  /** `buildCacheKey` with key rules: it fails exactly when a required value is missing, and the parts
      it collects in its loop join to the specified key. */
  method BuildCacheKey(prefix: string, r: Request, rules: seq<KeyRule>, values: seq<Option<Bytes>>) returns (key: Option<string>)
    requires |rules| == |values|
    ensures key.Some? <==> Complete(rules, values)
    ensures key.Some? ==> key.value == RuleKey(prefix, r, rules, values)
    ensures key.Some? ==> prefix + [':'] + ("method=" + Upper(r.verb)) + [':'] + ("path=" + r.path) <= key.value
  {
    KeyBeginsWithBase(prefix, r, rules, values);
    var parts := [prefix, "method=" + Upper(r.verb), "path=" + r.path];
    JoinsToBase(prefix, r);
    var i := 0;
    while i < |rules|
      invariant 0 <= i <= |rules| && parts != []
      invariant forall j :: 0 <= j < i ==> values[j].Some? || rules[j].optional
      invariant Join(parts, ':') == RuleKey(prefix, r, rules[..i], values[..i])
    {
      assert rules[..i + 1][..i] == rules[..i] && values[..i + 1][..i] == values[..i];
      if values[i].None? {
        if !rules[i].optional {
          return None;
        }
      } else {
        var part := rules[i].name + ['='] + QueryEscape(values[i].value);
        JoinSnoc(parts, part, ':');
        parts := parts + [part];
      }
      i := i + 1;
    }
    assert rules[..i] == rules && values[..i] == values;
    key := Some(Join(parts, ':'));
  }

  lemma {:induction false} KeyBeginsWithBase(prefix: string, r: Request, rules: seq<KeyRule>, values: seq<Option<Bytes>>)
    requires |rules| == |values|
    ensures prefix + [':'] + ("method=" + Upper(r.verb)) + [':'] + ("path=" + r.path) <= RuleKey(prefix, r, rules, values)
  {
    if rules != [] {
      var n := |rules| - 1;
      KeyBeginsWithBase(prefix, r, rules[..n], values[..n]);
    }
  }

  lemma JoinsToBase(prefix: string, r: Request)
    ensures Join([prefix, "method=" + Upper(r.verb), "path=" + r.path], ':') == BaseKey(prefix, r)
  {
    var a, b, c := prefix, "method=" + Upper(r.verb), "path=" + r.path;
    JoinSnoc([a], b, ':');
    JoinSnoc([a, b], c, ':');
    assert [a] + [b] == [a, b] && [a, b] + [c] == [a, b, c];
  }

  lemma BaseKeyInjective(prefix: string, r: Request, q: Request)
    requires Cacheable(r.verb) && Cacheable(q.verb) && BaseKey(prefix, r) == BaseKey(prefix, q)
    ensures Upper(r.verb) == Upper(q.verb) && r.path == q.path
  {
    CacheableHasNoColon(r.verb);
    CacheableHasNoColon(q.verb);
    LabelledPartsInjective(prefix, Upper(r.verb), r.path, Upper(q.verb), q.path);
  }

  lemma LabelledPartsInjective(prefix: string, m: string, p: string, n: string, q: string)
    requires ':' !in m && ':' !in n
    requires prefix + [':'] + ("method=" + m) + [':'] + ("path=" + p) == prefix + [':'] + ("method=" + n) + [':'] + ("path=" + q)
    ensures m == n && p == q
  {
    var a, b, x, y := "method=" + m, "method=" + n, "path=" + p, "path=" + q;
    assert prefix + [':'] + a + [':'] + x == prefix + [':'] + (a + [':'] + x);
    assert prefix + [':'] + b + [':'] + y == prefix + [':'] + (b + [':'] + y);
    StripPrefix(prefix, a + [':'] + x, b + [':'] + y);
    SplitFirst(a, x, b, y, ':');
    assert m == a[7..] && n == b[7..] && p == x[5..] && q == y[5..];
  }

  lemma EscapeInjective(u: Bytes, v: Bytes)
    requires QueryEscape(u) == QueryEscape(v)
    ensures u == v
  {
    EscapeRoundTrip(u);
    EscapeRoundTrip(v);
  }

  /** One rule's contribution can be cut off again, whatever its name and the text before it hold. */
  lemma LastValueRecovered(a: string, b: string, name: string, u: Bytes, v: Bytes)
    requires a + [':'] + (name + ['='] + QueryEscape(u)) == b + [':'] + (name + ['='] + QueryEscape(v))
    ensures a == b && u == v
  {
    var x, y := a + [':'] + name, b + [':'] + name;
    assert a + [':'] + (name + ['='] + QueryEscape(u)) == x + ['='] + QueryEscape(u);
    assert b + [':'] + (name + ['='] + QueryEscape(v)) == y + ['='] + QueryEscape(v);
    EscapeHasNoSeparator(u, '=');
    EscapeHasNoSeparator(v, '=');
    SplitLast(x, QueryEscape(u), y, QueryEscape(v), '=');
    EscapeInjective(u, v);
    assert |a| == |b|;
    assert a == x[..|a|] == y[..|a|] == b;
  }

  lemma PeelLastRule(prefix: string, r: Request, q: Request, rules: seq<KeyRule>, u: seq<Option<Bytes>>, v: seq<Option<Bytes>>)
    requires rules != [] && |rules| == |u| == |v| && u[|rules| - 1].Some? && v[|rules| - 1].Some?
    requires RuleKey(prefix, r, rules, u) == RuleKey(prefix, q, rules, v)
    ensures var n := |rules| - 1;
      RuleKey(prefix, r, rules[..n], u[..n]) == RuleKey(prefix, q, rules[..n], v[..n]) && u[n] == v[n]
  {
    var n := |rules| - 1;
    LastValueRecovered(RuleKey(prefix, r, rules[..n], u[..n]), RuleKey(prefix, q, rules[..n], v[..n]), rules[n].name,
                       u[n].value, v[n].value);
  }

  lemma EqualByParts(u: seq<Option<Bytes>>, v: seq<Option<Bytes>>, n: nat)
    requires |u| == |v| == n + 1 && u[..n] == v[..n] && u[n] == v[n]
    ensures u == v
  {
    assert u == u[..n] + [u[n]] && v == v[..n] + [v[n]];
  }

  /** Without optional rules the key determines the upper-cased method, the path and every rule value,
      even when paths and names contain ':' or '='. */
  lemma {:induction false} RuleKeyInjective(prefix: string, r: Request, q: Request, rules: seq<KeyRule>,
                                            u: seq<Option<Bytes>>, v: seq<Option<Bytes>>)
    requires |rules| == |u| == |v| && (forall i :: 0 <= i < |rules| ==> u[i].Some? && v[i].Some?)
    requires Cacheable(r.verb) && Cacheable(q.verb)
    requires RuleKey(prefix, r, rules, u) == RuleKey(prefix, q, rules, v)
    ensures Upper(r.verb) == Upper(q.verb) && r.path == q.path && u == v
    decreases |rules|
  {
    if rules == [] {
      BaseKeyInjective(prefix, r, q);
    } else {
      var n := |rules| - 1;
      PeelLastRule(prefix, r, q, rules, u, v);
      RuleKeyInjective(prefix, r, q, rules[..n], u[..n], v[..n]);
      EqualByParts(u, v, n);
    }
  }

  // ---- optional rules ----

  /** Rule names that cannot be mistaken for one another. */
  predicate PlainNames(rules: seq<KeyRule>) {
    && (forall i :: 0 <= i < |rules| ==> ':' !in rules[i].name && '=' !in rules[i].name)
    && (forall i, j :: 0 <= i < j < |rules| ==> rules[i].name != rules[j].name)
  }

  predicate NoneNamedPath(rules: seq<KeyRule>) {
    forall i :: 0 <= i < |rules| ==> rules[i].name != "path"
  }

  /** The first rule fences the path off, or the path cannot be taken for a rule. */
  predicate Fenced(r: Request, rules: seq<KeyRule>, values: seq<Option<Bytes>>)
    requires |rules| == |values|
  {
    (rules != [] && values[0].Some?) || (':' !in r.path && NoneNamedPath(rules))
  }

  /** The name and the text of the last part of a key. */
  function LastPart(r: Request, rules: seq<KeyRule>, values: seq<Option<Bytes>>): (string, string)
    requires |rules| == |values|
  {
    if rules == [] then ("path", r.path)
    else
      var n := |rules| - 1;
      if values[n].Some? then (rules[n].name, QueryEscape(values[n].value)) else LastPart(r, rules[..n], values[..n])
  }

  /** What the key is without its last part. */
  function KeyFront(prefix: string, r: Request, rules: seq<KeyRule>, values: seq<Option<Bytes>>): string
    requires |rules| == |values|
  {
    if rules == [] then prefix + [':'] + ("method=" + Upper(r.verb))
    else
      var n := |rules| - 1;
      if values[n].Some? then RuleKey(prefix, r, rules[..n], values[..n]) else KeyFront(prefix, r, rules[..n], values[..n])
  }

  lemma {:induction false} KeyHasLastPart(prefix: string, r: Request, rules: seq<KeyRule>, values: seq<Option<Bytes>>)
    requires |rules| == |values| && PlainNames(rules) && Fenced(r, rules, values)
    ensures var (name, text) := LastPart(r, rules, values);
      && RuleKey(prefix, r, rules, values) == KeyFront(prefix, r, rules, values) + [':'] + (name + ['='] + text)
      && ':' !in name && ':' !in text && '=' !in name
    decreases |rules|
  {
    if rules == [] {
      assert "path=" + r.path == "path" + ['='] + r.path;
    } else {
      var n := |rules| - 1;
      if values[n].Some? {
        EscapeHasNoSeparator(values[n].value, ':');
      } else {
        KeyHasLastPart(prefix, r, rules[..n], values[..n]);
      }
    }
  }

  lemma SameLastName(prefix: string, r: Request, q: Request, rules: seq<KeyRule>, u: seq<Option<Bytes>>, v: seq<Option<Bytes>>)
    requires |rules| == |u| == |v| && PlainNames(rules) && Fenced(r, rules, u) && Fenced(q, rules, v)
    requires RuleKey(prefix, r, rules, u) == RuleKey(prefix, q, rules, v)
    ensures LastPart(r, rules, u).0 == LastPart(q, rules, v).0
  {
    KeyHasLastPart(prefix, r, rules, u);
    KeyHasLastPart(prefix, q, rules, v);
    var (m, x) := LastPart(r, rules, u);
    var (n, y) := LastPart(q, rules, v);
    SplitLast(KeyFront(prefix, r, rules, u), m + ['='] + x, KeyFront(prefix, q, rules, v), n + ['='] + y, ':');
    SplitFirst(m, x, n, y, '=');
  }

  lemma {:induction false} LastNameIsEarlier(r: Request, rules: seq<KeyRule>, values: seq<Option<Bytes>>)
    requires |rules| == |values|
    ensures var name := LastPart(r, rules, values).0;
      || (exists i :: 0 <= i < |rules| && rules[i].name == name)
      || (name == "path" && (rules == [] || values[0].None?))
    decreases |rules|
  {
    if rules != [] {
      var n := |rules| - 1;
      LastNameIsEarlier(r, rules[..n], values[..n]);
    }
  }

  /** The same rules are present in two requests with the same key, seen from the last rule. */
  lemma SamePresence(prefix: string, r: Request, q: Request, rules: seq<KeyRule>, u: seq<Option<Bytes>>, v: seq<Option<Bytes>>)
    requires rules != [] && |rules| == |u| == |v| && PlainNames(rules) && Fenced(r, rules, u) && Fenced(q, rules, v)
    requires RuleKey(prefix, r, rules, u) == RuleKey(prefix, q, rules, v)
    ensures u[|rules| - 1].Some? ==> v[|rules| - 1].Some?
  {
    var n := |rules| - 1;
    SameLastName(prefix, r, q, rules, u, v);
    LastNameIsEarlier(q, rules[..n], v[..n]);
  }

  /** Then the key determines everything, including which values were missing. */
  lemma {:induction false} FencedKeyInjective(prefix: string, r: Request, q: Request, rules: seq<KeyRule>,
                                              u: seq<Option<Bytes>>, v: seq<Option<Bytes>>)
    requires |rules| == |u| == |v| && PlainNames(rules) && Fenced(r, rules, u) && Fenced(q, rules, v)
    requires Cacheable(r.verb) && Cacheable(q.verb)
    requires RuleKey(prefix, r, rules, u) == RuleKey(prefix, q, rules, v)
    ensures Upper(r.verb) == Upper(q.verb) && r.path == q.path && u == v
    decreases |rules|
  {
    if rules == [] {
      BaseKeyInjective(prefix, r, q);
    } else {
      var n := |rules| - 1;
      SamePresence(prefix, r, q, rules, u, v);
      SamePresence(prefix, q, r, rules, v, u);
      if u[n].Some? {
        PeelLastRule(prefix, r, q, rules, u, v);
      }
      if n == 0 && u[0].Some? {
        BaseKeyInjective(prefix, r, q);
      } else {
        FencedKeyInjective(prefix, r, q, rules[..n], u[..n], v[..n]);
      }
      EqualByParts(u, v, n);
    }
  }

  /** With optional rules the key still determines everything, including which values were missing,
      when rule names are distinct, hold no ':' or '=' and are not "path", and paths hold no ':'. */
  lemma OptionalKeyInjective(prefix: string, r: Request, q: Request, rules: seq<KeyRule>, u: seq<Option<Bytes>>, v: seq<Option<Bytes>>)
    requires |rules| == |u| == |v| && PlainNames(rules) && NoneNamedPath(rules) && ':' !in r.path && ':' !in q.path
    requires Cacheable(r.verb) && Cacheable(q.verb)
    requires RuleKey(prefix, r, rules, u) == RuleKey(prefix, q, rules, v)
    ensures Upper(r.verb) == Upper(q.verb) && r.path == q.path && u == v
  {
    FencedKeyInjective(prefix, r, q, rules, u, v);
  }

  // ---- exactly which rule lists keep requests apart ----

  /** A request together with the values of its rules. */
  datatype Keyed = Keyed(request: Request, values: seq<Option<Bytes>>)

  /** A key is built for it. */
  predicate HasKey(rules: seq<KeyRule>, k: Keyed) {
    |k.values| == |rules| && Complete(rules, k.values) && Cacheable(k.request.verb)
  }

  function KeyOf(prefix: string, rules: seq<KeyRule>, k: Keyed): string
    requires HasKey(rules, k)
  {
    RuleKey(prefix, k.request, rules, k.values)
  }

  predicate Agree(a: Keyed, b: Keyed) {
    Upper(a.request.verb) == Upper(b.request.verb) && a.request.path == b.request.path && a.values == b.values
  }

  /** Any two requests that get the same key agree in everything. */
  ghost predicate Injective(prefix: string, rules: seq<KeyRule>) {
    forall a, b :: HasKey(rules, a) && HasKey(rules, b) && KeyOf(prefix, rules, a) == KeyOf(prefix, rules, b) ==> Agree(a, b)
  }

  const X: Bytes := ['x' as int]

  /** The values of two requests that share a key when the first rule may be missing. */
  function Filled(first: Option<Bytes>, n: nat): seq<Option<Bytes>> {
    [first] + seq(n, _ => Some(X))
  }

  function Imitating(rules: seq<KeyRule>): Keyed
    requires rules != []
  {
    Keyed(Request("GET", "/p:" + rules[0].name + "=x"), Filled(None, |rules| - 1))
  }

  function Imitated(rules: seq<KeyRule>): Keyed
    requires rules != []
  {
    Keyed(Request("GET", "/p"), Filled(Some(X), |rules| - 1))
  }

  /** A missing first value can be imitated by the path: two different requests, one key. */
  lemma {:induction false} OptionalRuleCollides(prefix: string, rules: seq<KeyRule>)
    requires rules != []
    ensures RuleKey(prefix, Imitating(rules).request, rules, Imitating(rules).values)
         == RuleKey(prefix, Imitated(rules).request, rules, Imitated(rules).values)
    decreases |rules|
  {
    var n := |rules| - 1;
    var u, v := Filled(None, n), Filled(Some(X), n);
    if n == 0 {
      FirstRuleCollides(prefix, rules[0].name);
      assert rules[..0] == [] && u[..0] == [] && v[..0] == [];
    } else {
      OptionalRuleCollides(prefix, rules[..n]);
      assert u[..n] == Filled(None, n - 1) && v[..n] == Filled(Some(X), n - 1);
    }
  }

  lemma FirstRuleCollides(prefix: string, name: string)
    ensures BaseKey(prefix, Request("GET", "/p:" + name + "=x"))
         == BaseKey(prefix, Request("GET", "/p")) + [':'] + (name + ['='] + QueryEscape(X))
  {
    assert X[1..] == [];
    assert QueryEscape(X) == "x";
  }

  lemma GetIsCacheable()
    ensures Cacheable("GET")
  {
    TrimFixesTrimmed("GET");
  }

  lemma FirstRequiredAgree(prefix: string, rules: seq<KeyRule>, a: Keyed, b: Keyed)
    requires PlainNames(rules) && (rules == [] || !rules[0].optional)
    requires HasKey(rules, a) && HasKey(rules, b) && KeyOf(prefix, rules, a) == KeyOf(prefix, rules, b)
    ensures Agree(a, b)
  {
    if rules == [] {
      BaseKeyInjective(prefix, a.request, b.request);
    } else {
      FencedKeyInjective(prefix, a.request, b.request, rules, a.values, b.values);
    }
  }

  lemma BothHaveKeys(rules: seq<KeyRule>)
    requires rules != [] && rules[0].optional
    ensures HasKey(rules, Imitating(rules)) && HasKey(rules, Imitated(rules)) && !Agree(Imitating(rules), Imitated(rules))
  {
    GetIsCacheable();
    assert Imitating(rules).values[0] != Imitated(rules).values[0];
  }

  lemma FirstOptionalCollides(prefix: string, rules: seq<KeyRule>)
    requires rules != [] && rules[0].optional
    ensures !Injective(prefix, rules)
  {
    BothHaveKeys(rules);
    OptionalRuleCollides(prefix, rules);
    assert KeyOf(prefix, rules, Imitating(rules)) == KeyOf(prefix, rules, Imitated(rules));
  }

  /** For distinct names without ':' or '=', the key is injective over all paths exactly when there
      are no rules or the first one is required. */
  lemma OptionalRulesExactly(prefix: string, rules: seq<KeyRule>)
    requires PlainNames(rules)
    ensures Injective(prefix, rules) <==> rules == [] || !rules[0].optional
  {
    if rules == [] || !rules[0].optional {
      forall a, b | HasKey(rules, a) && HasKey(rules, b) && KeyOf(prefix, rules, a) == KeyOf(prefix, rules, b) ensures Agree(a, b) {
        FirstRequiredAgree(prefix, rules, a, b);
      }
    } else {
      FirstOptionalCollides(prefix, rules);
    }
  }

  // ---- keys without rules ----

  function PairText(p: (Bytes, Bytes)): string {
    QueryEscape(p.0) + ['='] + QueryEscape(p.1)
  }

  function PairTexts(pairs: seq<(Bytes, Bytes)>): (ts: seq<string>)
    ensures |ts| == |pairs| && forall i :: 0 <= i < |pairs| ==> ts[i] == PairText(pairs[i])
  {
    seq(|pairs|, i requires 0 <= i < |pairs| => PairText(pairs[i]))
  }

  /** `url.Values.Encode` on the pairs in its sorted order. */
  function EncodePairs(pairs: seq<(Bytes, Bytes)>): string {
    Join(PairTexts(pairs), '&')
  }

  lemma PairHasNoSeparator(p: (Bytes, Bytes), c: char)
    requires c == '&' || c == ':'
    ensures c !in PairText(p)
  {
    EscapeHasNoSeparator(p.0, c);
    EscapeHasNoSeparator(p.1, c);
  }

  lemma PairInjective(p: (Bytes, Bytes), q: (Bytes, Bytes))
    requires PairText(p) == PairText(q)
    ensures p == q
  {
    EscapeHasNoSeparator(p.0, '=');
    EscapeHasNoSeparator(q.0, '=');
    SplitFirst(QueryEscape(p.0), QueryEscape(p.1), QueryEscape(q.0), QueryEscape(q.1), '=');
    EscapeInjective(p.0, q.0);
    EscapeInjective(p.1, q.1);
  }

  lemma {:induction false} JoinAddsOnlySeparators(parts: seq<string>, sep: char, c: char)
    requires c != sep && forall i :: 0 <= i < |parts| ==> c !in parts[i]
    ensures c !in Join(parts, sep)
  {
    if |parts| > 1 {
      JoinAddsOnlySeparators(parts[1..], sep, c);
    }
  }

  lemma EncodePairsHasNoColon(pairs: seq<(Bytes, Bytes)>)
    ensures ':' !in EncodePairs(pairs)
  {
    forall i | 0 <= i < |pairs| ensures ':' !in PairTexts(pairs)[i] {
      PairHasNoSeparator(pairs[i], ':');
    }
    JoinAddsOnlySeparators(PairTexts(pairs), '&', ':');
  }

  lemma TextsRecovered(pairs: seq<(Bytes, Bytes)>)
    requires pairs != []
    ensures Split(EncodePairs(pairs), '&') == PairTexts(pairs) && EncodePairs(pairs) != ""
  {
    forall i | 0 <= i < |pairs| ensures '&' !in PairTexts(pairs)[i] {
      PairHasNoSeparator(pairs[i], '&');
    }
    SplitJoin(PairTexts(pairs), '&');
    assert |PairTexts(pairs)[0]| > 0;
  }

  /** The canonical query determines the sorted list of pairs. */
  lemma EncodePairsInjective(a: seq<(Bytes, Bytes)>, b: seq<(Bytes, Bytes)>)
    requires EncodePairs(a) == EncodePairs(b)
    ensures a == b
  {
    if a != [] {
      TextsRecovered(a);
    }
    if b != [] {
      TextsRecovered(b);
    }
    if a != [] && b != [] {
      assert PairTexts(a) == PairTexts(b);
      forall i | 0 <= i < |a| ensures a[i] == b[i] {
        assert PairTexts(a)[i] == PairTexts(b)[i];
        PairInjective(a[i], b[i]);
      }
    }
  }

  function PlainKey(prefix: string, r: Request, query: seq<(Bytes, Bytes)>): string {
    prefix + [':'] + (r.verb + [':'] + r.path) + [':'] + EncodePairs(query)
  }

  /** Without rules the key determines the method, the path and the query pairs. */
  lemma PlainKeyInjective(prefix: string, r: Request, q: Request, u: seq<(Bytes, Bytes)>, v: seq<(Bytes, Bytes)>)
    requires Cacheable(r.verb) && Cacheable(q.verb) && PlainKey(prefix, r, u) == PlainKey(prefix, q, v)
    ensures r == q && u == v
  {
    EncodePairsHasNoColon(u);
    EncodePairsHasNoColon(v);
    SplitLast(prefix + [':'] + (r.verb + [':'] + r.path), EncodePairs(u), prefix + [':'] + (q.verb + [':'] + q.path), EncodePairs(v), ':');
    EncodePairsInjective(u, v);
    StripPrefix(prefix, r.verb + [':'] + r.path, q.verb + [':'] + q.path);
    CacheableHasNoColon(r.verb);
    CacheableHasNoColon(q.verb);
    SplitFirst(r.verb, r.path, q.verb, q.path, ':');
  }
}

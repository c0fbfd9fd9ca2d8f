/** The audit log: records of many streams interleaved in one sequence, each stream a hash chain.
    Marshalling and SHA-256 together are a function parameter `hash` from a record to its digest, or
    to nothing when the payload cannot be marshalled. */
module AuditChain {
  import opened Text
  import opened Jobs

  type Uint64 = x: nat | x < 0x1_0000_0000_0000_0000

  /** `P` is the payload. */
  datatype Record<P> = Record(
    streamId: string, sequence: Uint64, kind: string, requirement: string, action: string, actor: string,
    tenantId: string, occurredAt: Time, payload: P, prevDigest: string, digest: string)

  type Hash<!P> = Record<P> -> Option<string>

  predicate Valid<P>(r: Record<P>) {
    r.streamId != "" && r.sequence != 0 && r.action != "" && r.occurredAt != 0 && r.kind != "" && r.requirement != ""
  }

  function CanonicalDigest<P>(hash: Hash<P>, r: Record<P>): Option<string> {
    if Valid(r) then hash(r.(digest := "")) else None
  }

  /** Seal stores the digest in the record, or fails and leaves it alone. */
  function Seal<P>(hash: Hash<P>, r: Record<P>): (s: Option<Record<P>>)
    ensures s.Some? <==> Valid(r) && hash(r.(digest := "")).Some?
    ensures s.Some? ==> Some(s.value.digest) == hash(r.(digest := "")) && s.value.(digest := r.digest) == r
  {
    match CanonicalDigest(hash, r)
    case Some(d) => Some(r.(digest := d))
    case None => None
  }

  // ---- what an accepted log is, stated on the records of one stream at a time ----

  /** The records of one stream, in the order of the log. */
  function Stream<P>(log: seq<Record<P>>, s: string): seq<Record<P>> {
    if log == [] then []
    else
      var front, last := log[..|log| - 1], log[|log| - 1];
      if last.streamId == s then Stream(front, s) + [last] else Stream(front, s)
  }

  function LastDigest<P>(h: seq<Record<P>>): string {
    if h == [] then "" else h[|h| - 1].digest
  }

  predicate Linked<P>(hash: Hash<P>, h: seq<Record<P>>, i: nat)
    requires i < |h|
  {
    && h[i].sequence == i + 1
    && h[i].prevDigest == (if i == 0 then "" else h[i - 1].digest)
    && CanonicalDigest(hash, h[i]) == Some(h[i].digest)
  }

  /** A history 1..n in which every record carries the digest of the one before it and its own. */
  predicate IsChain<P>(hash: Hash<P>, h: seq<Record<P>>) {
    forall i :: 0 <= i < |h| ==> Linked(hash, h, i)
  }

  ghost predicate AllChains<P>(hash: Hash<P>, log: seq<Record<P>>) {
    forall s: string :: IsChain(hash, Stream(log, s))
  }

  /** SHA-256 as the log relies on it: no collisions, and never the empty text. */
  ghost predicate CollisionFree<P(!new)>(hash: Hash<P>) {
    && (forall a, b :: hash(a).Some? && hash(a) == hash(b) ==> a == b)
    && (forall a :: hash(a) != Some(""))
  }

  lemma StreamSnoc<P>(log: seq<Record<P>>, r: Record<P>, s: string)
    ensures Stream(log + [r], s) == if r.streamId == s then Stream(log, s) + [r] else Stream(log, s)
  {
    assert (log + [r])[..|log|] == log;
  }

  lemma ChainSnoc<P>(hash: Hash<P>, h: seq<Record<P>>, r: Record<P>)
    ensures IsChain(hash, h + [r]) <==>
              IsChain(hash, h) && r.sequence == |h| + 1 && r.prevDigest == LastDigest(h) && CanonicalDigest(hash, r) == Some(r.digest)
  {
    var g := h + [r];
    forall i | 0 <= i < |h| ensures Linked(hash, g, i) <==> Linked(hash, h, i) {
    }
    assert Linked(hash, g, |h|) <==> r.sequence == |h| + 1 && r.prevDigest == LastDigest(h) && CanonicalDigest(hash, r) == Some(r.digest);
  }

  /** Appending: the log stays good exactly when the new record continues its own stream. */
  lemma AppendIff<P>(hash: Hash<P>, log: seq<Record<P>>, r: Record<P>)
    ensures AllChains(hash, log + [r]) <==>
              && AllChains(hash, log)
              && r.sequence == |Stream(log, r.streamId)| + 1
              && r.prevDigest == LastDigest(Stream(log, r.streamId))
              && CanonicalDigest(hash, r) == Some(r.digest)
  {
    forall s: string ensures Stream(log + [r], s) == if r.streamId == s then Stream(log, s) + [r] else Stream(log, s) {
      StreamSnoc(log, r, s);
    }
    ChainSnoc(hash, Stream(log, r.streamId), r);
    if AllChains(hash, log + [r]) {
      forall s: string ensures IsChain(hash, Stream(log, s)) {
        assert IsChain(hash, Stream(log + [r], s));
      }
      assert IsChain(hash, Stream(log + [r], r.streamId));
    }
  }

  // ---- the verifier ----

  datatype Failure = InvalidRecord | SequenceMismatch | PrevDigestMismatch | MarshalFailed | DigestMismatch

  function Lookup<V>(m: map<string, V>, key: string, zero: V): V {
    if key in m then m[key] else zero
  }

  /** The two maps after a good log: the length and the last digest of every stream. */
  ghost predicate Summarises<P>(log: seq<Record<P>>, perStream: map<string, Uint64>, prev: map<string, string>) {
    forall s: string ::
      && Lookup(perStream, s, 0) == |Stream(log, s)|
      && Lookup(prev, s, "") == LastDigest(Stream(log, s))
  }

  lemma SummaryStep<P>(log: seq<Record<P>>, r: Record<P>, perStream: map<string, Uint64>, prev: map<string, string>)
    requires Summarises(log, perStream, prev) && r.sequence == |Stream(log, r.streamId)| + 1
    ensures Summarises(log + [r], perStream[r.streamId := r.sequence], prev[r.streamId := r.digest])
  {
    var counts, digests := perStream[r.streamId := r.sequence], prev[r.streamId := r.digest];
    forall s: string
      ensures Lookup(counts, s, 0) == |Stream(log + [r], s)| && Lookup(digests, s, "") == LastDigest(Stream(log + [r], s))
    {
      StreamSnoc(log, r, s);
      assert s != r.streamId ==> Lookup(counts, s, 0) == Lookup(perStream, s, 0) && Lookup(digests, s, "") == Lookup(prev, s, "");
    }
  }

  predicate Incomplete<P>(r: Record<P>) {
    || r.streamId == "" || r.sequence == 0 || r.kind == "" || r.requirement == "" || r.action == "" || r.occurredAt == 0
  }

  /** What each failure says about a record in a stream of `seen` records that ends with `prev`: the
      first of the five checks that it does not pass. */
  predicate Explains<P>(f: Failure, hash: Hash<P>, r: Record<P>, seen: nat, prev: string) {
    match f
    case InvalidRecord => Incomplete(r)
    case SequenceMismatch => !Incomplete(r) && r.sequence != seen + 1
    case PrevDigestMismatch => !Incomplete(r) && r.sequence == seen + 1 && r.prevDigest != prev
    case MarshalFailed =>
      !Incomplete(r) && r.sequence == seen + 1 && r.prevDigest == prev && hash(r.(digest := "")).None?
    case DigestMismatch =>
      && !Incomplete(r) && r.sequence == seen + 1 && r.prevDigest == prev
      && hash(r.(digest := "")).Some? && hash(r.(digest := "")) != Some(r.digest)
  }

  /** The checks on one record against what its stream is known to be. The 64-bit successor of the
      last sequence number wraps to 0, which no valid record carries. */
  method CheckRecord<P>(hash: Hash<P>, r: Record<P>, seen: Uint64, prev: string) returns (f: Option<Failure>)
    ensures f.None? <==> r.sequence == seen + 1 && r.prevDigest == prev && CanonicalDigest(hash, r) == Some(r.digest)
    ensures f.Some? ==> Explains(f.value, hash, r, seen, prev)
  {
    if !Valid(r) {
      return Some(InvalidRecord);
    }
    var expected: Uint64 := (seen + 1) % 0x1_0000_0000_0000_0000;
    if r.sequence != expected {
      return Some(SequenceMismatch);
    }
    if r.prevDigest != prev {
      return Some(PrevDigestMismatch);
    }
    var digest := CanonicalDigest(hash, r);
    if digest.None? {
      return Some(MarshalFailed);
    }
    f := if r.digest == digest.value then None else Some(DigestMismatch);
  }

  /** A log as the caller passes it; `None` is a nil record. */
  predicate AllPresent<P>(log: seq<Option<Record<P>>>) {
    forall i :: 0 <= i < |log| ==> log[i].Some?
  }

  function Records<P>(log: seq<Option<Record<P>>>): (rs: seq<Record<P>>)
    requires AllPresent(log)
    ensures |rs| == |log| && forall i :: 0 <= i < |log| ==> rs[i] == log[i].value
  {
    seq(|log|, i requires 0 <= i < |log| => log[i].value)
  }

  /** No record is nil and every stream is a chain. */
  ghost predicate Acceptable<P>(hash: Hash<P>, log: seq<Option<Record<P>>>) {
    AllPresent(log) && AllChains(hash, Records(log))
  }

  lemma AcceptableSnoc<P>(hash: Hash<P>, log: seq<Option<Record<P>>>, n: nat)
    requires n < |log| && Acceptable(hash, log[..n])
    ensures log[n].None? ==> !Acceptable(hash, log[..n + 1])
    ensures log[n].Some? ==> AllPresent(log[..n + 1]) && Records(log[..n + 1]) == Records(log[..n]) + [log[n].value]
  {
    assert log[..n + 1][n] == log[n];
  }

  lemma AcceptablePrefix<P>(hash: Hash<P>, log: seq<Option<Record<P>>>, n: nat)
    requires n <= |log|
    ensures Acceptable(hash, log) ==> Acceptable(hash, log[..n])
  {
    if Acceptable(hash, log) {
      PrefixOfGood(hash, Records(log), n);
      assert Records(log[..n]) == Records(log)[..n];
    }
  }

  /** VerifyChain accepts exactly the logs without nil records in which every stream is a chain 1..n. A
      refusal names the first record after which that stops being true. */
  method VerifyChain<P>(hash: Hash<P>, log: seq<Option<Record<P>>>) returns (failure: Option<(nat, Failure)>)
    ensures failure.None? <==> Acceptable(hash, log)
    ensures failure.Some? ==>
      && failure.value.0 < |log|
      && Acceptable(hash, log[..failure.value.0]) && !Acceptable(hash, log[..failure.value.0 + 1])
      && match log[failure.value.0]
         case None => failure.value.1 == InvalidRecord
         case Some(r) =>
           var stream := Stream(Records(log[..failure.value.0]), r.streamId);
           Explains(failure.value.1, hash, r, |stream|, LastDigest(stream))
  {
    var perStream: map<string, Uint64> := map[];
    var prev: map<string, string> := map[];
    var i := 0;
    while i < |log|
      invariant 0 <= i <= |log|
      invariant Acceptable(hash, log[..i])
      invariant Summarises(Records(log[..i]), perStream, prev)
    {
      AcceptableSnoc(hash, log, i);
      AcceptablePrefix(hash, log, i + 1);
      if log[i].None? {
        return Some((i, InvalidRecord));
      }
      var r := log[i].value;
      AppendIff(hash, Records(log[..i]), r);
      var f := CheckRecord(hash, r, Lookup(perStream, r.streamId, 0), Lookup(prev, r.streamId, ""));
      if f.Some? {
        return Some((i, f.value));
      }
      SummaryStep(Records(log[..i]), r, perStream, prev);
      perStream, prev := perStream[r.streamId := r.sequence], prev[r.streamId := r.digest];
      i := i + 1;
    }
    assert log[..i] == log;
    failure := None;
  }

  /** Every prefix of a good log is good. */
  lemma {:induction false} PrefixOfGood<P>(hash: Hash<P>, log: seq<Record<P>>, n: nat)
    requires n <= |log|
    ensures AllChains(hash, log) ==> AllChains(hash, log[..n])
    decreases |log| - n
  {
    if n == |log| {
      assert log[..n] == log;
    } else {
      PrefixOfGood(hash, log, n + 1);
      assert log[..n + 1] == log[..n] + [log[n]];
      AppendIff(hash, log[..n], log[n]);
    }
  }

  /** A sealed record that continues its stream keeps the log acceptable. */
  lemma SealedRecordExtends<P>(hash: Hash<P>, log: seq<Record<P>>, r: Record<P>)
    requires AllChains(hash, log)
    requires r.sequence == |Stream(log, r.streamId)| + 1 && r.prevDigest == LastDigest(Stream(log, r.streamId))
    ensures Seal(hash, r).Some? ==> AllChains(hash, log + [Seal(hash, r).value])
  {
    if Seal(hash, r).Some? {
      var sealed := Seal(hash, r).value;
      assert sealed.(digest := "") == r.(digest := "");
      AppendIff(hash, log, sealed);
    }
  }

  // ---- tamper evidence ----

  /** Only an empty chain has the empty digest. */
  lemma EmptyDigestEmptyChain<P(!new)>(hash: Hash<P>, h: seq<Record<P>>)
    requires CollisionFree(hash) && IsChain(hash, h)
    ensures LastDigest(h) == "" <==> h == []
  {
    if h != [] {
      assert Linked(hash, h, |h| - 1);
    }
  }

  lemma SameDigestSameRecord<P(!new)>(hash: Hash<P>, x: Record<P>, y: Record<P>)
    requires CollisionFree(hash) && x.digest == y.digest
    requires CanonicalDigest(hash, x) == Some(x.digest) && CanonicalDigest(hash, y) == Some(y.digest)
    ensures x == y
  {
    assert x.(digest := "") == y.(digest := "");
    assert x == x.(digest := "").(digest := x.digest);
    assert y == y.(digest := "").(digest := y.digest);
  }

  lemma {:induction false} SameHeadSameChain<P(!new)>(hash: Hash<P>, a: seq<Record<P>>, b: seq<Record<P>>)
    requires CollisionFree(hash) && IsChain(hash, a) && IsChain(hash, b) && LastDigest(a) == LastDigest(b)
    ensures a == b
    decreases |a|
  {
    EmptyDigestEmptyChain(hash, a);
    EmptyDigestEmptyChain(hash, b);
    if a != [] {
      var a', b', x, y := a[..|a| - 1], b[..|b| - 1], a[|a| - 1], b[|b| - 1];
      assert a == a' + [x] && b == b' + [y];
      ChainSnoc(hash, a', x);
      ChainSnoc(hash, b', y);
      SameDigestSameRecord(hash, x, y);
      SameHeadSameChain(hash, a', b');
    }
  }

  /** Two accepted logs whose last digests for a stream agree have the same history for that stream,
      down to every field of every record. */
  lemma SameHeadSameHistory<P(!new)>(hash: Hash<P>, a: seq<Record<P>>, b: seq<Record<P>>, s: string)
    requires CollisionFree(hash) && AllChains(hash, a) && AllChains(hash, b)
    requires LastDigest(Stream(a, s)) == LastDigest(Stream(b, s))
    ensures Stream(a, s) == Stream(b, s)
  {
    assert IsChain(hash, Stream(a, s)) && IsChain(hash, Stream(b, s));
    SameHeadSameChain(hash, Stream(a, s), Stream(b, s));
  }

  // ---- interleavings ----

  /** `c` is some interleaving of `a` and `b`. */
  ghost predicate Interleaves<P>(a: seq<Record<P>>, b: seq<Record<P>>, c: seq<Record<P>>)
    decreases |c|
  {
    if c == [] then a == [] && b == []
    else
      var last, front := c[|c| - 1], c[..|c| - 1];
      || (a != [] && a[|a| - 1] == last && Interleaves(a[..|a| - 1], b, front))
      || (b != [] && b[|b| - 1] == last && Interleaves(a, b[..|b| - 1], front))
  }

  ghost predicate Mentions<P>(log: seq<Record<P>>, s: string) {
    exists r :: r in log && r.streamId == s
  }

  lemma {:induction false} UnmentionedIsEmpty<P>(log: seq<Record<P>>, s: string)
    requires !Mentions(log, s)
    ensures Stream(log, s) == []
  {
    if log != [] {
      var front := log[..|log| - 1];
      assert log[|log| - 1] in log;
      forall r | r in front ensures r in log && r.streamId != s {
      }
      UnmentionedIsEmpty(front, s);
    }
  }

  lemma {:induction false} StreamOfInterleaving<P>(a: seq<Record<P>>, b: seq<Record<P>>, c: seq<Record<P>>, s: string)
    requires Interleaves(a, b, c) && (Stream(a, s) == [] || Stream(b, s) == [])
    ensures Stream(c, s) == Stream(a, s) + Stream(b, s)
    decreases |c|
  {
    if c != [] {
      var last, front := c[|c| - 1], c[..|c| - 1];
      if a != [] && a[|a| - 1] == last && Interleaves(a[..|a| - 1], b, front) {
        StreamOfInterleaving(a[..|a| - 1], b, front, s);
      } else {
        StreamOfInterleaving(a, b[..|b| - 1], front, s);
      }
    }
  }

  /** Acceptance does not depend on how streams are interleaved: two logs without a common stream,
      woven together in any way, are accepted exactly when each is. */
  lemma InterleavingIndependent<P>(hash: Hash<P>, a: seq<Record<P>>, b: seq<Record<P>>, c: seq<Record<P>>)
    requires Interleaves(a, b, c) && forall s: string :: !(Mentions(a, s) && Mentions(b, s))
    ensures AllChains(hash, c) <==> AllChains(hash, a) && AllChains(hash, b)
  {
    forall s: string
      ensures IsChain(hash, Stream(c, s)) <==> IsChain(hash, Stream(a, s)) && IsChain(hash, Stream(b, s))
    {
      if Mentions(a, s) {
        UnmentionedIsEmpty(b, s);
      } else {
        UnmentionedIsEmpty(a, s);
      }
      StreamOfInterleaving(a, b, c, s);
      assert Stream(c, s) == Stream(a, s) || Stream(c, s) == Stream(b, s);
    }
  }
}

/**
 Three-part texts: the Redis field of a counter and the Stripe idempotency key.
 */
module Fields {
  import opened Strings

  /** One minute bucket of one tenant and record type; the bucket is its ISO text. */
  datatype Key = Key(tenant: string, recordType: string, bucket: string)

  const UNIT_SEPARATOR := 31 as char

  function Join(d: char, k: Key): string {
    k.tenant + [d] + k.recordType + [d] + k.bucket
  }

  /** Where `d` first occurs, or the length. */
  function Index(s: string, d: char): (n: nat)
    ensures n <= |s| && (n < |s| ==> s[n] == d)
    ensures forall i :: 0 <= i < n ==> s[i] != d
  {
    if s == "" || s[0] == d then 0 else 1 + Index(s[1..], d)
  }

  /** `a, b, c = s.split(d, 2)`, which needs two delimiters. */
  predicate Splits(s: string, d: char) {
    Index(s, d) < |s| && Index(s[Index(s, d) + 1..], d) < |s[Index(s, d) + 1..]|
  }

  function Split(s: string, d: char): Key
    requires Splits(s, d)
  {
    var i := Index(s, d);
    var rest := s[i + 1..];
    var j := Index(rest, d);
    Key(s[..i], rest[..j], rest[j + 1..])
  }

  lemma IndexOfPart(a: string, d: char, rest: string)
    ensures var s := a + [d] + rest;
            Index(s, d) < |s| && Index(s, d) <= |a| && (Index(s, d) == |a| <==> d !in a)
  {
    var s := a + [d] + rest;
    assert s[|a|] == d;
    if Index(s, d) < |a| {
      assert a[Index(s, d)] == d;
    }
    if d in a {
      var i :| 0 <= i < |a| && a[i] == d;
      assert s[i] == d;
    }
  }

  lemma JoinSplits(d: char, k: Key)
    ensures Splits(Join(d, k), d)
  {
    var s := Join(d, k);
    var tail := k.recordType + [d] + k.bucket;
    assert s == k.tenant + [d] + tail;
    IndexOfPart(k.tenant, d, tail);
    var i := Index(s, d);
    var rest := s[i + 1..];
    assert rest[|rest| - |k.bucket| - 1] == d;
  }

  lemma CutPart(a: string, d: char, rest: string)
    requires d !in a
    ensures var s := a + [d] + rest;
            Index(s, d) == |a| && s[..|a|] == a && s[|a| + 1..] == rest
  {
    IndexOfPart(a, d, rest);
  }

  lemma JoinIsNested(d: char, k: Key)
    ensures Join(d, k) == k.tenant + [d] + (k.recordType + [d] + k.bucket)
  {
  }

  lemma SplitGivesParts(d: char, k: Key)
    requires d !in k.tenant && d !in k.recordType
    ensures Splits(Join(d, k), d) && Split(Join(d, k), d) == k
  {
    JoinSplits(d, k);
    JoinIsNested(d, k);
    CutPart(k.tenant, d, k.recordType + [d] + k.bucket);
    CutPart(k.recordType, d, k.bucket);
  }

  lemma SplitCutsShort(d: char, k: Key)
    ensures Splits(Join(d, k), d)
    ensures d in k.tenant ==> |Split(Join(d, k), d).tenant| < |k.tenant|
    ensures d !in k.tenant && d in k.recordType ==> |Split(Join(d, k), d).recordType| < |k.recordType|
  {
    JoinSplits(d, k);
    JoinIsNested(d, k);
    IndexOfPart(k.tenant, d, k.recordType + [d] + k.bucket);
    if d !in k.tenant {
      CutPart(k.tenant, d, k.recordType + [d] + k.bucket);
      IndexOfPart(k.recordType, d, k.bucket);
    }
  }

  /** Splitting gives the parts back exactly when neither of the first two holds the
      delimiter. */
  lemma SplitRoundTrip(d: char, k: Key)
    ensures Splits(Join(d, k), d)
    ensures Split(Join(d, k), d) == k <==> d !in k.tenant && d !in k.recordType
  {
    SplitCutsShort(d, k);
    if d !in k.tenant && d !in k.recordType {
      SplitGivesParts(d, k);
    }
  }

  // ---- Which buckets share a text ----

  /** Tenant and record type as they stand in the text. */
  function Head(d: char, k: Key): string {
    k.tenant + [d] + k.recordType
  }

  /** Buckets are ISO minutes, all of one length, so equal texts end in equal buckets. */
  lemma SameTextSameHead(d: char, k: Key, l: Key)
    requires |k.bucket| == |l.bucket|
    ensures Join(d, k) == Join(d, l) <==> Head(d, k) == Head(d, l) && k.bucket == l.bucket
  {
    assert Join(d, k) == Head(d, k) + ([d] + k.bucket) && Join(d, l) == Head(d, l) + ([d] + l.bucket);
    if Join(d, k) == Join(d, l) {
      assert Join(d, k)[..|Head(d, k)|] == Head(d, k) && Join(d, l)[..|Head(d, l)|] == Head(d, l);
      assert Join(d, k)[|Head(d, k)| + 1..] == k.bucket && Join(d, l)[|Head(d, l)| + 1..] == l.bucket;
    }
  }

  /** The bucket cut at another delimiter: its text is the same. */
  function CutAt(d: char, k: Key, p: nat): (l: Key)
    requires p < |Head(d, k)| && Head(d, k)[p] == d
    ensures Head(d, l) == Head(d, k) && Join(d, l) == Join(d, k) && |l.tenant| == p
  {
    var s := Head(d, k);
    assert s == s[..p] + [d] + s[p + 1..];
    Key(s[..p], s[p + 1..], k.bucket)
  }

  /** A second bucket with the text stands on a delimiter elsewhere in the first. */
  lemma TwinCutsElsewhere(d: char, k: Key, l: Key)
    requires Head(d, k) == Head(d, l) && l.bucket == k.bucket && l != k
    ensures |l.tenant| != |k.tenant|
    ensures |l.tenant| < |k.tenant| ==> k.tenant[|l.tenant|] == d
    ensures |l.tenant| > |k.tenant| ==>
              var i := |l.tenant| - |k.tenant| - 1;
              i + |l.recordType| + 1 == |k.recordType| && k.recordType[i] == d
  {
    var s := Head(d, k);
    assert s[|l.tenant|] == d;
    assert s[..|k.tenant|] == k.tenant && s[..|l.tenant|] == l.tenant;
    assert s[|k.tenant| + 1..] == k.recordType && s[|l.tenant| + 1..] == l.recordType;
  }

  /** Another bucket has the same text exactly when the tenant or the record type holds the
      delimiter. */
  lemma TextIsShared(d: char, k: Key)
    ensures (exists l :: l != k && l.bucket == k.bucket && Join(d, l) == Join(d, k))
       <==> d in k.tenant || d in k.recordType
    ensures (exists l :: l != k && |l.bucket| == |k.bucket| && Join(d, l) == Join(d, k))
       <==> d in k.tenant || d in k.recordType
  {
    if d in k.tenant {
      var p :| 0 <= p < |k.tenant| && k.tenant[p] == d;
      assert CutAt(d, k, p) != k;
    } else if d in k.recordType {
      var p :| 0 <= p < |k.recordType| && k.recordType[p] == d;
      assert CutAt(d, k, |k.tenant| + 1 + p) != k;
    }
    forall l | l != k && |l.bucket| == |k.bucket| && Join(d, l) == Join(d, k)
      ensures d in k.tenant || d in k.recordType
    {
      SameTextSameHead(d, k, l);
      TwinCutsElsewhere(d, k, l);
    }
  }
}

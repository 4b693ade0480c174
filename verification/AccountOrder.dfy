/** The byte-wise order on account ids that decides which row is locked first. */
module AccountOrder {

  type AccountId = string

  predicate Less(a: AccountId, b: AccountId) {
    b != [] && (a == [] || a[0] < b[0] || (a[0] == b[0] && Less(a[1..], b[1..])))
  }

  /** Exactly one of a < b, a == b, b < a. */
  lemma {:induction false} Trichotomy(a: AccountId, b: AccountId)
    ensures Less(a, b) || a == b || Less(b, a)
    ensures !(Less(a, b) && Less(b, a))
    ensures a == b ==> !Less(a, b)
  {
    if a != [] && b != [] && a[0] == b[0] {
      Trichotomy(a[1..], b[1..]);
      assert a == [a[0]] + a[1..] && b == [b[0]] + b[1..];
    }
  }

  lemma {:induction false} Transitive(a: AccountId, b: AccountId, c: AccountId)
    requires Less(a, b) && Less(b, c)
    ensures Less(a, c)
  {
    if a != [] && a[0] == b[0] && b[0] == c[0] {
      Transitive(a[1..], b[1..], c[1..]);
    }
  }

  /** The order is that of the first byte in which the ids differ; a proper prefix comes first. */
  lemma {:induction false} FirstDifference(a: AccountId, b: AccountId)
    ensures Less(a, b) <==> exists k :: DiffersAt(a, b, k)
  {
    if Less(a, b) && a != [] && a[0] == b[0] {
      FirstDifference(a[1..], b[1..]);
      var k :| DiffersAt(a[1..], b[1..], k);
      assert a[..k + 1] == [a[0]] + a[1..][..k] && b[..k + 1] == [b[0]] + b[1..][..k];
      assert DiffersAt(a, b, k + 1);
    } else if Less(a, b) {
      assert DiffersAt(a, b, 0);
    } else if k :| DiffersAt(a, b, k) {
      if k > 0 {
        assert a[..k][0] == b[..k][0] && a[1..][..k - 1] == a[..k][1..] && b[1..][..k - 1] == b[..k][1..];
        assert DiffersAt(a[1..], b[1..], k - 1);
        FirstDifference(a[1..], b[1..]);
      }
    }
  }

  predicate DiffersAt(a: AccountId, b: AccountId, k: int) {
    0 <= k <= |a| && k < |b| && a[..k] == b[..k] && (k == |a| || a[k] < b[k])
  }
}

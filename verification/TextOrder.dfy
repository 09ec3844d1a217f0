/** Byte-wise text order and the (timestamp, event id) order built on it. */
module TextOrder {
  import opened Common
  import opened Orders

  predicate Less(a: string, b: string) {
    if |b| == 0 then false
    else if |a| == 0 then true
    else if a[0] != b[0] then a[0] < b[0]
    else Less(a[1..], b[1..])
  }

  lemma {:induction false} LessIrreflexive(a: string)
    ensures !Less(a, a)
  {
    if |a| > 0 {
      LessIrreflexive(a[1..]);
    }
  }

  lemma {:induction false} LessTransitive(a: string, b: string, c: string)
    requires Less(a, b) && Less(b, c)
    ensures Less(a, c)
  {
    if |a| > 0 && a[0] == b[0] && b[0] == c[0] {
      LessTransitive(a[1..], b[1..], c[1..]);
    }
  }

  lemma {:induction false} LessTotal(a: string, b: string)
    ensures a == b || Less(a, b) || Less(b, a)
  {
    if |a| > 0 && |b| > 0 && a[0] == b[0] {
      LessTotal(a[1..], b[1..]);
      assert a == [a[0]] + a[1..] && b == [b[0]] + b[1..];
    }
  }

  lemma LessIsTotal(items: set<string>)
    ensures TotalOrder(items, Less)
  {
    forall a: string, b: string | a != b ensures Less(a, b) || Less(b, a) { LessTotal(a, b); }
    forall a: string, b: string, c: string | Less(a, b) && Less(b, c) ensures Less(a, c) { LessTransitive(a, b, c); }
  }

  lemma LeastText(items: set<string>) returns (least: string)
    requires items != {}
    ensures least in items && forall other | other in items :: other == least || Less(least, other)
    ensures IsLeast(items, Less, least)
  {
    LessIsTotal(items);
    least := LeastExists(items, Less);
    assert forall other | other in items :: other == least || Less(least, other);
  }

  /** The position of an event in the order every store uses: timestamp first, event id second. */
  datatype Stamp = Stamp(at: Time, id: string)

  predicate Before(a: Stamp, b: Stamp) {
    a.at < b.at || (a.at == b.at && Less(a.id, b.id))
  }

  predicate AtMost(a: Stamp, b: Stamp) {
    a == b || Before(a, b)
  }

  lemma AtMostTransitive(a: Stamp, b: Stamp, c: Stamp)
    requires AtMost(a, b) && AtMost(b, c)
    ensures AtMost(a, c)
  {
    if a.at == b.at == c.at && a != b && b != c {
      LessTransitive(a.id, b.id, c.id);
    }
  }

  lemma AtMostTotal(a: Stamp, b: Stamp)
    ensures AtMost(a, b) || Before(b, a)
  {
    LessTotal(a.id, b.id);
  }

  lemma BeforeAsymmetric(a: Stamp, b: Stamp)
    requires Before(a, b)
    ensures !AtMost(b, a)
  {
    LessIrreflexive(a.id);
    if Before(b, a) && a.at == b.at {
      LessTransitive(a.id, b.id, a.id);
    }
  }

  lemma AtMostAntisymmetric(a: Stamp, b: Stamp)
    requires AtMost(a, b) && AtMost(b, a)
    ensures a == b
  {
    if a != b {
      BeforeAsymmetric(a, b);
    }
  }
}

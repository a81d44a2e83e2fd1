/** Timestamps as text. The store keeps instants as RFC 3339 text in UTC with trimmed fractions
    (section 5.6 of RFC 3339; section 5.1 is about ordering) and lets SQLite compare the texts. This
    module says exactly when that comparison is the comparison of the instants. */
module TextTime {

  /** A UTC stamp with its fraction as nine digits. */
  datatype Stamp = Stamp(year: nat, month: nat, day: nat, hour: nat, minute: nat, second: nat, fraction: seq<nat>) {
    predicate Valid() {
      && year < 10000 && month < 100 && day < 100 && hour < 100 && minute < 100 && second < 100
      && |fraction| == 9 && forall d | d in fraction :: d < 10
    }
  }

  // ---------- Order of instants

  /** Lexicographic order on digit sequences of any length. */
  predicate LexLess(a: seq<nat>, b: seq<nat>) {
    b != [] && (a == [] || a[0] < b[0] || (a[0] == b[0] && LexLess(a[1..], b[1..])))
  }

  predicate SameSecond(a: Stamp, b: Stamp) {
    && a.year == b.year && a.month == b.month && a.day == b.day
    && a.hour == b.hour && a.minute == b.minute && a.second == b.second
  }

  predicate SecondBefore(a: Stamp, b: Stamp) {
    if a.year != b.year then a.year < b.year
    else if a.month != b.month then a.month < b.month
    else if a.day != b.day then a.day < b.day
    else if a.hour != b.hour then a.hour < b.hour
    else if a.minute != b.minute then a.minute < b.minute
    else a.second < b.second
  }

  predicate Before(a: Stamp, b: Stamp) {
    SecondBefore(a, b) || (SameSecond(a, b) && LexLess(a.fraction, b.fraction))
  }

  // ---------- Text

  /** Characters are their ASCII codes, as SQLite compares bytes. */
  const ZERO := 48
  const DASH := 45
  const DOT := 46
  const COLON := 58
  const UPPER_T := 84
  const UPPER_Z := 90

  function Pad(n: nat, width: nat): (text: seq<nat>)
    ensures |text| == width
  {
    if width == 0 then [] else Pad(n / 10, width - 1) + [ZERO + n % 10]
  }

  /** Drops trailing zeros. */
  function Trim(digits: seq<nat>): seq<nat> {
    if digits != [] && digits[|digits| - 1] == 0 then Trim(digits[..|digits| - 1]) else digits
  }

  function Digits(digits: seq<nat>): seq<nat> {
    seq(|digits|, i requires 0 <= i < |digits| => ZERO + digits[i])
  }

  /** What is printed between the seconds and the Z. */
  function Fraction(digits: seq<nat>): seq<nat> {
    if Trim(digits) == [] then [] else [DOT] + Digits(Trim(digits))
  }

  function TimeOfDay(s: Stamp): seq<nat> {
    Pad(s.hour, 2) + [COLON] + Pad(s.minute, 2) + [COLON] + Pad(s.second, 2)
  }

  function WholeSecond(s: Stamp): seq<nat> {
    Pad(s.year, 4) + [DASH] + Pad(s.month, 2) + [DASH] + Pad(s.day, 2) + [UPPER_T] + TimeOfDay(s)
  }

  function Format(s: Stamp): seq<nat> {
    WholeSecond(s) + Fraction(s.fraction) + [UPPER_Z]
  }

  // ---------- Proofs

  lemma {:induction false} LexPrefix(p: seq<nat>, a: seq<nat>, b: seq<nat>)
    ensures LexLess(p + a, p + b) <==> LexLess(a, b)
  {
    if p == [] {
      assert p + a == a && p + b == b;
    } else {
      assert (p + a)[1..] == p[1..] + a && (p + b)[1..] == p[1..] + b;
      LexPrefix(p[1..], a, b);
    }
  }

  /** Equally long heads that differ decide. */
  lemma {:induction false} LexHeads(p: seq<nat>, q: seq<nat>, a: seq<nat>, b: seq<nat>)
    requires |p| == |q| && p != q
    ensures LexLess(p + a, q + b) <==> LexLess(p, q)
  {
    assert (p + a)[1..] == p[1..] + a && (q + b)[1..] == q[1..] + b;
    if p[0] == q[0] {
      assert p == [p[0]] + p[1..] && q == [q[0]] + q[1..];
      LexHeads(p[1..], q[1..], a, b);
    }
  }

  lemma {:induction false} LexConnected(p: seq<nat>, q: seq<nat>)
    requires |p| == |q| && p != q
    ensures LexLess(p, q) != LexLess(q, p)
  {
    if p[0] == q[0] {
      assert p == [p[0]] + p[1..] && q == [q[0]] + q[1..];
      LexConnected(p[1..], q[1..]);
    }
  }

  /** Padded numbers compare as numbers. */
  lemma {:induction false} PadOrder(m: nat, n: nat, width: nat)
    requires m < Pow10(width) && n < Pow10(width)
    ensures (Pad(m, width) == Pad(n, width)) <==> m == n
    ensures LexLess(Pad(m, width), Pad(n, width)) <==> m < n
  {
    if width > 0 {
      var p, q := Pad(m / 10, width - 1), Pad(n / 10, width - 1);
      PadOrder(m / 10, n / 10, width - 1);
      if p == q {
        LexPrefix(p, [ZERO + m % 10], [ZERO + n % 10]);
        assert Pad(m, width)[width - 1] == ZERO + m % 10 && Pad(n, width)[width - 1] == ZERO + n % 10;
      } else {
        LexHeads(p, q, [ZERO + m % 10], [ZERO + n % 10]);
        assert Pad(m, width)[..width - 1] == p && Pad(n, width)[..width - 1] == q;
      }
    }
  }

  function Pow10(n: nat): nat {
    if n == 0 then 1 else 10 * Pow10(n - 1)
  }

  /** One padded field, a separator, and the rest. */
  lemma FieldOrder(m: nat, n: nat, width: nat, a: seq<nat>, b: seq<nat>)
    requires m < Pow10(width) && n < Pow10(width)
    ensures LexLess(Pad(m, width) + a, Pad(n, width) + b) <==> m < n || (m == n && LexLess(a, b))
  {
    PadOrder(m, n, width);
    if m == n {
      LexPrefix(Pad(m, width), a, b);
    } else {
      LexHeads(Pad(m, width), Pad(n, width), a, b);
    }
  }

  lemma SeparatedOrder(m: nat, n: nat, width: nat, separator: nat, a: seq<nat>, b: seq<nat>)
    requires m < Pow10(width) && n < Pow10(width)
    ensures LexLess(Pad(m, width) + [separator] + a, Pad(n, width) + [separator] + b)
       <==> m < n || (m == n && LexLess(a, b))
  {
    assert Pad(m, width) + [separator] + a == Pad(m, width) + ([separator] + a);
    assert Pad(n, width) + [separator] + b == Pad(n, width) + ([separator] + b);
    FieldOrder(m, n, width, [separator] + a, [separator] + b);
    LexPrefix([separator], a, b);
  }

  lemma TimeOfDayOrder(a: Stamp, b: Stamp, x: seq<nat>, y: seq<nat>)
    requires a.Valid() && b.Valid() && Pow10(2) == 100
    ensures LexLess(TimeOfDay(a) + x, TimeOfDay(b) + y)
       <==> if a.hour != b.hour then a.hour < b.hour
            else if a.minute != b.minute then a.minute < b.minute
            else if a.second != b.second then a.second < b.second
            else LexLess(x, y)
  {
    var s2, t2 := Pad(a.second, 2) + x, Pad(b.second, 2) + y;
    var s1, t1 := Pad(a.minute, 2) + [COLON] + s2, Pad(b.minute, 2) + [COLON] + t2;
    assert TimeOfDay(a) + x == Pad(a.hour, 2) + [COLON] + s1;
    assert TimeOfDay(b) + y == Pad(b.hour, 2) + [COLON] + t1;
    FieldOrder(a.second, b.second, 2, x, y);
    SeparatedOrder(a.minute, b.minute, 2, COLON, s2, t2);
    SeparatedOrder(a.hour, b.hour, 2, COLON, s1, t1);
  }

  lemma WholeSecondOrder(a: Stamp, b: Stamp, x: seq<nat>, y: seq<nat>)
    requires a.Valid() && b.Valid()
    ensures LexLess(WholeSecond(a) + x, WholeSecond(b) + y)
       <==> SecondBefore(a, b) || (SameSecond(a, b) && LexLess(x, y))
  {
    assert Pow10(1) == 10 && Pow10(3) == 1000;
    var s3, t3 := TimeOfDay(a) + x, TimeOfDay(b) + y;
    var s2, t2 := Pad(a.day, 2) + [UPPER_T] + s3, Pad(b.day, 2) + [UPPER_T] + t3;
    var s1, t1 := Pad(a.month, 2) + [DASH] + s2, Pad(b.month, 2) + [DASH] + t2;
    assert WholeSecond(a) + x == Pad(a.year, 4) + [DASH] + s1;
    assert WholeSecond(b) + y == Pad(b.year, 4) + [DASH] + t1;
    TimeOfDayOrder(a, b, x, y);
    SeparatedOrder(a.day, b.day, 2, UPPER_T, s3, t3);
    SeparatedOrder(a.month, b.month, 2, DASH, s2, t2);
    SeparatedOrder(a.year, b.year, 4, DASH, s1, t1);
  }

  predicate ProperPrefix(p: seq<nat>, q: seq<nat>) { p < q }

  /** Trimming drops zeros only: it keeps the order of equally long digit strings, where a proper
      prefix is smaller. */
  lemma {:induction false} TrimOrder(a: seq<nat>, b: seq<nat>)
    requires |a| == |b|
    ensures LexLess(a, b) <==> LexLess(Trim(a), Trim(b))
    ensures a == b <==> Trim(a) == Trim(b)
  {
    TrimIsPrefix(a);
    TrimIsPrefix(b);
    TrimmedOrder(a, b, |Trim(a)|, |Trim(b)|);
    assert a[..|Trim(a)|] == Trim(a) && b[..|Trim(b)|] == Trim(b);
  }

  lemma {:induction false} TrimIsPrefix(a: seq<nat>)
    ensures Trim(a) <= a && (forall i | |Trim(a)| <= i < |a| :: a[i] == 0)
    ensures Trim(a) != [] ==> Trim(a)[|Trim(a)| - 1] != 0
  {
    if a != [] && a[|a| - 1] == 0 {
      TrimIsPrefix(a[..|a| - 1]);
    }
  }

  lemma {:induction false} TrimmedOrder(a: seq<nat>, b: seq<nat>, m: nat, n: nat)
    requires |a| == |b| && m <= |a| && n <= |b|
    requires (forall i | m <= i < |a| :: a[i] == 0) && (forall i | n <= i < |b| :: b[i] == 0)
    requires (m > 0 ==> a[m - 1] != 0) && (n > 0 ==> b[n - 1] != 0)
    ensures LexLess(a, b) <==> LexLess(a[..m], b[..n])
    ensures a == b <==> a[..m] == b[..n]
    decreases |a|
  {
    if m > 0 && n > 0 {
      assert a[..m][1..] == a[1..][..m - 1] && b[..n][1..] == b[1..][..n - 1];
      assert a == [a[0]] + a[1..] && b == [b[0]] + b[1..];
      assert a[..m] == [a[0]] + a[1..][..m - 1] && b[..n] == [b[0]] + b[1..][..n - 1];
      TrimmedOrder(a[1..], b[1..], m - 1, n - 1);
    } else if m == 0 && n > 0 {
      ZerosFirst(a, b, n);
    } else if m > 0 {
      ZerosFirst(b, a, m);
      LexConnected(a, b);
    } else {
      assert a == b;
      if LexLess(a, b) { LexIrreflexive(a); }
    }
  }

  lemma {:induction false} LexIrreflexive(a: seq<nat>)
    ensures !LexLess(a, a)
  {
    if a != [] { LexIrreflexive(a[1..]); }
  }

  lemma {:induction false} ZerosFirst(zeros: seq<nat>, b: seq<nat>, n: nat)
    requires |zeros| == |b| && 0 < n <= |b| && b[n - 1] != 0 && forall i | 0 <= i < |zeros| :: zeros[i] == 0
    ensures LexLess(zeros, b) && zeros != b
    decreases |b|
  {
    if b[0] == 0 {
      ZerosFirst(zeros[1..], b[1..], n - 1);
    }
  }

  /** With a closing Z, which is above every digit and the dot, texts compare as digits do, except
      that a proper prefix comes last instead of first. */
  lemma {:induction false} ClosedOrder(p: seq<nat>, q: seq<nat>)
    requires (forall c | c in p :: c < UPPER_Z) && (forall c | c in q :: c < UPPER_Z)
    ensures LexLess(p + [UPPER_Z], q + [UPPER_Z]) <==> (ProperPrefix(q, p) || (LexLess(p, q) && !ProperPrefix(p, q)))
    decreases |p|
  {
    if p != [] && q != [] && p[0] == q[0] {
      assert (p + [UPPER_Z])[1..] == p[1..] + [UPPER_Z] && (q + [UPPER_Z])[1..] == q[1..] + [UPPER_Z];
      assert p == [p[0]] + p[1..] && q == [q[0]] + q[1..];
      assert forall c | c in p[1..] :: c in p;
      assert forall c | c in q[1..] :: c in q;
      ClosedOrder(p[1..], q[1..]);
      assert ProperPrefix(p, q) <==> ProperPrefix(p[1..], q[1..]);
      assert ProperPrefix(q, p) <==> ProperPrefix(q[1..], p[1..]);
    } else {
      assert p != [] ==> p[0] in p;
      assert q != [] ==> q[0] in q;
    }
  }

  /** The pairs that text order gets wrong: one printed fraction goes on where the other ends. */
  predicate Confusable(a: Stamp, b: Stamp) {
    && SameSecond(a, b)
    && (ProperPrefix(Fraction(a.fraction), Fraction(b.fraction)) || ProperPrefix(Fraction(b.fraction), Fraction(a.fraction)))
  }

  lemma {:induction false} DigitsOrder(a: seq<nat>, b: seq<nat>)
    ensures LexLess(Digits(a), Digits(b)) <==> LexLess(a, b)
    ensures Digits(a) == Digits(b) <==> a == b
    decreases |a|
  {
    if a != [] && b != [] {
      assert Digits(a)[1..] == Digits(a[1..]) && Digits(b)[1..] == Digits(b[1..]);
      assert a == [a[0]] + a[1..] && b == [b[0]] + b[1..];
      assert Digits(a) == [ZERO + a[0]] + Digits(a[1..]) && Digits(b) == [ZERO + b[0]] + Digits(b[1..]);
      DigitsOrder(a[1..], b[1..]);
    }
  }

  lemma FractionOrder(a: seq<nat>, b: seq<nat>)
    requires |a| == |b|
    ensures LexLess(Fraction(a), Fraction(b)) <==> LexLess(a, b)
    ensures Fraction(a) == Fraction(b) <==> a == b
  {
    TrimOrder(a, b);
    DigitsOrder(Trim(a), Trim(b));
    assert Fraction(a) != [] ==> Fraction(a)[1..] == Digits(Trim(a));
    assert Fraction(b) != [] ==> Fraction(b)[1..] == Digits(Trim(b));
  }

  lemma FractionBelowZ(a: seq<nat>)
    requires forall d | d in a :: d < 10
    ensures forall c | c in Fraction(a) :: c < UPPER_Z
  {
    TrimIsPrefix(a);
    assert forall i | 0 <= i < |Trim(a)| :: Trim(a)[i] == a[i] && a[i] in a;
  }

  lemma {:induction false} PrefixIsLess(p: seq<nat>, q: seq<nat>)
    requires ProperPrefix(p, q)
    ensures LexLess(p, q) && !LexLess(q, p)
  {
    if p != [] {
      PrefixIsLess(p[1..], q[1..]);
    }
  }

  /** Comparing the texts compares the instants, except for exactly the confusable pairs. */
  lemma TextOrderIsTimeOrderUnlessConfusable(a: Stamp, b: Stamp)
    requires a.Valid() && b.Valid()
    ensures (LexLess(Format(a), Format(b)) <==> Before(a, b)) <==> !Confusable(a, b)
  {
    var p, q := Fraction(a.fraction), Fraction(b.fraction);
    assert Format(a) == WholeSecond(a) + (p + [UPPER_Z]) && Format(b) == WholeSecond(b) + (q + [UPPER_Z]);
    WholeSecondOrder(a, b, p + [UPPER_Z], q + [UPPER_Z]);
    FractionBelowZ(a.fraction);
    FractionBelowZ(b.fraction);
    ClosedOrder(p, q);
    FractionOrder(a.fraction, b.fraction);
    if ProperPrefix(p, q) { PrefixIsLess(p, q); }
    if ProperPrefix(q, p) { PrefixIsLess(q, p); }
  }

  /** Equally many printed digits, for instance none, are never confusable. */
  lemma EqualDigitsAreNotConfusable(a: Stamp, b: Stamp)
    requires |Fraction(a.fraction)| == |Fraction(b.fraction)|
    ensures !Confusable(a, b)
  {
  }

  /** The window part of the conflict query, run on texts. */
  predicate TextOverlap(start: Stamp, end: Stamp, otherStart: Stamp, otherEnd: Stamp) {
    LexLess(Format(otherStart), Format(end)) && LexLess(Format(start), Format(otherEnd))
  }

  predicate TimeOverlap(start: Stamp, end: Stamp, otherStart: Stamp, otherEnd: Stamp) {
    Before(start, otherEnd) && Before(otherStart, end)
  }

  /** The query answers rightly about two windows if and only if neither comparison is confusable, or
      the one comparison that is would not have mattered, or both are and they fail in turn. */
  lemma ConflictQueryIsRightExactlyWhen(start: Stamp, end: Stamp, otherStart: Stamp, otherEnd: Stamp)
    requires start.Valid() && end.Valid() && otherStart.Valid() && otherEnd.Valid()
    ensures (TextOverlap(start, end, otherStart, otherEnd) <==> TimeOverlap(start, end, otherStart, otherEnd)) <==>
            match (Confusable(otherStart, end), Confusable(start, otherEnd))
            case (false, false) => true
            case (true, false) => !Before(start, otherEnd)
            case (false, true) => !Before(otherStart, end)
            case (true, true) => Before(otherStart, end) != Before(start, otherEnd)
  {
    TextOrderIsTimeOrderUnlessConfusable(otherStart, end);
    TextOrderIsTimeOrderUnlessConfusable(start, otherEnd);
  }

  /** The query finds exactly the overlapping windows when their bounds print equally many digits. */
  lemma ConflictQueryIsExact(start: Stamp, end: Stamp, otherStart: Stamp, otherEnd: Stamp)
    requires start.Valid() && end.Valid() && otherStart.Valid() && otherEnd.Valid()
    requires |Fraction(start.fraction)| == |Fraction(otherEnd.fraction)|
    requires |Fraction(otherStart.fraction)| == |Fraction(end.fraction)|
    ensures TextOverlap(start, end, otherStart, otherEnd) <==> TimeOverlap(start, end, otherStart, otherEnd)
  {
    TextOrderIsTimeOrderUnlessConfusable(otherStart, end);
    TextOrderIsTimeOrderUnlessConfusable(start, otherEnd);
    EqualDigitsAreNotConfusable(otherStart, end);
    EqualDigitsAreNotConfusable(start, otherEnd);
  }

  /** No fraction, and half a second. */
  lemma FullAndHalf() returns (none: seq<nat>, half: seq<nat>)
    ensures |none| == |half| == 9 && (forall d | d in none :: d < 10) && forall d | d in half :: d < 10
    ensures ProperPrefix(Fraction(none), Fraction(half)) && LexLess(none, half) && !LexLess(half, none)
  {
    none, half := seq(9, _ => 0), [5, 0, 0, 0, 0, 0, 0, 0, 0];
    TrimIsPrefix(none);
    TrimIsPrefix(half);
    assert half[0] == 5;
    assert Trim(none) == [] && Trim(half) != [];
  }

  /** Otherwise it can miss a conflict: a window that ends half a second past the full second does
      not match one that starts at the full second, although they share half a second. */
  lemma ConflictQueryMissesHalfSeconds() returns (start: Stamp, end: Stamp, otherStart: Stamp, otherEnd: Stamp)
    ensures start.Valid() && end.Valid() && otherStart.Valid() && otherEnd.Valid()
    ensures Before(start, end) && Before(otherStart, otherEnd)
    ensures TimeOverlap(start, end, otherStart, otherEnd) && !TextOverlap(start, end, otherStart, otherEnd)
  {
    var none, half := FullAndHalf();
    start, end := Stamp(2026, 1, 1, 9, 0, 0, none), Stamp(2026, 1, 1, 10, 0, 0, half);
    otherStart, otherEnd := Stamp(2026, 1, 1, 10, 0, 0, none), Stamp(2026, 1, 1, 11, 0, 0, none);
    ConflictQueryIsRightExactlyWhen(start, end, otherStart, otherEnd);
  }

  /** And it can find a conflict that is none: a window that ends at the full second matches one that
      starts half a second later. */
  lemma ConflictQueryFindsDisjointWindows() returns (start: Stamp, end: Stamp, otherStart: Stamp, otherEnd: Stamp)
    ensures start.Valid() && end.Valid() && otherStart.Valid() && otherEnd.Valid()
    ensures Before(start, end) && Before(otherStart, otherEnd)
    ensures !TimeOverlap(start, end, otherStart, otherEnd) && TextOverlap(start, end, otherStart, otherEnd)
  {
    var none, half := FullAndHalf();
    start, end := Stamp(2026, 1, 1, 9, 0, 0, none), Stamp(2026, 1, 1, 10, 0, 0, none);
    otherStart, otherEnd := Stamp(2026, 1, 1, 10, 0, 0, half), Stamp(2026, 1, 1, 11, 0, 0, none);
    ConflictQueryIsRightExactlyWhen(start, end, otherStart, otherEnd);
  }

  /** The queries that look for expired or unexpired leases compare a lease end with a clock reading. A
      lease that still runs is taken for expired if and only if its end is in the same second and
      its printed fraction goes on where that of the reading ends, as 00.55Z does after 00.5Z. */
  lemma RunningLeaseLooksExpiredExactlyWhen(now: Stamp, leaseUntil: Stamp)
    requires now.Valid() && leaseUntil.Valid()
    ensures Before(now, leaseUntil) && !LexLess(Format(now), Format(leaseUntil))
       <==> SameSecond(now, leaseUntil) && ProperPrefix(Fraction(now.fraction), Fraction(leaseUntil.fraction))
  {
    ConfusableOrder(now, leaseUntil);
  }

  /** And one that has run out is taken for running exactly the other way round. */
  lemma ExpiredLeaseLooksRunningExactlyWhen(now: Stamp, leaseUntil: Stamp)
    requires now.Valid() && leaseUntil.Valid()
    ensures !Before(now, leaseUntil) && LexLess(Format(now), Format(leaseUntil))
       <==> SameSecond(now, leaseUntil) && ProperPrefix(Fraction(leaseUntil.fraction), Fraction(now.fraction))
  {
    ConfusableOrder(now, leaseUntil);
  }

  /** Of two confusable stamps, the one with fewer printed digits is the earlier. */
  lemma ConfusableOrder(a: Stamp, b: Stamp)
    requires a.Valid() && b.Valid()
    ensures (LexLess(Format(a), Format(b)) <==> Before(a, b)) <==> !Confusable(a, b)
    ensures SameSecond(a, b) && ProperPrefix(Fraction(a.fraction), Fraction(b.fraction)) ==> Before(a, b)
    ensures SameSecond(a, b) && ProperPrefix(Fraction(b.fraction), Fraction(a.fraction)) ==> !Before(a, b)
  {
    TextOrderIsTimeOrderUnlessConfusable(a, b);
    FractionOrder(a.fraction, b.fraction);
    if ProperPrefix(Fraction(a.fraction), Fraction(b.fraction)) { PrefixIsLess(Fraction(a.fraction), Fraction(b.fraction)); }
    if ProperPrefix(Fraction(b.fraction), Fraction(a.fraction)) { PrefixIsLess(Fraction(b.fraction), Fraction(a.fraction)); }
  }
}

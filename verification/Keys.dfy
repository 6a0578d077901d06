/** Key encodings: the single-flight key, the distributed-lock key and `field`. */
module Keys {
  import opened Texts

  // ---- Length-prefixed keys ----

  /** `"{group.len()}:{group}{field}"` */
  function FlightKey(group: Text, field: Text): Text {
    Decimal(|group|) + [COLON] + group + field
  }

  /** `"sf:lock:"` */
  const LOCK_PREFIX: Text := [115, 102, COLON, 108, 111, 99, 107, COLON]

  /** `"sf:lock:{group.len()}:{group}{field}"` */
  function LockKey(group: Text, field: Text): Text {
    LOCK_PREFIX + FlightKey(group, field)
  }

  function DecodeFlightKey(t: Text): Option<(Text, Text)> {
    match Cut(t)
    case None => None
    case Some((digits, rest)) =>
      match ParseDecimal(digits)
      case None => None
      case Some(n) => if n <= |rest| then Some((rest[..n], rest[n..])) else None
  }

  function DecodeLockKey(t: Text): Option<(Text, Text)> {
    if LOCK_PREFIX <= t then DecodeFlightKey(t[|LOCK_PREFIX|..]) else None
  }

  lemma FlightKeyRoundTrip(group: Text, field: Text)
    ensures DecodeFlightKey(FlightKey(group, field)) == Some((group, field))
  {
    var digits := Decimal(|group|);
    CutAtFirst(digits, group + field);
    assert FlightKey(group, field) == digits + [COLON] + (group + field);
    ParseInvertsDecimal(|group|);
  }

  /** The bytes themselves: `sf:lock:`, the length in decimal, a colon, the group and the field. */
  lemma KeyShape(group: Text, field: Text)
    ensures FlightKey(group, field) == Decimal(|group|) + [58] + group + field
    ensures LockKey(group, field) == [115, 102, 58, 108, 111, 99, 107, 58] + FlightKey(group, field)
  {
  }

  lemma LockKeyRoundTrip(group: Text, field: Text)
    ensures DecodeLockKey(LockKey(group, field)) == Some((group, field))
  {
    FlightKeyRoundTrip(group, field);
    assert LockKey(group, field)[|LOCK_PREFIX|..] == FlightKey(group, field);
  }

  /** Entries with different (group, field) never share an in-process lock or a lease. */
  lemma KeysInjective(g1: Text, f1: Text, g2: Text, f2: Text)
    ensures FlightKey(g1, f1) == FlightKey(g2, f2) <==> g1 == g2 && f1 == f2
    ensures LockKey(g1, f1) == LockKey(g2, f2) <==> g1 == g2 && f1 == f2
  {
    FlightKeyRoundTrip(g1, f1);
    FlightKeyRoundTrip(g2, f2);
    LockKeyRoundTrip(g1, f1);
    LockKeyRoundTrip(g2, f2);
  }

  // ---- field ----

  /** `parts.join(":")` */
  function Field(parts: seq<Text>): Text {
    if parts == [] then []
    else if |parts| == 1 then parts[0]
    else parts[0] + [COLON] + Field(parts[1..])
  }

  /** Splitting on the separator; the result is never empty. */
  function Split(t: Text): (parts: seq<Text>)
    ensures |parts| > 0
    decreases |t|
  {
    CutRejoins(t);
    match Cut(t)
    case None => [t]
    case Some((before, after)) => [before] + Split(after)
  }

  predicate SeparatorFree(parts: seq<Text>) {
    forall i :: 0 <= i < |parts| ==> COLON !in parts[i]
  }

  /** Every part split in turn: what a list of parts looks like once joined. */
  function SplitAll(parts: seq<Text>): (r: seq<Text>)
    ensures |r| > 0
  {
    if |parts| == 0 then [[]]
    else if |parts| == 1 then Split(parts[0])
    else Split(parts[0]) + SplitAll(parts[1..])
  }

  lemma {:induction false} SplitOfJoin(head: Text, tail: Text)
    ensures Split(head + [COLON] + tail) == Split(head) + Split(tail)
    decreases |head|
  {
    CutRejoins(head);
    match Cut(head)
    case None => CutAtFirst(head, tail);
    case Some((before, after)) =>
      var rest := after + [COLON] + tail;
      CutAtFirst(before, rest);
      assert head + [COLON] + tail == before + [COLON] + rest;
      SplitOfJoin(after, tail);
      assert [before] + (Split(after) + Split(tail)) == ([before] + Split(after)) + Split(tail);
  }

  lemma {:induction false} SplitField(parts: seq<Text>)
    ensures Split(Field(parts)) == SplitAll(parts)
  {
    if |parts| > 1 {
      SplitField(parts[1..]);
      SplitOfJoin(parts[0], Field(parts[1..]));
    }
  }

  lemma {:induction false} SplitIsFree(t: Text)
    ensures SeparatorFree(Split(t))
    decreases |t|
  {
    CutRejoins(t);
    match Cut(t)
    case None =>
    case Some((before, after)) => SplitIsFree(after);
  }

  lemma {:induction false} FieldOfSplit(t: Text)
    ensures Field(Split(t)) == t
    decreases |t|
  {
    CutRejoins(t);
    match Cut(t)
    case None =>
    case Some((before, after)) =>
      FieldOfSplit(after);
      assert Split(t)[1..] == Split(after);
  }

  lemma {:induction false} SplitAllOfFree(parts: seq<Text>)
    requires parts != [] && SeparatorFree(parts)
    ensures SplitAll(parts) == parts
  {
    CutAbsent(parts[0]);
    if |parts| > 1 {
      SplitAllOfFree(parts[1..]);
      assert [parts[0]] + parts[1..] == parts;
    }
  }

  /** On non-empty lists of separator-free parts, splitting undoes `field`. */
  lemma FieldRoundTrip(parts: seq<Text>)
    requires parts != [] && SeparatorFree(parts)
    ensures Split(Field(parts)) == parts
  {
    SplitField(parts);
    SplitAllOfFree(parts);
  }

  /** `field` is onto: every text is the field of exactly one non-empty separator-free list, and
      splitting finds it. */
  lemma FieldBijective(t: Text)
    ensures Split(t) != [] && SeparatorFree(Split(t)) && Field(Split(t)) == t
    ensures forall parts :: parts != [] && SeparatorFree(parts) && Field(parts) == t ==> parts == Split(t)
  {
    SplitIsFree(t);
    FieldOfSplit(t);
    forall parts | parts != [] && SeparatorFree(parts) && Field(parts) == t ensures parts == Split(t) {
      FieldRoundTrip(parts);
    }
  }

  /** On all lists, exactly these collide: at least one of two different ones lies outside that domain. */
  lemma FieldCollisions(p: seq<Text>, q: seq<Text>)
    ensures Field(p) == Field(q) <==> SplitAll(p) == SplitAll(q)
    ensures Field(p) == Field(q) && p != q ==> !(p != [] && SeparatorFree(p)) || !(q != [] && SeparatorFree(q))
  {
    if p != [] && SeparatorFree(p) { FieldRoundTrip(p); }
    if q != [] && SeparatorFree(q) { FieldRoundTrip(q); }
    SplitField(p);
    SplitField(q);
    FieldOfSplit(Field(p));
    FieldOfSplit(Field(q));
  }

  /** The empty list and the list of one empty part; one part with a separator and the two halves. */
  lemma FieldCollides(a: Text, b: Text)
    ensures Field([]) == Field([[]]) == []
    ensures Field([a, b]) == a + [58] + b
    ensures Field([a + [COLON] + b]) == Field([a, b])
  {
  }
}

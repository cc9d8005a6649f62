/**
 * Soroban event ids: `<toid>-<event index>`, where the 64-bit TOID packs the ledger,
 * the transaction order and the operation index (Stellar SEP-0035, section "Specification").
 */
module EventId {
  import opened Strings
  import opened Wrappers

  datatype Position = Position(ledger: nat, txOrder: nat, opIndex: nat, eventIndex: nat)

  const MAX_SAFE_INTEGER: nat := 9007199254740991

  // ---------------------------------------------------------------------
  // BigInt bit operations on non-negative operands
  // ---------------------------------------------------------------------

  function Pow2(k: nat): (p: nat)
    ensures p >= 1
  {
    if k == 0 then 1 else 2 * Pow2(k - 1)
  }

  function BitOr(a: nat, b: nat): (r: nat) {
    if a == 0 then b
    else if b == 0 then a
    else 2 * BitOr(a / 2, b / 2) + if a % 2 == 1 || b % 2 == 1 then 1 else 0
  }

  function BitAnd(a: nat, b: nat): (r: nat) {
    if a == 0 || b == 0 then 0
    else 2 * BitAnd(a / 2, b / 2) + if a % 2 == 1 && b % 2 == 1 then 1 else 0
  }

  function Shl(a: nat, k: nat): (r: nat) { a * Pow2(k) }

  function Shr(a: nat, k: nat): (r: nat) {
    QuotientNonNegative(a, Pow2(k));
    a / Pow2(k)
  }

  lemma QuotientNonNegative(a: nat, d: nat)
    requires d >= 1
    ensures a / d >= 0
  {
    var q: int := a / d;
    assert a == q * d + a % d;
    assert q <= -1 ==> q * d <= 0 - d;
  }

  /** Or-ing a field into zeroed low bits is addition. */
  lemma {:induction false} OrDisjoint(a: nat, k: nat, b: nat)
    requires b < Pow2(k)
    ensures BitOr(Shl(a, k), b) == Shl(a, k) + b
  {
    if k > 0 && a > 0 && b > 0 {
      var half := a * Pow2(k - 1);
      assert Shl(a, k) == 2 * half;
      OrDisjoint(a, k - 1, b / 2);
    }
  }

  /** Masking with k low ones is the remainder modulo 2^k. */
  lemma {:induction false} AndMask(a: nat, k: nat)
    ensures BitAnd(a, Pow2(k) - 1) == a % Pow2(k)
  {
    if k > 0 {
      var m := Pow2(k) - 1;
      assert m / 2 == Pow2(k - 1) - 1 && m % 2 == 1;
      AndMask(a / 2, k - 1);
      ModDouble(a, Pow2(k - 1));
    }
  }

  lemma ModDouble(a: nat, p: nat)
    requires p >= 1
    ensures a % (2 * p) == 2 * ((a / 2) % p) + a % 2
  {
    var q, r := (a / 2) / p, (a / 2) % p;
    assert a == 2 * (q * p + r) + a % 2;
    assert a == q * (2 * p) + (2 * r + a % 2);
    DivModUnique(a, 2 * p, q, 2 * r + a % 2);
  }

  lemma DivModUnique(a: nat, d: nat, q: nat, r: nat)
    requires d >= 1 && r < d && a == q * d + r
    ensures a % d == r && a / d == q
  {
    var q': int, r': int, d: int := a / d, a % d, d;
    assert (q - q') * d == r' - r;
    assert q - q' >= 1 ==> (q - q') * d >= d;
    assert q - q' <= -1 ==> (q - q') * d <= 0 - d;
  }

  lemma Widths()
    ensures Pow2(12) == 0x1000 && Pow2(20) == 0x10_0000 && Pow2(32) == 0x1_0000_0000
    ensures Pow10(10) == 10_000_000_000 && Pow10(19) == 10_000_000_000_000_000_000
  {
  }

  // ---------------------------------------------------------------------
  // The codec
  // ---------------------------------------------------------------------

  /** The packed id: ledger, transaction order and operation index or-ed together. */
  function Toid(p: Position): (r: nat) {
    BitOr(BitOr(Shl(p.ledger, 32), Shl(p.txOrder, 12)), p.opIndex)
  }

  function Format(p: Position): (id: string) {
    PadStart(NatToString(Toid(p)), 19) + "-" + PadStart(NatToString(p.eventIndex), 10)
  }

  /** White space and line terminators removed by `String.prototype.trim`. */
  predicate IsSpace(c: char) {
    || '\t' <= c <= '\r' || c == ' ' || c == '\U{00A0}' || c == '\U{1680}'
    || '\U{2000}' <= c <= '\U{200A}' || c == '\U{2028}' || c == '\U{2029}'
    || c == '\U{202F}' || c == '\U{205F}' || c == '\U{3000}' || c == '\U{FEFF}'
  }

  function Trim(s: string): (r: string) {
    if s != "" && IsSpace(s[0]) then Trim(s[1..])
    else if s != "" && IsSpace(s[|s| - 1]) then Trim(s[..|s| - 1])
    else s
  }

  ghost predicate AllSpaces(s: string) { forall c :: c in s ==> IsSpace(c) }

  /** Trimming takes the white space off both ends and nothing else. */
  lemma {:induction false} TrimExactly(s: string) returns (front: string, back: string)
    ensures s == front + Trim(s) + back && AllSpaces(front) && AllSpaces(back)
    ensures Trim(s) != "" ==> !IsSpace(Trim(s)[0]) && !IsSpace(Trim(s)[|Trim(s)| - 1])
    ensures Trim(s) == "" <==> AllSpaces(s)
    decreases |s|
  {
    if s != "" && IsSpace(s[0]) {
      front, back := TrimExactly(s[1..]);
      front := [s[0]] + front;
    } else if s != "" && IsSpace(s[|s| - 1]) {
      front, back := TrimExactly(s[..|s| - 1]);
      back := back + [s[|s| - 1]];
    } else {
      front, back := "", "";
      assert s != "" ==> s[0] in s;
    }
  }

  function Decode(id: string): (r: Option<Position>) {
    var parts := Split(Trim(id), '-');
    if id == "" || |parts| != 2 || parts[0] == "" || parts[1] == "" then None
    else if !AllDigits(parts[0]) || !AllDigits(parts[1]) then None
    else
      var toid, eventIndex := ParseNat(parts[0]), ParseNat(parts[1]);
      if eventIndex > MAX_SAFE_INTEGER then None
      else Some(Position(
        BitAnd(Shr(toid, 32), 0xffff_ffff),
        BitAnd(Shr(toid, 12), 0xf_ffff),
        BitAnd(toid, 0xfff),
        eventIndex))
  }

  predicate InRange(p: Position) {
    p.ledger < 0x1_0000_0000 && p.txOrder < 0x10_0000 && p.opIndex < 0x1000
  }

  /** In range, the three fields do not overlap: the packed id is their positional sum. */
  lemma ToidLayout(p: Position)
    requires InRange(p)
    ensures Toid(p) == p.ledger * 0x1_0000_0000 + p.txOrder * 0x1000 + p.opIndex
  {
    Widths();
    OrDisjoint(p.ledger, 32, Shl(p.txOrder, 12));
    var high := p.ledger * 0x10_0000 + p.txOrder;
    assert Shl(p.ledger, 32) + Shl(p.txOrder, 12) == Shl(high, 12);
    OrDisjoint(high, 12, p.opIndex);
  }

  lemma Fields(p: Position, toid: nat)
    requires InRange(p)
    requires toid == p.ledger * 0x1_0000_0000 + p.txOrder * 0x1000 + p.opIndex
    ensures BitAnd(Shr(toid, 32), 0xffff_ffff) == p.ledger
    ensures BitAnd(Shr(toid, 12), 0xf_ffff) == p.txOrder
    ensures BitAnd(toid, 0xfff) == p.opIndex
  {
    var high := p.ledger * 0x10_0000 + p.txOrder;
    Shifted(toid, p.ledger, p.txOrder * 0x1000 + p.opIndex, 32, 0x1_0000_0000);
    Shifted(toid, high, p.opIndex, 12, 0x1000);
    Masked(p.ledger, 0, p.ledger, 32, 0x1_0000_0000);
    Masked(high, p.ledger, p.txOrder, 20, 0x10_0000);
    Masked(toid, high, p.opIndex, 12, 0x1000);
  }

  lemma Shifted(a: nat, q: nat, r: nat, k: nat, p: nat)
    requires k in {12, 20, 32} && p == Width(k) && r < p && a == q * p + r
    ensures Shr(a, k) == q
  {
    Widths();
    DivModUnique(a, p, q, r);
  }

  lemma Masked(a: nat, q: nat, r: nat, k: nat, p: nat)
    requires k in {12, 20, 32} && p == Width(k) && r < p && a == q * p + r
    ensures BitAnd(a, p - 1) == r
  {
    Widths();
    AndMask(a, k);
    DivModUnique(a, p, q, r);
  }

  function Width(k: nat): (p: nat)
    requires k in {12, 20, 32}
  {
    if k == 12 then 0x1000 else if k == 20 then 0x10_0000 else 0x1_0000_0000
  }

  /** Parts made of digits survive trimming and splitting. */
  lemma FormattedParts(a: string, b: string)
    requires a != "" && b != "" && AllDigits(a) && AllDigits(b)
    ensures Trim(a + "-" + b) == a + "-" + b
    ensures Split(a + "-" + b, '-') == [a, b]
  {
    var s := a + "-" + b;
    assert Split(s, '-') == [a, b] by {
      DigitsFree(a, '-');
      DigitsFree(b, '-');
      SplitAt(a, b, '-');
      SplitFree(b, '-');
      assert s == a + ['-'] + b;
    }
    assert IsDigit(s[0]) && s[0] == a[0];
    assert IsDigit(s[|s| - 1]) && s[|s| - 1] == b[|b| - 1];
  }

  /** Decoding a formatted id gives back its four numbers exactly when each fits its field. */
  lemma RoundTrip(p: Position)
    ensures Decode(Format(p)) == Some(p) <==> InRange(p) && p.eventIndex <= MAX_SAFE_INTEGER
  {
    if InRange(p) && p.eventIndex <= MAX_SAFE_INTEGER {
      RoundTripInRange(p);
    }
    if Decode(Format(p)).Some? {
      DecodedInRange(Format(p));
    }
  }

  /** Whatever is decoded fits its fields. */
  lemma DecodedInRange(id: string)
    requires Decode(id).Some?
    ensures InRange(Decode(id).value) && Decode(id).value.eventIndex <= MAX_SAFE_INTEGER
  {
    var toid := ParseNat(Split(Trim(id), '-')[0]);
    Widths();
    AndMask(Shr(toid, 32), 32);
    AndMask(Shr(toid, 12), 20);
    AndMask(toid, 12);
  }

  lemma RoundTripInRange(p: Position)
    requires InRange(p) && p.eventIndex <= MAX_SAFE_INTEGER
    ensures Decode(Format(p)) == Some(p)
  {
    var a := PadStart(NatToString(Toid(p)), 19);
    var b := PadStart(NatToString(p.eventIndex), 10);
    FormattedParts(a, b);
    ParseOfPadded(NatToString(Toid(p)), 19);
    ParseOfPadded(NatToString(p.eventIndex), 10);
    ParseOfPrinted(Toid(p));
    ParseOfPrinted(p.eventIndex);
    ToidLayout(p);
    Fields(p, Toid(p));
  }

  ghost predicate DashJoined(id: string, a: string, b: string) {
    && a != "" && b != "" && AllDigits(a) && AllDigits(b)
    && Trim(id) == a + "-" + b && ParseNat(b) <= MAX_SAFE_INTEGER
  }

  /** An id is accepted exactly when it is two non-empty digit runs joined by one dash, the second a safe integer. */
  lemma DecodeAccepts(id: string)
    ensures Decode(id).Some? <==>
            exists a, b :: DashJoined(id, a, b)
  {
    if Decode(id).Some? {
      DecodedShape(id);
    }
    if a, b :| DashJoined(id, a, b) {
      FormattedParts(a, b);
    }
  }

  lemma DecodedShape(id: string)
    requires Decode(id).Some?
    ensures var parts := Split(Trim(id), '-'); |parts| == 2 && DashJoined(id, parts[0], parts[1])
  {
    var parts := Split(Trim(id), '-');
    JoinSplit(Trim(id), '-');
    assert parts[1..] == [parts[1]];
  }

  /** Lexicographic order on positions. */
  predicate Before(p: Position, q: Position) {
    || p.ledger < q.ledger
    || (p.ledger == q.ledger && p.txOrder < q.txOrder)
    || (p.ledger == q.ledger && p.txOrder == q.txOrder && p.opIndex < q.opIndex)
    || (p.ledger == q.ledger && p.txOrder == q.txOrder && p.opIndex == q.opIndex && p.eventIndex < q.eventIndex)
  }

  /** Both parts fit their padding. */
  predicate Padded(p: Position) {
    InRange(p) && Toid(p) < 10_000_000_000_000_000_000 && p.eventIndex < 10_000_000_000
  }

  lemma PaddedLengths(p: Position)
    requires Padded(p)
    ensures |PadStart(NatToString(Toid(p)), 19)| == 19
    ensures |PadStart(NatToString(p.eventIndex), 10)| == 10
    ensures ParseNat(PadStart(NatToString(Toid(p)), 19)) == Toid(p)
    ensures ParseNat(PadStart(NatToString(p.eventIndex), 10)) == p.eventIndex
  {
    Widths();
    PrintedLength(Toid(p), 19);
    PrintedLength(p.eventIndex, 10);
    ParseOfPadded(NatToString(Toid(p)), 19);
    ParseOfPadded(NatToString(p.eventIndex), 10);
    ParseOfPrinted(Toid(p));
    ParseOfPrinted(p.eventIndex);
  }

  /** While both parts fit their padding, string order of ids is position order. */
  lemma OrderPreserved(p: Position, q: Position)
    requires Padded(p) && Padded(q)
    ensures StrLess(Format(p), Format(q)) <==> Before(p, q)
  {
    PaddedLengths(p);
    PaddedLengths(q);
    IdOrder(PadStart(NatToString(Toid(p)), 19), PadStart(NatToString(p.eventIndex), 10),
            PadStart(NatToString(Toid(q)), 19), PadStart(NatToString(q.eventIndex), 10));
    ToidLayout(p);
    ToidLayout(q);
  }

  lemma IdOrder(a: string, b: string, c: string, d: string)
    requires |a| == |c| && |b| == |d|
    requires AllDigits(a) && AllDigits(b) && AllDigits(c) && AllDigits(d)
    ensures StrLess(a + "-" + b, c + "-" + d) <==>
            ParseNat(a) < ParseNat(c) || (ParseNat(a) == ParseNat(c) && ParseNat(b) < ParseNat(d))
  {
    NumericOrder(a, c);
    NumericOrder(b, d);
    StrLessSeparated(a, b, c, d, "-");
  }

  /** Every ledger below 2^31 leaves the packed id within 19 digits. */
  lemma LedgerFits(p: Position)
    requires InRange(p) && p.ledger < 0x8000_0000 && p.eventIndex < 10_000_000_000
    ensures Padded(p)
  {
    ToidLayout(p);
  }

  /** The first printed digit of a number with k + 1 digits. */
  lemma {:induction false} LeadingDigit(n: nat, k: nat)
    requires Pow10(k) <= n < 10 * Pow10(k)
    ensures |NatToString(n)| == k + 1
    ensures n / Pow10(k) < 10 && NatToString(n)[0] == Digit(n / Pow10(k))
  {
    if k > 0 {
      var p := Pow10(k - 1);
      LeadingDigit(n / 10, k - 1);
      DivTen(n, p);
    }
  }

  lemma DivTen(n: nat, p: nat)
    requires p >= 1
    ensures n / (10 * p) == (n / 10) / p
  {
    var q, r := (n / 10) / p, (n / 10) % p;
    assert n / 10 == q * p + r;
    assert q * (10 * p) == 10 * (q * p);
    DivModUnique(n, 10 * p, q, 10 * r + n % 10);
  }

  /** Ids below the given bounds sort like their positions. */
  ghost predicate SortsRight(toids: nat, eventIndexes: nat) {
    forall p, q ::
      Below(p, toids, eventIndexes) && Below(q, toids, eventIndexes) ==>
        (StrLess(Format(p), Format(q)) <==> Before(p, q))
  }

  predicate Below(p: Position, toids: nat, eventIndexes: nat) {
    InRange(p) && Toid(p) < toids && p.eventIndex < eventIndexes
  }

  /** Ids sort like their positions exactly up to 19 digits of packed id and 10 digits of event index. */
  lemma OrderExact(toids: nat, eventIndexes: nat)
    requires toids >= 1 && eventIndexes >= 1
    ensures SortsRight(toids, eventIndexes) <==>
            toids <= 10_000_000_000_000_000_000 && eventIndexes <= 10_000_000_000
  {
    if toids <= 10_000_000_000_000_000_000 && eventIndexes <= 10_000_000_000 {
      forall p, q | Below(p, toids, eventIndexes) && Below(q, toids, eventIndexes)
        ensures StrLess(Format(p), Format(q)) <==> Before(p, q)
      {
        OrderPreserved(p, q);
      }
    } else if toids > 10_000_000_000_000_000_000 {
      var p, q := OrderBreaksPast19Digits();
      OutOfOrder(p, q, toids, eventIndexes);
    } else {
      var p, q := OrderBreaksPast10Digits();
      OutOfOrder(p, q, toids, eventIndexes);
    }
  }

  lemma OutOfOrder(p: Position, q: Position, toids: nat, eventIndexes: nat)
    requires Below(p, toids, eventIndexes) && Below(q, toids, eventIndexes)
    requires Before(p, q) && StrLess(Format(q), Format(p))
    ensures !SortsRight(toids, eventIndexes)
  {
    StrLessTotal(Format(p), Format(q));
  }

  /** A packed id of 19 digits or more starts with its own first digit. */
  lemma FirstDigit(p: Position, k: nat, power: nat, d: nat)
    requires k >= 18 && power == Pow10(k) && d < 10 && d * power <= Toid(p) < d * power + power && d >= 1
    ensures Format(p)[0] == Digit(d)
  {
    assert power <= d * power && d * power + power <= 10 * power;
    LeadingDigit(Toid(p), k);
    DivModUnique(Toid(p), power, d, Toid(p) - d * power);
  }

  lemma FirstDiffers(a: string, b: string)
    requires a != "" && b != "" && a[0] < b[0]
    ensures StrLess(a, b)
  {
  }

  lemma Powers()
    ensures Pow10(18) == 1_000_000_000_000_000_000 && Pow10(19) == 10_000_000_000_000_000_000
  {
    Widths();
    assert Pow10(19) == 10 * Pow10(18);
  }

  lemma Reversed19(p: Position, q: Position)
    requires Toid(p) == 9_999_999_999_999_999_999 && Toid(q) == 10_000_000_000_000_000_000
    ensures StrLess(Format(q), Format(p))
  {
    Powers();
    FirstDigit(p, 18, 1_000_000_000_000_000_000, 9);
    FirstDigit(q, 19, 10_000_000_000_000_000_000, 1);
    FirstDiffers(Format(q), Format(p));
  }

  /** The last 19-digit packed id and the first 20-digit one print in the wrong order. */
  lemma OrderBreaksPast19Digits() returns (p: Position, q: Position)
    ensures p == Position(2328306436, 564863, 4095, 0) && q == Position(2328306436, 564864, 0, 0)
    ensures Toid(p) == 9_999_999_999_999_999_999 && Toid(q) == 10_000_000_000_000_000_000
    ensures Before(p, q) && StrLess(Format(q), Format(p))
  {
    p, q := Position(2328306436, 564863, 4095, 0), Position(2328306436, 564864, 0, 0);
    ToidLayout(p);
    ToidLayout(q);
    Reversed19(p, q);
  }

  /** So do the last 10-digit event index and the first 11-digit one. */
  lemma OrderBreaksPast10Digits() returns (p: Position, q: Position)
    ensures p == Position(0, 0, 0, 9_999_999_999) && q == Position(0, 0, 0, 10_000_000_000)
    ensures Toid(p) == Toid(q) == 0 && Before(p, q) && StrLess(Format(q), Format(p))
  {
    p, q := Position(0, 0, 0, 9_999_999_999), Position(0, 0, 0, 10_000_000_000);
    ToidLayout(p);
    ToidLayout(q);
    assert Pow10(10) == 10 * Pow10(9);
    Widths();
    LeadingDigit(9_999_999_999, 9);
    LeadingDigit(10_000_000_000, 10);
    var a, b := PadStart(NatToString(9_999_999_999), 10), PadStart(NatToString(10_000_000_000), 10);
    assert a[0] == '9' && b[0] == '1';
    var head := PadStart(NatToString(0), 19);
    StrLessSeparated(head, b, head, a, "-");
    StrLessTotal(head, head);
  }
}

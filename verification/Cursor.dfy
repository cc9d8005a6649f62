/** The cursor token's inner text, byte by byte: `<version>|<length of sortValue>|<sortValue><id>`. */
module Cursor {
  import opened Wrappers
  import opened Strings
  import opened EventId

  const CURSOR_VERSION: string := "v1"

  datatype CursorKey = CursorKey(sortValue: string, id: string)

  function Encode(key: CursorKey): (text: string) {
    CURSOR_VERSION + "|" + NatToString(|key.sortValue|) + "|" + key.sortValue + key.id
  }

  /** `s.indexOf(c)`, or None for -1. */
  function IndexOf(s: string, c: char): (i: Option<nat>)
    ensures i.Some? ==> i.value < |s|
  {
    if s == "" then None
    else if s[0] == c then Some(0)
    else
      var i := IndexOf(s[1..], c);
      if i.None? then None else Some(i.value + 1)
  }

  function TrimStart(s: string): (r: string) { if s != "" && IsSpace(s[0]) then TrimStart(s[1..]) else s }

  function LeadingDigits(s: string): (d: string)
    ensures AllDigits(d)
  {
    if s != "" && IsDigit(s[0]) then [s[0]] + LeadingDigits(s[1..]) else ""
  }

  /** `parseInt(s, 10)`, or None for NaN. */
  function ParseInt(s: string): (n: Option<int>) {
    var t := TrimStart(s);
    var negative, signed := t != "" && t[0] == '-', t != "" && (t[0] == '-' || t[0] == '+');
    var digits := LeadingDigits(if signed then t[1..] else t);
    if digits == "" then None else Some(if negative then -(ParseNat(digits) as int) else ParseNat(digits))
  }

  function Decode(text: string): (key: Option<CursorKey>) {
    var firstSep := IndexOf(text, '|');
    if firstSep.None? || text[..firstSep.value] != CURSOR_VERSION then None
    else
      var rest := text[firstSep.value + 1..];
      var secondSep := IndexOf(rest, '|');
      if secondSep.None? then None
      else
        var svLen, payload := ParseInt(rest[..secondSep.value]), rest[secondSep.value + 1..];
        if svLen.None? || svLen.value < 0 || |payload| < svLen.value then None
        else
          var sortValue, id := payload[..svLen.value], payload[svLen.value..];
          if sortValue == "" || id == "" then None else Some(CursorKey(sortValue, id))
  }

  lemma {:induction false} IndexAfter(a: string, c: char, b: string)
    requires Free(a, c)
    ensures IndexOf(a + [c] + b, c) == Some(|a|)
  {
    var s := a + [c] + b;
    if a != "" {
      assert s[1..] == a[1..] + [c] + b;
      IndexAfter(a[1..], c, b);
    }
  }

  lemma {:induction false} LeadingAll(s: string)
    requires AllDigits(s)
    ensures LeadingDigits(s) == s
  {
    if s != "" {
      LeadingAll(s[1..]);
      assert s == [s[0]] + s[1..];
    }
  }

  lemma ParseIntOfPrinted(n: nat)
    ensures ParseInt(NatToString(n)) == Some(n)
  {
    var s := NatToString(n);
    assert IsDigit(s[0]);
    assert TrimStart(s) == s;
    LeadingAll(s);
    ParseOfPrinted(n);
  }

  lemma SplitText(a: string, c: char, b: string)
    requires Free(a, c)
    ensures var s := a + [c] + b; IndexOf(s, c) == Some(|a|) && s[..|a|] == a && s[|a| + 1..] == b
  {
    IndexAfter(a, c, b);
  }

  /** A token gives back its key, whatever pipes it contains, exactly when both parts are non-empty. */
  lemma RoundTrip(key: CursorKey)
    ensures Decode(Encode(key)) == if key.sortValue == "" || key.id == "" then None else Some(key)
  {
    var length, payload := NatToString(|key.sortValue|), key.sortValue + key.id;
    var rest := length + ['|'] + payload;
    assert Encode(key) == CURSOR_VERSION + ['|'] + rest;
    SplitText(CURSOR_VERSION, '|', rest);
    DigitsFree(length, '|');
    SplitText(length, '|', payload);
    ParseIntOfPrinted(|key.sortValue|);
    assert payload[..|key.sortValue|] == key.sortValue && payload[|key.sortValue|..] == key.id;
  }
}
